/** The escaper for strings in dumps and generated code, and the unescaper that undoes it. */
module Escaper {
  import opened Sequences
  import opened Wrappers
  import opened Utf8

  // ----- hexadecimal numbers

  function HexDigit(d: nat): (c: char)
    requires d < 16
  {
    "0123456789abcdef"[d]
  }

  function HexValue(c: char): (d: nat)
    ensures d <= 16
    ensures forall k :: 0 <= k < 16 && c == HexDigit(k) ==> d == k
  {
    if '0' <= c <= '9' then c as int - '0' as int
    else if 'a' <= c <= 'f' then c as int - 'a' as int + 10
    else 16
  }

  function Hex(n: nat): (s: string)
    ensures s != []
  {
    if n < 16 then [HexDigit(n)] else Hex(n / 16) + [HexDigit(n % 16)]
  }

  datatype Number = Number(value: nat, rest: string)

  function ReadHex(t: string, acc: nat): (r: Number)
    ensures |r.rest| <= |t|
  {
    if t != [] && HexValue(t[0]) < 16 then ReadHex(t[1..], acc * 16 + HexValue(t[0])) else Number(acc, t)
  }

  /** Reading a number in front of something else inverts writing it. */
  lemma {:induction false} HexRead(n: nat, u: string)
    requires u != [] && HexValue(u[0]) == 16
    ensures ReadHex(Hex(n) + u, 0) == Number(n, u)
  {
    HexReadFrom(n, u);
    assert ReadHex(u, n) == Number(n, u);
  }

  lemma {:induction false} HexReadFrom(n: nat, u: string)
    ensures ReadHex(Hex(n) + u, 0) == ReadHex(u, n)
    decreases n
  {
    var c := HexDigit(n % 16);
    DigitRead(c, u, n / 16);
    if n >= 16 {
      HexReadFrom(n / 16, [c] + u);
      Assoc(Hex(n / 16), [c], u);
    }
  }

  lemma DigitRead(c: char, u: string, acc: nat)
    requires HexValue(c) < 16
    ensures ReadHex([c] + u, acc) == ReadHex(u, acc * 16 + HexValue(c))
  {
    assert ([c] + u)[1..] == u;
  }

  // ----- the escaper, on any bytes

  function UnicodeEscape(c: nat): string {
    "\\u{" + Hex(c) + "}"
  }

  /** An ASCII character.  DEL is not escaped. */
  function EscapeAscii(c: char): string {
    if c == '\0' then "\\0"
    else if c == '\n' then "\\n"
    else if c == '\\' then "\\\\"
    else if c == '"' then "\\\""
    else if c < ' ' then UnicodeEscape(c as nat)
    else [c]
  }

  /** The continuation bytes that are there, of `n` that should be. */
  datatype Tail = Tail(ok: bool, val: nat, length: nat)

  function ReadTail(t: string, n: nat, val: nat): (r: Tail)
    requires Bytes(t)
    ensures r.length <= |t| && r.length <= n
  {
    if n == 0 then Tail(true, val, 0)
    else if IsContinuation(ByteAt(t, 0)) then
      var r := ReadTail(t[1..], n - 1, val * 64 + ByteAt(t, 0) % 64);
      r.(length := r.length + 1)
    else Tail(false, val, 0)
  }

  /** How many continuation bytes a byte asks for, and the bits that it has itself. */
  function TailLength(b: nat): nat {
    if b < 0xC0 then 0 else if b < 0xE0 then 1 else if b < 0xF0 then 2 else if b < 0xF8 then 3 else 0
  }

  function LeadBits(b: nat): nat {
    if b < 0xE0 then b % 32 else if b < 0xF0 then b % 16 else b % 8
  }

  /** Bytes that are no part of a whole sequence are dropped. */
  function Escape(t: string): string
    requires Bytes(t)
    decreases |t|
  {
    if t == [] then []
    else
      var b := ByteAt(t, 0);
      if b < 0x80 then EscapeAscii(t[0]) + Escape(t[1..])
      else if TailLength(b) == 0 then Escape(t[1..])
      else
        var r := ReadTail(t[1..], TailLength(b), LeadBits(b));
        (if r.ok then UnicodeEscape(r.val) else []) + Escape(t[1 + r.length..])
  }

  // ----- the unescaper

  function Prepend(a: string, t: Option<string>): Option<string> {
    if t.Some? then Some(a + t.value) else None
  }

  /** Undoes `\0`, `\n`, `\\`, `\"` and `\u{..}`; an unescaped quote would end the string. */
  function Unescape(t: string): Option<string>
    decreases |t|
  {
    if t == [] then Some([])
    else if t[0] == '"' then None
    else if t[0] != '\\' then Prepend([t[0]], Unescape(t[1..]))
    else if |t| < 2 then None
    else if t[1] == '0' then Prepend("\0", Unescape(t[2..]))
    else if t[1] == 'n' then Prepend("\n", Unescape(t[2..]))
    else if t[1] == '\\' || t[1] == '"' then Prepend([t[1]], Unescape(t[2..]))
    else if t[1] == 'u' && At(t, 2) == '{' then
      var n := ReadHex(t[3..], 0);
      if At(n.rest, 0) == '}' && IsScalar(n.value) then Prepend(Encode(n.value), Unescape(n.rest[1..])) else None
    else None
  }

  lemma UnicodeUnescaped(c: nat, u: string)
    requires IsScalar(c)
    ensures Unescape(UnicodeEscape(c) + u) == Prepend(Encode(c), Unescape(u))
  {
    var t, v := UnicodeEscape(c) + u, "}" + u;
    assert t[0] == '\\' && t[1] == 'u' && t[2] == '{';
    assert t[3..] == Hex(c) + v;
    HexRead(c, v);
    assert v[1..] == u;
  }

  lemma AsciiUnescaped(c: char, u: string)
    requires c as int < 0x80
    ensures Unescape(EscapeAscii(c) + u) == Prepend([c], Unescape(u))
  {
    var t := EscapeAscii(c) + u;
    if c in {'\0', '\n', '\\', '"'} {
      assert t[2..] == u;
    } else if c < ' ' {
      UnicodeUnescaped(c as nat, u);
      assert Encode(c as nat) == [c];
    } else {
      assert t[1..] == u;
    }
  }

  // ----- the round trip

  function EscapeScalar(c: nat): string
    requires c < 0x110000
  {
    if c < 0x80 then EscapeAscii(c as char) else UnicodeEscape(c)
  }

  /** A scalar value that is encoded in full is escaped as a whole. */
  lemma ScalarEscaped(c: nat, u: string)
    requires c < 0x110000 && Bytes(u)
    ensures Escape(Encode(c) + u) == EscapeScalar(c) + Escape(u)
  {
    if c < 0x80 {
      assert Encode(c) + u == [c as char] + u;
      EscapeFirst([c as char], u);
    } else {
      TailRead(c, u);
      SequenceEscaped(Encode(c), u, c);
    }
  }

  lemma EscapeFirst(t: string, u: string)
    requires |t| == 1 && t[0] as int < 0x80 && Bytes(u)
    ensures Escape(t + u) == EscapeAscii(t[0]) + Escape(u)
  {
    assert (t + u)[1..] == u;
  }

  lemma SequenceEscaped(e: string, u: string, c: nat)
    requires Bytes(e) && Bytes(u) && 2 <= |e| && e[0] as int >= 0x80 && TailLength(e[0] as int) == |e| - 1
    requires ReadTail(e[1..] + u, |e| - 1, LeadBits(e[0] as int)) == Tail(true, c, |e| - 1)
    ensures Escape(e + u) == UnicodeEscape(c) + Escape(u)
  {
    var t := e + u;
    assert Bytes(t) && t[0] == e[0];
    assert t[1..] == e[1..] + u && t[|e|..] == u;
    FirstSequence(t, |e| - 1, c);
  }

  lemma FirstSequence(t: string, n: nat, c: nat)
    requires Bytes(t) && n < |t| && n > 0 && ByteAt(t, 0) >= 0x80 && TailLength(ByteAt(t, 0)) == n
    requires ReadTail(t[1..], n, LeadBits(ByteAt(t, 0))) == Tail(true, c, n)
    ensures Escape(t) == UnicodeEscape(c) + Escape(t[1 + n..])
  {
  }

  lemma TailCons(c: char, t: string, n: nat, val: nat)
    requires Bytes(t) && c as int < 256 && n > 0 && IsContinuation(c as int)
    ensures
      var r := ReadTail(t, n - 1, val * 64 + c as int % 64);
      ReadTail([c] + t, n, val) == r.(length := r.length + 1)
  {
    assert ([c] + t)[1..] == t;
  }

  lemma TailEnds(t: string, val: nat)
    requires Bytes(t)
    ensures ReadTail(t, 0, val) == Tail(true, val, 0)
  {
  }

  lemma TailRead(c: nat, u: string)
    requires 0x80 <= c < 0x110000 && Bytes(u)
    ensures
      var e := Encode(c);
      && e[0] as int >= 0x80 && TailLength(e[0] as int) == |e| - 1
      && ReadTail(e[1..] + u, |e| - 1, LeadBits(e[0] as int)) == Tail(true, c, |e| - 1)
  {
    var e := Encode(c);
    EncodedBits(c);
    if |e| == 2 {
      TwoBytes(e, u);
    } else if |e| == 3 {
      ThreeBytes(e, u);
    } else {
      FourBytes(e, u);
    }
  }

  lemma LeadByte(q: nat)
    ensures q < 32 ==> TailLength(0xC0 + q) == 1 && LeadBits(0xC0 + q) == q
    ensures q < 16 ==> TailLength(0xE0 + q) == 2 && LeadBits(0xE0 + q) == q
    ensures q < 8 ==> TailLength(0xF0 + q) == 3 && LeadBits(0xF0 + q) == q
  {
  }

  lemma Shifts(c: nat)
    ensures c / 0x1000 == c / 0x40 / 0x40 && c / 0x40000 == c / 0x1000 / 0x40
  {
  }

  lemma EncodedBits(c: nat)
    requires 0x80 <= c < 0x110000
    ensures
      var e := Encode(c);
      && Continues(e) && e[0] as int >= 0x80 && TailLength(e[0] as int) == |e| - 1
      && (|e| == 2 ==> LeadBits(e[0] as int) * 64 + Bits(e[1]) == c)
      && (|e| == 3 ==> (LeadBits(e[0] as int) * 64 + Bits(e[1])) * 64 + Bits(e[2]) == c)
      && (|e| == 4 ==> ((LeadBits(e[0] as int) * 64 + Bits(e[1])) * 64 + Bits(e[2])) * 64 + Bits(e[3]) == c)
  {
    Shifts(c);
    if c < 0x800 {
      LeadByte(c / 0x40);
    } else if c < 0x10000 {
      LeadByte(c / 0x1000);
    } else {
      LeadByte(c / 0x40000);
    }
  }

  predicate Continues(e: string) {
    Bytes(e) && forall i :: 1 <= i < |e| ==> IsContinuation(e[i] as int)
  }

  function Bits(c: char): nat {
    c as int % 64
  }

  lemma TwoBytes(e: string, u: string)
    requires |e| == 2 && Continues(e) && Bytes(u)
    ensures ReadTail(e[1..] + u, 1, LeadBits(e[0] as int)) == Tail(true, LeadBits(e[0] as int) * 64 + Bits(e[1]), 1)
  {
    var v := LeadBits(e[0] as int);
    assert e[1..] + u == [e[1]] + u;
    TailCons(e[1], u, 1, v);
    TailEnds(u, v * 64 + Bits(e[1]));
  }

  lemma ThreeBytes(e: string, u: string)
    requires |e| == 3 && Continues(e) && Bytes(u)
    ensures ReadTail(e[1..] + u, 2, LeadBits(e[0] as int)) == Tail(true, (LeadBits(e[0] as int) * 64 + Bits(e[1])) * 64 + Bits(e[2]), 2)
  {
    var v := LeadBits(e[0] as int);
    assert e[1..] + u == [e[1]] + ([e[2]] + u);
    TailCons(e[1], [e[2]] + u, 2, v);
    TailCons(e[2], u, 1, v * 64 + Bits(e[1]));
    TailEnds(u, (v * 64 + Bits(e[1])) * 64 + Bits(e[2]));
  }

  lemma FourBytes(e: string, u: string)
    requires |e| == 4 && Continues(e) && Bytes(u)
    ensures ReadTail(e[1..] + u, 3, LeadBits(e[0] as int))
         == Tail(true, ((LeadBits(e[0] as int) * 64 + Bits(e[1])) * 64 + Bits(e[2])) * 64 + Bits(e[3]), 3)
  {
    var v := LeadBits(e[0] as int);
    assert e[1..] + u == [e[1]] + ([e[2]] + ([e[3]] + u));
    TailCons(e[1], [e[2]] + ([e[3]] + u), 3, v);
    TailCons(e[2], [e[3]] + u, 2, v * 64 + Bits(e[1]));
    TailCons(e[3], u, 1, (v * 64 + Bits(e[1])) * 64 + Bits(e[2]));
    TailEnds(u, ((v * 64 + Bits(e[1])) * 64 + Bits(e[2])) * 64 + Bits(e[3]));
  }

  /** Every well-formed text is got back from its escaped form. */
  lemma {:induction false} RoundTrip(cs: seq<nat>)
    requires AllScalars(cs)
    ensures Unescape(Escape(EncodeAll(cs))) == Some(EncodeAll(cs))
    decreases cs
  {
    if cs != [] {
      var c, u := cs[0], EncodeAll(cs[1..]);
      RoundTrip(cs[1..]);
      ScalarEscaped(c, u);
      if c < 0x80 {
        AsciiUnescaped(c as char, Escape(u));
        assert Encode(c) == [c as char];
      } else {
        UnicodeUnescaped(c, Escape(u));
      }
    }
  }

  // ----- only well-formed text is got back

  predicate Ascii(t: string) {
    forall i :: 0 <= i < |t| ==> t[i] as int < 0x80
  }

  lemma {:induction false} HexAscii(n: nat)
    ensures Ascii(Hex(n))
  {
    if n >= 16 {
      HexAscii(n / 16);
    }
  }

  lemma EscapesAreAscii(c: char, n: nat)
    requires c as int < 0x80
    ensures Ascii(EscapeAscii(c)) && Ascii(UnicodeEscape(n))
  {
    HexAscii(n);
    HexAscii(c as nat);
  }

  lemma AsciiConcat(a: string, b: string)
    requires Ascii(a) && Ascii(b)
    ensures Ascii(a + b)
  {
  }

  lemma {:induction false} EscapeIsAscii(t: string)
    requires Bytes(t)
    ensures Ascii(Escape(t))
    decreases |t|
  {
    if t != [] {
      var b := ByteAt(t, 0);
      if b < 0x80 {
        EscapesAreAscii(t[0], 0);
        EscapeIsAscii(t[1..]);
        AsciiConcat(EscapeAscii(t[0]), Escape(t[1..]));
      } else if TailLength(b) == 0 {
        EscapeIsAscii(t[1..]);
      } else {
        var r := ReadTail(t[1..], TailLength(b), LeadBits(b));
        EscapesAreAscii('0', r.val);
        EscapeIsAscii(t[1 + r.length..]);
        AsciiConcat(if r.ok then UnicodeEscape(r.val) else [], Escape(t[1 + r.length..]));
      }
    }
  }

  ghost predicate WellFormed(t: string) {
    exists cs :: AllScalars(cs) && EncodeAll(cs) == t
  }

  lemma WellFormedCons(c: nat, t: string)
    requires IsScalar(c) && WellFormed(t)
    ensures WellFormed(Encode(c) + t)
  {
    var cs :| AllScalars(cs) && EncodeAll(cs) == t;
    var all := [c] + cs;
    assert all[1..] == cs;
    assert EncodeAll(all) == Encode(c) + t;
  }

  lemma ReadHexSuffix(t: string, acc: nat)
    ensures ReadHex(t, acc).rest == t[|t| - |ReadHex(t, acc).rest|..]
  {
  }

  lemma {:induction false} UnescapedIsWellFormed(t: string)
    requires Ascii(t) && Unescape(t).Some?
    ensures WellFormed(Unescape(t).value)
    decreases |t|
  {
    if t == [] {
      assert EncodeAll([]) == [];
    } else if t[0] != '\\' {
      UnescapedIsWellFormed(t[1..]);
      WellFormedCons(t[0] as nat, Unescape(t[1..]).value);
    } else if t[1] == 'u' {
      var n := ReadHex(t[3..], 0);
      ReadHexSuffix(t[3..], 0);
      UnescapedIsWellFormed(n.rest[1..]);
      WellFormedCons(n.value, Unescape(n.rest[1..]).value);
    } else {
      UnescapedIsWellFormed(t[2..]);
      WellFormedCons(if t[1] == '0' then 0 else if t[1] == 'n' then 10 else t[1] as nat, Unescape(t[2..]).value);
    }
  }

  /** Any bytes at all: they are got back exactly if they are well-formed text. */
  lemma RoundTripExactly(t: string)
    requires Bytes(t)
    ensures Unescape(Escape(t)) == Some(t) <==> WellFormed(t)
  {
    if WellFormed(t) {
      var cs :| AllScalars(cs) && EncodeAll(cs) == t;
      RoundTrip(cs);
    }
    if Unescape(Escape(t)) == Some(t) {
      EscapeIsAscii(t);
      UnescapedIsWellFormed(Escape(t));
    }
  }

  // ----- what is written for any bytes, one case after the other

  /** Printable text stays as it is; four characters have an escape of their own, and DEL has none. */
  lemma AsciiForm(c: char, u: string)
    requires c as int < 0x80 && Bytes(u)
    ensures
      Escape([c] + u) ==
      (if c == '\0' then "\\0" else if c == '\n' then "\\n" else if c == '\\' then "\\\\" else if c == '"' then "\\\""
       else if c as int < 0x20 then "\\u{" + Hex(c as nat) + "}" else [c])
      + Escape(u)
  {
    EscapeFirst([c], u);
  }

  lemma {:induction false} PrintableStays(t: string)
    requires forall i :: 0 <= i < |t| ==> ' ' <= t[i] && t[i] as int < 0x80 && t[i] != '\\' && t[i] != '"'
    ensures Escape(t) == t
  {
    if t != [] {
      PrintableStays(t[1..]);
      AsciiForm(t[0], t[1..]);
      assert t == [t[0]] + t[1..];
    }
  }

  predicate InTail(c: char) {
    0x80 <= c as int < 0xC0
  }

  function Low(c: char): (n: nat)
    requires InTail(c)
    ensures n == Bits(c) && IsContinuation(c as int)
  {
    c as int - 0x80
  }

  /** Two, three or four bytes, of which the first one says how many. */
  predicate IsSequence(e: string) {
    && Bytes(e) && 2 <= |e| <= 4 && (forall i :: 1 <= i < |e| ==> InTail(e[i]))
    && (if |e| == 2 then 0xC0 <= e[0] as int < 0xE0 else if |e| == 3 then 0xE0 <= e[0] as int < 0xF0 else 0xF0 <= e[0] as int < 0xF8)
  }

  /** The number in the bits of a sequence, whether or not a shorter sequence has it. */
  function Carried(e: string): nat
    requires IsSequence(e)
  {
    if |e| == 2 then (e[0] as int - 0xC0) * 64 + Low(e[1])
    else if |e| == 3 then ((e[0] as int - 0xE0) * 64 + Low(e[1])) * 64 + Low(e[2])
    else (((e[0] as int - 0xF0) * 64 + Low(e[1])) * 64 + Low(e[2])) * 64 + Low(e[3])
  }

  lemma SequenceLead(e: string)
    requires IsSequence(e)
    ensures Continues(e) && TailLength(e[0] as int) == |e| - 1
    ensures LeadBits(e[0] as int) == e[0] as int - (if |e| == 2 then 0xC0 else if |e| == 3 then 0xE0 else 0xF0)
  {
    forall i | 1 <= i < |e| ensures IsContinuation(e[i] as int) {
      assert InTail(e[i]);
    }
  }

  /** A whole sequence is written as its number. */
  lemma SequenceForm(e: string, u: string)
    requires IsSequence(e) && Bytes(u)
    ensures Escape(e + u) == "\\u{" + Hex(Carried(e)) + "}" + Escape(u)
  {
    SequenceLead(e);
    if |e| == 2 {
      TwoBytes(e, u);
    } else if |e| == 3 {
      ThreeBytes(e, u);
    } else {
      FourBytes(e, u);
    }
    SequenceEscaped(e, u, Carried(e));
  }

  /** A byte that starts no sequence is dropped. */
  lemma StrayDropped(c: char, u: string)
    requires Bytes(u) && (InTail(c) || 0xF8 <= c as int < 256)
    ensures Escape([c] + u) == Escape(u)
  {
    assert ([c] + u)[1..] == u;
  }

  lemma {:induction false} TailCut(e: string, u: string, n: nat, val: nat)
    requires Bytes(e) && Bytes(u) && |e| < n && (forall i :: 0 <= i < |e| ==> InTail(e[i])) && (u != [] ==> !InTail(u[0]))
    ensures var r := ReadTail(e + u, n, val); !r.ok && r.length == |e|
    decreases n
  {
    if e == [] {
      assert e + u == u;
    } else {
      assert e + u == [e[0]] + (e[1..] + u);
      TailCut(e[1..], u, n - 1, val * 64 + e[0] as int % 64);
      TailCons(e[0], e[1..] + u, n, val);
    }
  }

  lemma CutEscaped(t: string, after: string, u: string, n: nat)
    requires Bytes(t) && n < |t| && t[1..] == after && t[1 + n..] == u && 0xC0 <= t[0] as int < 0xF8
    requires var r := ReadTail(after, TailLength(t[0] as int), LeadBits(t[0] as int)); !r.ok && r.length == n
    ensures Escape(t) == Escape(u)
  {
  }

  /** A sequence that something else cuts short is dropped, and what cuts it short is not. */
  lemma CutDropped(e: string, u: string)
    requires Bytes(e) && Bytes(u) && e != [] && 0xC0 <= e[0] as int < 0xF8 && forall i :: 1 <= i < |e| ==> InTail(e[i])
    requires |e| < if e[0] as int < 0xE0 then 2 else if e[0] as int < 0xF0 then 3 else 4
    requires u != [] ==> !InTail(u[0])
    ensures Escape(e + u) == Escape(u)
  {
    var b := e[0] as int;
    TailCut(e[1..], u, TailLength(b), LeadBits(b));
    CutEscaped(e + u, e[1..] + u, u, |e| - 1);
  }

  lemma HexWritten()
    ensures Hex(0) == "0" && Hex(0x1f) == "1f" && Hex(0x20ac) == "20ac"
  {
    assert Hex(0x20) == "20";
    assert Hex(0x20a) == "20a";
  }

  // ----- the escaper as it runs

  /** Steps over the continuation bytes after position `s`; stops at the last that is one. */
  method StepTail(buf: string, ghost text: string, s0: nat, n: nat, val0: nat) returns (ok: bool, val: nat, s: nat)
    requires Bytes(text) && buf == text + "\0" && s0 < |text|
    ensures s0 <= s < |text|
    ensures ReadTail(text[s0 + 1..], n, val0) == Tail(ok, val, s - s0)
  {
    var k := n;
    val, s := val0, s0;
    while k > 0
      invariant 0 <= k <= n && s0 <= s < |text|
      invariant ReadTail(text[s0 + 1..], n, val0) ==
        var r := ReadTail(text[s + 1..], k, val); r.(length := r.length + (s - s0))
    {
      ghost var t := text[s + 1..];
      s := s + 1;
      var v := buf[s] as int;
      assert v == ByteAt(t, 0);
      if !IsContinuation(v) {
        s := s - 1;
        return false, val, s;
      }
      assert t[1..] == text[s + 1..];
      val := val * 64 + v % 64;
      k := k - 1;
    }
    ok := true;
  }

  /** On any bytes: every turn moves on, and the NUL after the text is never passed. */
  method FmtEscaped(text: string) returns (os: string)
    requires Bytes(text)
    ensures os == Escape(text)
  {
    var buf := text + "\0";
    var s := 0;
    os := [];
    assert text[0..] == text;
    while s != |text|
      invariant 0 <= s <= |text|
      invariant os + Escape(text[s..]) == Escape(text)
      decreases |text| - s
    {
      var out, last := EscapeOne(buf, text, s);
      Assoc(os, out, Escape(text[last + 1..]));
      os := os + out;
      s := last + 1;
    }
    assert os + [] == os;
  }

  /** One turn: what it puts out, and the last position that it looked at for good. */
  method EscapeOne(buf: string, ghost text: string, s: nat) returns (out: string, last: nat)
    requires Bytes(text) && buf == text + "\0" && s < |text|
    ensures s <= last < |text| && Escape(text[s..]) == out + Escape(text[last + 1..])
  {
    ghost var t := text[s..];
    var v := buf[s] as int;
    assert v == ByteAt(t, 0) && t[1..] == text[s + 1..];
    out, last := [], s;
    assert [] + Escape(t[1..]) == Escape(t[1..]);
    if v < 0x80 {
      out := EscapeAscii(buf[s]);
    } else if TailLength(v) > 0 {
      var ok, val;
      ok, val, last := StepTail(buf, text, s, TailLength(v), LeadBits(v));
      assert t[1 + (last - s)..] == text[last + 1..];
      if ok {
        out := UnicodeEscape(val);
      }
    }
  }
}
