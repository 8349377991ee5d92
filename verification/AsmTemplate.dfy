/** Templates of `asm!`: the parser, the printer, and what a template means. */
module AsmTemplate {
  import opened Sequences
  import opened Wrappers
  import Decimal

  /** A placeholder and the text before it.  The modifier is NUL if there is none. */
  datatype Frag = Frag(before: string, index: nat, modifier: char)

  datatype Line = Line(frags: seq<Frag>, trailing: string)

  const NUL := '\0'
  const WORD := 0x1_0000_0000
  const LONG := 0x1_0000_0000_0000_0000

  /** The character `k` places on; the text ends in a NUL, or at one that is in it. */
  function At(t: string, k: nat): char {
    if k < |t| then t[k] else NUL
  }

  // ----- the parser

  /** The length of the part that names a parameter, up to `:` or `}`. */
  function NameLength(t: string): (n: nat)
    ensures n <= |t|
    ensures forall i :: 0 <= i < n ==> t[i] !in {NUL, ':', '}'}
    ensures n < |t| ==> t[n] in {NUL, ':', '}'}
  {
    if t != [] && t[0] !in {NUL, ':', '}'} then 1 + NameLength(t[1..]) else 0
  }

  /** The number at the start of a string; what follows the digits is not looked at. */
  function Leading(t: string, acc: nat): nat {
    if t != [] && Decimal.IsDigit(t[0]) then Leading(t[1..], acc * 10 + Decimal.DigitValue(t[0])) else acc
  }

  /** The index is kept in 32 bits of the 64 that are read. */
  function ReadIndex(name: string): Option<nat> {
    var n := Leading(name, 0);
    if n >= LONG then None else Some(n % WORD)
  }

  datatype Index = Index(at: nat, next: nat)

  /** An empty name takes the next parameter, a number or a name its own. */
  function IndexOf(name: string, next: nat, names: seq<string>): (r: Option<Index>)
    ensures r.Some? ==> r.value.at < |names|
    ensures r.Some? && next <= |names| ==> next <= r.value.next <= |names|
  {
    if name == [] then
      if next >= |names| then None else Some(Index(next, next + 1))
    else if Decimal.IsDigit(name[0]) then
      match ReadIndex(name)
      case None => None
      case Some(i) => if i >= |names| then None else Some(Index(i, next))
    else
      var k := Position(names, name);
      if k == |names| then None else Some(Index(k, next))
  }

  datatype End = End(modifier: char, rest: string)

  /** From the end of the name to after the closing brace: `}`, `:}` or `:` and one character and `}`. */
  function ParseEnd(t: string): (r: Option<End>)
    requires At(t, 0) in {':', '}'}
    ensures r.Some? ==> |r.value.rest| < |t| && r.value.rest == t[|t| - |r.value.rest|..]
  {
    if t[0] == '}' then Some(End(NUL, t[1..]))
    else if At(t, 1) == NUL then None
    else if t[1] == '}' then Some(End(NUL, t[2..]))
    else if At(t, 2) == '}' then Some(End(t[1], t[3..]))
    else None
  }

  datatype Placeholder = Placeholder(index: nat, modifier: char, next: nat, rest: string)

  /** A placeholder, from after its opening brace to after its closing one. */
  function ParsePlaceholder(t: string, next: nat, names: seq<string>): (r: Option<Placeholder>)
    ensures r.Some? ==> |r.value.rest| < |t| && r.value.rest == t[|t| - |r.value.rest|..] && r.value.index < |names|
    ensures r.Some? && next <= |names| ==> next <= r.value.next <= |names|
  {
    var n := NameLength(t);
    if At(t, n) == NUL then None
    else
      match IndexOf(t[..n], next, names)
      case None => None
      case Some(i) =>
        match ParseEnd(t[n..])
        case None => None
        case Some(e) => Some(Placeholder(i.at, e.modifier, i.next, e.rest))
  }

  datatype Parsed = Parsed(line: Line, next: nat)

  function ParseLine(t: string, cur: string, frags: seq<Frag>, next: nat, names: seq<string>): Option<Parsed>
    decreases |t|
  {
    if At(t, 0) == NUL then Some(Parsed(Line(frags, cur), next))
    else if t[0] == '}' then
      if At(t, 1) == '}' then ParseLine(t[2..], cur + "}", frags, next, names) else None
    else if t[0] == '{' then
      if At(t, 1) == '{' then ParseLine(t[2..], cur + "{", frags, next, names)
      else
        match ParsePlaceholder(t[1..], next, names)
        case None => None
        case Some(p) => ParseLine(p.rest, [], frags + [Frag(cur, p.index, p.modifier)], p.next, names)
    else ParseLine(t[1..], cur + [t[0]], frags, next, names)
  }

  /** All lines; the count of parameters taken in order goes on from line to line. */
  function ParseLines(ts: seq<string>, lines: seq<Line>, next: nat, names: seq<string>): Option<seq<Line>>
    decreases |ts|
  {
    if ts == [] then Some(lines)
    else
      match ParseLine(ts[0], [], [], next, names)
      case None => None
      case Some(p) => ParseLines(ts[1..], lines + [p.line], p.next, names)
  }

  // ----- templates as they are written, and what they mean

  datatype Ref = Next | Number(n: nat) | Name(name: string)

  datatype Slot = Slot(before: string, ref: Ref, modifier: char)

  datatype Template = Template(slots: seq<Slot>, trailing: string)

  function Escape(t: string): string {
    if t == [] then []
    else (if t[0] == '{' then "{{" else if t[0] == '}' then "}}" else [t[0]]) + Escape(t[1..])
  }

  function RefText(r: Ref): string {
    match r
    case Next => ""
    case Number(n) => Decimal.Render(n)
    case Name(name) => name
  }

  function EndText(modifier: char): string {
    if modifier == NUL then "}" else [':', modifier, '}']
  }

  function SlotText(s: Slot): string {
    RefText(s.ref) + EndText(s.modifier)
  }

  function Write(slots: seq<Slot>, trailing: string): string {
    if slots == [] then Escape(trailing)
    else Escape(slots[0].before) + ("{" + (SlotText(slots[0]) + Write(slots[1..], trailing)))
  }

  predicate NoNul(t: string) {
    forall i :: 0 <= i < |t| ==> t[i] != NUL
  }

  predicate CanonicalSlot(s: Slot) {
    && NoNul(s.before) && s.modifier != '}'
    && match s.ref
       case Next => true
       case Number(n) => n <= 0xFFFF_FFFF
       case Name(name) =>
         && name != [] && name[0] != '{' && !Decimal.IsDigit(name[0])
         && forall i :: 0 <= i < |name| ==> name[i] !in {NUL, ':', '}'}
  }

  ghost predicate Canonical(slots: seq<Slot>, trailing: string) {
    NoNul(trailing) && forall i :: 0 <= i < |slots| ==> CanonicalSlot(slots[i])
  }

  function RefIndex(r: Ref, next: nat, names: seq<string>): Option<Index> {
    match r
    case Next => if next >= |names| then None else Some(Index(next, next + 1))
    case Number(n) => if n >= |names| then None else Some(Index(n, next))
    case Name(name) => var k := Position(names, name); if k == |names| then None else Some(Index(k, next))
  }

  function Mean(slots: seq<Slot>, trailing: string, frags: seq<Frag>, next: nat, names: seq<string>): Option<Parsed>
    decreases |slots|
  {
    if slots == [] then Some(Parsed(Line(frags, trailing), next))
    else
      match RefIndex(slots[0].ref, next, names)
      case None => None
      case Some(i) => Mean(slots[1..], trailing, frags + [Frag(slots[0].before, i.at, slots[0].modifier)], i.next, names)
  }

  lemma {:induction false} NameRead(name: string, u: string)
    requires (forall i :: 0 <= i < |name| ==> name[i] !in {NUL, ':', '}'}) && At(u, 0) in {NUL, ':', '}'}
    ensures NameLength(name + u) == |name| && (name + u)[..|name|] == name
    decreases name
  {
    if name == [] {
      assert name + u == u;
    } else {
      NameRead(name[1..], u);
      assert (name + u)[1..] == name[1..] + u;
    }
  }

  lemma {:induction false} LeadingDigits(s: string, u: string, acc: nat)
    requires Decimal.AllDigits(s) && (u != [] ==> !Decimal.IsDigit(u[0]))
    ensures Leading(s + u, acc) == Decimal.Read(acc, s)
    decreases s
  {
    if s == [] {
      assert s + u == u;
    } else {
      LeadingDigits(s[1..], u, acc * 10 + Decimal.DigitValue(s[0]));
      assert (s + u)[1..] == s[1..] + u;
    }
  }

  /** Any number at all: beyond 64 bits it is an error, and below it is accepted by what is left of it in 32.  What
      comes after the digits does not matter. */
  lemma NumberAccepted(n: nat, u: string, next: nat, names: seq<string>)
    requires u != [] ==> !('0' <= u[0] <= '9')
    ensures
      var low := n % 0x1_0000_0000;
      IndexOf(Decimal.Render(n) + u, next, names) ==
      if n < 0x1_0000_0000_0000_0000 && low < |names| then Some(Index(low, next)) else None
  {
    Decimal.ReadRender(n);
    LeadingDigits(Decimal.Render(n), u, 0);
    assert (Decimal.Render(n) + u)[0] == Decimal.Render(n)[0];
  }

  lemma NumberRead(n: nat, next: nat, names: seq<string>)
    requires n <= 0xFFFF_FFFF
    ensures IndexOf(Decimal.Render(n), next, names) == RefIndex(Number(n), next, names)
  {
    NumberAccepted(n, "", next, names);
    assert Decimal.Render(n) + "" == Decimal.Render(n);
  }

  lemma RefRead(r: Ref, next: nat, names: seq<string>)
    requires CanonicalSlot(Slot("", r, NUL))
    ensures IndexOf(RefText(r), next, names) == RefIndex(r, next, names)
    ensures forall i :: 0 <= i < |RefText(r)| ==> RefText(r)[i] !in {NUL, ':', '}'}
    ensures At(RefText(r), 0) != '{'
  {
    if r.Number? {
      NumberRead(r.n, next, names);
    }
  }

  /** A placeholder is read back, and what follows it is left. */
  lemma SlotRead(s: Slot, next: nat, names: seq<string>, u: string)
    requires CanonicalSlot(s)
    ensures
      var i := RefIndex(s.ref, next, names);
      && ParsePlaceholder(SlotText(s) + u, next, names) ==
         (if i.None? then None else Some(Placeholder(i.value.at, s.modifier, i.value.next, u)))
      && At(SlotText(s) + u, 0) != '{'
  {
    var name, end := RefText(s.ref), EndText(s.modifier);
    RefRead(s.ref, next, names);
    Assoc(name, end, u);
    EndRead(s.modifier, u);
    NameRead(name, end + u);
    assert (name + (end + u))[|name|..] == end + u;
    assert At(name + (end + u), |name|) == At(end + u, 0);
  }

  lemma EndRead(modifier: char, u: string)
    requires modifier != '}'
    ensures At(EndText(modifier) + u, 0) in {':', '}'} && ParseEnd(EndText(modifier) + u) == Some(End(modifier, u))
  {
    var t := EndText(modifier) + u;
    if modifier == NUL {
      assert t[0] == '}' && t[1..] == u;
    } else {
      assert t[0] == ':' && t[1] == modifier && t[2] == '}' && t[3..] == u;
    }
  }

  lemma {:induction false} TextRead(text: string, u: string, cur: string, frags: seq<Frag>, next: nat, names: seq<string>)
    requires NoNul(text)
    ensures ParseLine(Escape(text) + u, cur, frags, next, names) == ParseLine(u, cur + text, frags, next, names)
    decreases text
  {
    if text == [] {
      assert Escape(text) + u == u && cur + text == cur;
    } else {
      var c, rest := text[0], Escape(text[1..]) + u;
      TextRead(text[1..], u, cur + [c], frags, next, names);
      assert cur + [c] + text[1..] == cur + text;
      var first := if c == '{' then "{{" else if c == '}' then "}}" else [c];
      Assoc(first, Escape(text[1..]), u);
      assert (first + rest)[|first|..] == rest;
      FirstChar(c, first, rest);
    }
  }

  lemma FirstChar(c: char, first: string, rest: string)
    requires first == if c == '{' then "{{" else if c == '}' then "}}" else [c]
    ensures At(first + rest, 0) == c && (c == '{' || c == '}' ==> At(first + rest, 1) == c)
  {
  }

  /** Any template that is written out means, to the parser, what it means. */
  lemma {:induction false} WrittenMeans(slots: seq<Slot>, trailing: string, frags: seq<Frag>, next: nat, names: seq<string>)
    requires Canonical(slots, trailing)
    ensures ParseLine(Write(slots, trailing), [], frags, next, names) == Mean(slots, trailing, frags, next, names)
    decreases |slots|
  {
    if slots == [] {
      TextRead(trailing, "", [], frags, next, names);
      assert Escape(trailing) + "" == Escape(trailing) && [] + trailing == trailing;
    } else {
      var s, u := slots[0], Write(slots[1..], trailing);
      assert CanonicalSlot(s);
      var t := SlotText(s) + u;
      TextRead(s.before, "{" + t, [], frags, next, names);
      assert [] + s.before == s.before;
      SlotRead(s, next, names, u);
      assert ("{" + t)[1..] == t && At("{" + t, 1) == At(t, 0);
      var i := RefIndex(s.ref, next, names);
      if i.Some? {
        WrittenMeans(slots[1..], trailing, frags + [Frag(s.before, i.value.at, s.modifier)], i.value.next, names);
      }
    }
  }

  // ----- numbering

  function NextCount(slots: seq<Slot>): nat {
    if slots == [] then 0 else (if slots[0].ref.Next? then 1 else 0) + NextCount(slots[1..])
  }

  /** Empty placeholders take the parameters in order, from the number that the line starts with. */
  lemma {:induction false} EmptyInOrder(slots: seq<Slot>, trailing: string, frags: seq<Frag>, next: nat, names: seq<string>, j: nat)
    requires j <= |slots| && next <= |names|
    ensures
      var r := Mean(slots, trailing, frags, next, names);
      r.Some? ==>
        && r.value.next == next + NextCount(slots) <= |names|
        && |r.value.line.frags| == |frags| + |slots| && frags <= r.value.line.frags
        && (j < |slots| ==> r.value.line.frags[|frags| + j].index < |names|)
        && (j < |slots| && slots[j].ref.Next? ==> r.value.line.frags[|frags| + j].index == next + NextCount(slots[..j]))
    decreases |slots|
  {
    if slots != [] {
      var i := RefIndex(slots[0].ref, next, names);
      if i.Some? {
        var f := Frag(slots[0].before, i.value.at, slots[0].modifier);
        EmptyInOrder(slots[1..], trailing, frags + [f], i.value.next, names, if j > 0 then j - 1 else 0);
        assert (frags + [f])[|frags|] == f;
        if j > 0 {
          assert slots[..j][1..] == slots[1..][..j - 1];
        }
      }
    }
  }

  /** Lines as they are written: each starts with the number at which the one before stopped. */
  function MeanLines(ts: seq<Template>, lines: seq<Line>, next: nat, names: seq<string>): Option<seq<Line>>
    decreases |ts|
  {
    if ts == [] then Some(lines)
    else
      match Mean(ts[0].slots, ts[0].trailing, [], next, names)
      case None => None
      case Some(p) => MeanLines(ts[1..], lines + [p.line], next + NextCount(ts[0].slots), names)
  }

  function WriteAll(ts: seq<Template>): (r: seq<string>)
    ensures |r| == |ts|
  {
    if ts == [] then [] else [Write(ts[0].slots, ts[0].trailing)] + WriteAll(ts[1..])
  }

  ghost predicate CanonicalAll(ts: seq<Template>) {
    ts == [] || (Canonical(ts[0].slots, ts[0].trailing) && CanonicalAll(ts[1..]))
  }

  lemma LineMeans(t: Template, next: nat, names: seq<string>)
    requires next <= |names| && Canonical(t.slots, t.trailing)
    ensures
      var r := Mean(t.slots, t.trailing, [], next, names);
      && ParseLine(Write(t.slots, t.trailing), [], [], next, names) == r
      && (r.Some? ==> r.value.next == next + NextCount(t.slots) <= |names|)
  {
    WrittenMeans(t.slots, t.trailing, [], next, names);
    EmptyInOrder(t.slots, t.trailing, [], next, names, 0);
  }

  /** The lines of one `asm!` are numbered through. */
  lemma {:induction false} LinesMean(ts: seq<Template>, lines: seq<Line>, next: nat, names: seq<string>)
    requires next <= |names| && CanonicalAll(ts)
    ensures ParseLines(WriteAll(ts), lines, next, names) == MeanLines(ts, lines, next, names)
    decreases |ts|
  {
    if ts != [] {
      var t := ts[0];
      LineMeans(t, next, names);
      var all := WriteAll(ts);
      assert all[0] == Write(t.slots, t.trailing) && all[1..] == WriteAll(ts[1..]);
      var r := Mean(t.slots, t.trailing, [], next, names);
      if r.Some? {
        LinesMean(ts[1..], lines + [r.value.line], next + NextCount(t.slots), names);
      }
    }
  }

  ghost predicate IndexesBelow(frags: seq<Frag>, n: nat) {
    forall i :: 0 <= i < |frags| ==> frags[i].index < n
  }

  /** On any text, every index that is accepted is that of a parameter. */
  lemma {:induction false} IndexesInRange(t: string, cur: string, frags: seq<Frag>, next: nat, names: seq<string>)
    requires next <= |names| && IndexesBelow(frags, |names|)
    ensures
      var r := ParseLine(t, cur, frags, next, names);
      r.Some? ==> IndexesBelow(r.value.line.frags, |names|) && next <= r.value.next <= |names|
    decreases |t|
  {
    if At(t, 0) != NUL {
      if t[0] == '}' {
        if At(t, 1) == '}' {
          IndexesInRange(t[2..], cur + "}", frags, next, names);
        }
      } else if t[0] == '{' {
        if At(t, 1) == '{' {
          IndexesInRange(t[2..], cur + "{", frags, next, names);
        } else {
          var p := ParsePlaceholder(t[1..], next, names);
          if p.Some? {
            IndexesInRange(p.value.rest, [], frags + [Frag(cur, p.value.index, p.value.modifier)], p.value.next, names);
          }
        }
      } else {
        IndexesInRange(t[1..], cur + [t[0]], frags, next, names);
      }
    }
  }

  ghost predicate LinesBelow(lines: seq<Line>, n: nat) {
    forall i :: 0 <= i < |lines| ==> IndexesBelow(lines[i].frags, n)
  }

  /** The same of all lines of one `asm!`, whatever their texts; the count of parameters goes on between them. */
  lemma {:induction false} AllIndexesInRange(ts: seq<string>, lines: seq<Line>, next: nat, names: seq<string>)
    requires next <= |names| && LinesBelow(lines, |names|)
    ensures
      var r := ParseLines(ts, lines, next, names);
      r.Some? ==> |r.value| == |lines| + |ts| && LinesBelow(r.value, |names|)
    decreases |ts|
  {
    if ts != [] {
      IndexesInRange(ts[0], [], [], next, names);
      var p := ParseLine(ts[0], [], [], next, names);
      if p.Some? {
        AllIndexesInRange(ts[1..], lines + [p.value.line], p.value.next, names);
      }
    }
  }

  // ----- the printer

  predicate IsPrintable(c: char) {
    ' ' <= c <= '~'
  }

  function HexDigit(d: nat): char
    requires d < 16
  {
    "0123456789ABCDEF"[d]
  }

  /** One character of text as it is printed: only the opening brace is doubled. */
  function PrintChar(c: char): string
    requires c as int < 0x80
  {
    if c == '{' then "{{"
    else if c == '\\' then "\\\\"
    else if c == '"' then "\\\""
    else if IsPrintable(c) then [c]
    else "\\x" + [HexDigit(c as int / 16), HexDigit(c as int % 16)]
  }

  /** The control characters that text is likely to hold. */
  lemma ControlForms()
    ensures PrintChar('\n') == "\\x0A" && PrintChar('\t') == "\\x09" && PrintChar('\r') == "\\x0D"
    ensures PrintChar('\0') == "\\x00" && PrintChar('\U{7F}') == "\\x7F"
  {
  }

  predicate Ascii(t: string) {
    forall i :: 0 <= i < |t| ==> t[i] as int < 0x80
  }

  function PrintText(t: string): string
    requires Ascii(t)
  {
    if t == [] then [] else PrintChar(t[0]) + PrintText(t[1..])
  }

  function PrintSlot(f: Frag): string {
    "{" + (Decimal.Render(f.index) + EndText(f.modifier))
  }

  predicate AsciiFrags(frags: seq<Frag>) {
    forall i :: 0 <= i < |frags| ==> Ascii(frags[i].before)
  }

  /** A line, without the quotes around it. */
  function PrintLine(frags: seq<Frag>, trailing: string): string
    requires AsciiFrags(frags) && Ascii(trailing)
  {
    if frags == [] then PrintText(trailing)
    else PrintText(frags[0].before) + (PrintSlot(frags[0]) + PrintLine(frags[1..], trailing))
  }

  /** Text with its opening braces doubled, and no more. */
  function Doubled(t: string): string {
    if t == [] then [] else (if t[0] == '{' then "{{" else [t[0]]) + Doubled(t[1..])
  }

  function DoubledLine(frags: seq<Frag>, trailing: string): string {
    if frags == [] then Doubled(trailing)
    else Doubled(frags[0].before) + (PrintSlot(frags[0]) + DoubledLine(frags[1..], trailing))
  }

  /** Text that is printed as it is, but for its opening braces. */
  predicate IsSimple(t: string) {
    forall i :: 0 <= i < |t| ==> ' ' <= t[i] <= '~' && t[i] != '\\' && t[i] != '"'
  }

  ghost predicate SimpleLine(l: Line) {
    IsSimple(l.trailing) && forall i :: 0 <= i < |l.frags| ==> IsSimple(l.frags[i].before)
  }

  /** The indexes are those of parameters, and the modifiers such as the parser takes. */
  ghost predicate ValidFrags(frags: seq<Frag>, n: nat) {
    forall i :: 0 <= i < |frags| ==> frags[i].index < n && frags[i].index <= 0xFFFF_FFFF && frags[i].modifier != '}'
  }

  predicate NoClosingBrace(t: string) {
    forall i :: 0 <= i < |t| ==> t[i] != '}'
  }

  ghost predicate NoClosingBraces(frags: seq<Frag>, trailing: string) {
    NoClosingBrace(trailing) && forall i :: 0 <= i < |frags| ==> NoClosingBrace(frags[i].before)
  }

  ghost predicate NoNulFrags(frags: seq<Frag>) {
    forall i :: 0 <= i < |frags| ==> NoNul(frags[i].before)
  }

  lemma {:induction false} DoubledText(t: string)
    requires NoClosingBrace(t)
    ensures Doubled(t) == Escape(t)
    decreases t
  {
    if t != [] {
      DoubledText(t[1..]);
    }
  }

  function SlotsOf(frags: seq<Frag>): (r: seq<Slot>)
    ensures |r| == |frags|
  {
    if frags == [] then [] else [Slot(frags[0].before, Number(frags[0].index), frags[0].modifier)] + SlotsOf(frags[1..])
  }

  lemma {:induction false} SlotsOfAt(frags: seq<Frag>, i: nat)
    requires i < |frags|
    ensures SlotsOf(frags)[i] == Slot(frags[i].before, Number(frags[i].index), frags[i].modifier)
    decreases frags
  {
    if i > 0 {
      SlotsOfAt(frags[1..], i - 1);
    }
  }

  lemma {:induction false} DoubledIsWritten(frags: seq<Frag>, trailing: string)
    requires NoClosingBraces(frags, trailing)
    ensures DoubledLine(frags, trailing) == Write(SlotsOf(frags), trailing)
    decreases frags
  {
    DoubledText(trailing);
    if frags != [] {
      assert NoClosingBrace(frags[0].before);
      DoubledText(frags[0].before);
      DoubledIsWritten(frags[1..], trailing);
      assert SlotsOf(frags)[1..] == SlotsOf(frags[1..]);
      Assoc("{", SlotText(SlotsOf(frags)[0]), DoubledLine(frags[1..], trailing));
    }
  }

  lemma {:induction false} NumbersMeanThemselves(frags: seq<Frag>, trailing: string, done: seq<Frag>, next: nat, names: seq<string>)
    requires ValidFrags(frags, |names|)
    ensures Mean(SlotsOf(frags), trailing, done, next, names) == Some(Parsed(Line(done + frags, trailing), next))
    decreases frags
  {
    if frags == [] {
      assert done + frags == done;
    } else {
      NumbersMeanThemselves(frags[1..], trailing, done + [frags[0]], next, names);
      assert SlotsOf(frags)[1..] == SlotsOf(frags[1..]);
      assert done + [frags[0]] + frags[1..] == done + frags;
    }
  }

  lemma SlotsCanonical(frags: seq<Frag>, trailing: string, n: nat)
    requires NoNul(trailing) && NoNulFrags(frags) && ValidFrags(frags, n)
    ensures Canonical(SlotsOf(frags), trailing)
  {
    forall i | 0 <= i < |frags| ensures CanonicalSlot(SlotsOf(frags)[i]) {
      SlotsOfAt(frags, i);
      assert NoNul(frags[i].before);
    }
  }

  // How the braces add up

  function Braces(t: string): nat {
    if t == [] then 0 else (if t[0] == '}' then 1 else 0) + Braces(t[1..])
  }

  function FragBraces(frags: seq<Frag>): nat {
    if frags == [] then 0 else FragBraces(frags[..|frags| - 1]) + Braces(frags[|frags| - 1].before)
  }

  lemma {:induction false} BracesConcat(a: string, b: string)
    ensures Braces(a + b) == Braces(a) + Braces(b)
    decreases a
  {
    if a == [] {
      assert a + b == b;
    } else {
      BracesConcat(a[1..], b);
      assert (a + b)[1..] == a[1..] + b;
    }
  }

  lemma FragBracesSnoc(frags: seq<Frag>, f: Frag)
    ensures FragBraces(frags + [f]) == FragBraces(frags) + Braces(f.before)
  {
    assert (frags + [f])[..|frags|] == frags;
  }

  lemma {:induction false} NoBraces(t: string)
    ensures Braces(t) == 0 <==> NoClosingBrace(t)
    decreases t
  {
    if t != [] {
      NoBraces(t[1..]);
      assert t == [t[0]] + t[1..];
    }
  }

  /** A placeholder takes one closing brace. */
  lemma PlaceholderBrace(t: string, next: nat, names: seq<string>)
    ensures
      var p := ParsePlaceholder(t, next, names);
      p.Some? ==> Braces(t) == Braces(p.value.rest) + 1
  {
    if ParsePlaceholder(t, next, names).Some? {
      var n := NameLength(t);
      NoBraces(t[..n]);
      BracesConcat(t[..n], t[n..]);
      assert t == t[..n] + t[n..];
      EndBrace(t[n..]);
    }
  }

  lemma EndBrace(t: string)
    requires At(t, 0) in {':', '}'} && ParseEnd(t).Some?
    ensures Braces(t) == Braces(ParseEnd(t).value.rest) + 1
  {
    var rest := ParseEnd(t).value.rest;
    var k := |t| - |rest|;
    assert t == t[..k] + rest;
    BracesConcat(t[..k], rest);
    BracesUpTo(t[..k]);
  }

  lemma BracesUpTo(t: string)
    requires 1 <= |t| <= 3 && t[|t| - 1] == '}' && forall i :: 0 <= i < |t| - 1 ==> t[i] != '}'
    ensures Braces(t) == 1
  {
    NoBraces(t[..|t| - 1]);
    BracesConcat(t[..|t| - 1], [t[|t| - 1]]);
    assert t == t[..|t| - 1] + [t[|t| - 1]];
    assert [t[|t| - 1]][1..] == [];
  }

  /** A closing brace of text takes two in a template, and a placeholder takes one. */
  lemma {:induction false} BracesAddUp(t: string, cur: string, frags: seq<Frag>, next: nat, names: seq<string>)
    requires NoNul(t)
    ensures
      var r := ParseLine(t, cur, frags, next, names);
      r.Some? ==>
        Braces(t) + 2 * (Braces(cur) + FragBraces(frags)) + |frags|
        == 2 * (Braces(r.value.line.trailing) + FragBraces(r.value.line.frags)) + |r.value.line.frags|
    decreases |t|
  {
    if t != [] {
      BracesConcat(cur, [t[0]]);
      assert [t[0]][1..] == [];
      assert t[1..] != [] ==> t[1..][0] == t[1] && t[1..][1..] == t[2..];
      if t[0] == '}' {
        if At(t, 1) == '}' {
          BracesAddUp(t[2..], cur + "}", frags, next, names);
        }
      } else if t[0] == '{' {
        if At(t, 1) == '{' {
          BracesAddUp(t[2..], cur + "{", frags, next, names);
        } else {
          var p := ParsePlaceholder(t[1..], next, names);
          if p.Some? {
            PlaceholderBrace(t[1..], next, names);
            var f := Frag(cur, p.value.index, p.value.modifier);
            FragBracesSnoc(frags, f);
            BracesAddUp(p.value.rest, [], frags + [f], p.value.next, names);
          }
        }
      } else {
        BracesAddUp(t[1..], cur + [t[0]], frags, next, names);
      }
    }
  }

  lemma {:induction false} DoubledBraces(t: string)
    requires NoNul(t)
    ensures Braces(Doubled(t)) == Braces(t) && NoNul(Doubled(t))
    decreases t
  {
    if t != [] {
      DoubledBraces(t[1..]);
      var first := if t[0] == '{' then "{{" else [t[0]];
      BracesConcat(first, Doubled(t[1..]));
      if t[0] == '}' {
        assert "}"[1..] == "";
      } else {
        NoBraces(first);
      }
    }
  }

  lemma SlotBraces(f: Frag)
    requires f.modifier != '}'
    ensures Braces(PrintSlot(f)) == 1 && NoNul(PrintSlot(f))
  {
    var digits, end := Decimal.Render(f.index), EndText(f.modifier);
    BracesConcat("{", digits + end);
    BracesConcat(digits, end);
    NoBraces("{");
    NoBraces(digits);
    BracesUpTo(end);
  }

  lemma {:induction false} LineBraces(frags: seq<Frag>, trailing: string, n: nat)
    requires NoNulFrags(frags) && NoNul(trailing) && ValidFrags(frags, n)
    ensures Braces(DoubledLine(frags, trailing)) == FragBracesFrom(frags) + Braces(trailing) + |frags|
    ensures NoNul(DoubledLine(frags, trailing))
    decreases frags
  {
    DoubledBraces(trailing);
    if frags != [] {
      var f := frags[0];
      assert NoNul(f.before);
      DoubledBraces(f.before);
      SlotBraces(f);
      LineBraces(frags[1..], trailing, n);
      BracesConcat(Doubled(f.before), PrintSlot(f) + DoubledLine(frags[1..], trailing));
      BracesConcat(PrintSlot(f), DoubledLine(frags[1..], trailing));
    }
  }

  function FragBracesFrom(frags: seq<Frag>): nat {
    if frags == [] then 0 else Braces(frags[0].before) + FragBracesFrom(frags[1..])
  }

  lemma {:induction false} FragBracesSame(done: seq<Frag>, frags: seq<Frag>)
    ensures FragBraces(done + frags) == FragBraces(done) + FragBracesFrom(frags)
    decreases frags
  {
    if frags == [] {
      assert done + frags == done;
    } else {
      FragBracesSame(done + [frags[0]], frags[1..]);
      FragBracesSnoc(done, frags[0]);
      assert done + frags == done + [frags[0]] + frags[1..];
    }
  }

  lemma {:induction false} FragsWithoutBraces(frags: seq<Frag>)
    ensures FragBracesFrom(frags) == 0 <==> forall i :: 0 <= i < |frags| ==> NoClosingBrace(frags[i].before)
    decreases frags
  {
    if frags != [] {
      FragsWithoutBraces(frags[1..]);
      NoBraces(frags[0].before);
      assert forall i :: 0 < i < |frags| ==> frags[i] == frags[1..][i - 1];
    }
  }

  /** No text that is read holds a NUL. */
  lemma {:induction false} TextsHaveNoNul(t: string, cur: string, frags: seq<Frag>, next: nat, names: seq<string>)
    requires NoNul(cur) && NoNulFrags(frags)
    ensures
      var r := ParseLine(t, cur, frags, next, names);
      r.Some? ==> NoNul(r.value.line.trailing) && NoNulFrags(r.value.line.frags)
    decreases |t|
  {
    if At(t, 0) != NUL {
      if t[0] == '}' {
        if At(t, 1) == '}' {
          TextsHaveNoNul(t[2..], cur + "}", frags, next, names);
        }
      } else if t[0] == '{' {
        if At(t, 1) == '{' {
          TextsHaveNoNul(t[2..], cur + "{", frags, next, names);
        } else {
          var p := ParsePlaceholder(t[1..], next, names);
          if p.Some? {
            TextsHaveNoNul(p.value.rest, [], frags + [Frag(cur, p.value.index, p.value.modifier)], p.value.next, names);
          }
        }
      } else {
        TextsHaveNoNul(t[1..], cur + [t[0]], frags, next, names);
      }
    }
  }

  /** With its opening braces doubled, a line is read back as it was exactly if no closing brace and no NUL is in
      its text. */
  lemma DoubledReadBack(l: Line, next: nat, names: seq<string>)
    requires ValidFrags(l.frags, |names|)
    ensures
      ParseLine(DoubledLine(l.frags, l.trailing), [], [], next, names) == Some(Parsed(l, next))
      <==> NoClosingBraces(l.frags, l.trailing) && NoNul(l.trailing) && NoNulFrags(l.frags)
  {
    TextsHaveNoNul(DoubledLine(l.frags, l.trailing), [], [], next, names);
    if NoNul(l.trailing) && NoNulFrags(l.frags) {
      assert [] + l.frags == l.frags;
      if NoClosingBraces(l.frags, l.trailing) {
        DoubledIsWritten(l.frags, l.trailing);
        SlotsCanonical(l.frags, l.trailing, |names|);
        WrittenMeans(SlotsOf(l.frags), l.trailing, [], next, names);
        NumbersMeanThemselves(l.frags, l.trailing, [], next, names);
      } else {
        LineBraces(l.frags, l.trailing, |names|);
        BracesAddUp(DoubledLine(l.frags, l.trailing), [], [], next, names);
        FragBracesSame([], l.frags);
        FragsWithoutBraces(l.frags);
        NoBraces(l.trailing);
      }
    }
  }

  // ----- a printed line as the literal that it is

  function Prepend(a: string, t: Option<string>): Option<string> {
    if t.Some? then Some(a + t.value) else None
  }

  function HexValue(c: char): (d: nat)
    ensures d <= 16
  {
    if '0' <= c <= '9' then c as int - '0' as int
    else if 'A' <= c <= 'F' then c as int - 'A' as int + 10
    else if 'a' <= c <= 'f' then c as int - 'a' as int + 10
    else 16
  }

  /** What a string literal stands for, read between its quotes. */
  function LiteralRead(t: string): Option<string>
    decreases |t|
  {
    if t == [] then Some([])
    else if t[0] == '"' then None
    else if t[0] != '\\' then Prepend([t[0]], LiteralRead(t[1..]))
    else if |t| >= 2 && (t[1] == '\\' || t[1] == '"') then Prepend([t[1]], LiteralRead(t[2..]))
    else if |t| >= 4 && t[1] == 'x' && HexValue(t[2]) < 8 && HexValue(t[3]) < 16 then
      Prepend([(HexValue(t[2]) * 16 + HexValue(t[3])) as char], LiteralRead(t[4..]))
    else None
  }

  lemma PrependTwice(a: string, b: string, t: Option<string>)
    ensures Prepend(a, Prepend(b, t)) == Prepend(a + b, t)
  {
    if t.Some? {
      Assoc(a, b, t.value);
    }
  }

  lemma HexRead(d: nat)
    requires d < 16
    ensures HexValue(HexDigit(d)) == d
  {
  }

  lemma CharLiteral(c: char, u: string)
    requires c as int < 0x80
    ensures LiteralRead(PrintChar(c) + u) == Prepend(if c == '{' then "{{" else [c], LiteralRead(u))
  {
    var t := PrintChar(c) + u;
    if c == '{' {
      assert t[1..] == "{" + u && ("{" + u)[1..] == u;
      PrependTwice("{", "{", LiteralRead(u));
      assert "{" + "{" == "{{" && [t[0]] == "{";
    } else if c == '\\' || c == '"' {
      assert t[2..] == u;
    } else if IsPrintable(c) {
      assert t[1..] == u;
    } else {
      HexRead(c as int / 16);
      HexRead(c as int % 16);
      assert t[4..] == u;
    }
  }

  lemma {:induction false} TextLiteral(t: string, u: string)
    requires Ascii(t)
    ensures LiteralRead(PrintText(t) + u) == Prepend(Doubled(t), LiteralRead(u))
    decreases t
  {
    if t == [] {
      assert PrintText(t) + u == u;
      assert LiteralRead(u).Some? ==> [] + LiteralRead(u).value == LiteralRead(u).value;
    } else {
      TextLiteral(t[1..], u);
      CharLiteral(t[0], PrintText(t[1..]) + u);
      Assoc(PrintChar(t[0]), PrintText(t[1..]), u);
      PrependTwice(if t[0] == '{' then "{{" else [t[0]], Doubled(t[1..]), LiteralRead(u));
    }
  }

  lemma {:induction false} PlainLiteral(t: string, u: string)
    requires forall i :: 0 <= i < |t| ==> t[i] != '\\' && t[i] != '"'
    ensures LiteralRead(t + u) == Prepend(t, LiteralRead(u))
    decreases t
  {
    if t == [] {
      assert t + u == u;
      assert LiteralRead(u).Some? ==> [] + LiteralRead(u).value == LiteralRead(u).value;
    } else {
      PlainLiteral(t[1..], u);
      assert (t + u)[1..] == t[1..] + u;
      assert t == [t[0]] + t[1..];
      PrependTwice([t[0]], t[1..], LiteralRead(u));
    }
  }

  predicate PlainModifier(f: Frag) {
    f.modifier != '\\' && f.modifier != '"'
  }

  /** A modifier is printed as it is, so a backslash or a quote spoils the literal. */
  lemma SlotLiteral(f: Frag, u: string)
    ensures LiteralRead(PrintSlot(f) + u) == if PlainModifier(f) then Prepend(PrintSlot(f), LiteralRead(u)) else None
  {
    if PlainModifier(f) {
      assert forall i :: 0 <= i < |Decimal.Render(f.index)| ==> Decimal.IsDigit(Decimal.Render(f.index)[i]);
      PlainLiteral(PrintSlot(f), u);
    } else {
      var start, end := "{" + Decimal.Render(f.index) + ":", [f.modifier, '}'] + u;
      PlainLiteral(start, end);
      assert end[0] == f.modifier && end[1] == '}';
      if f.modifier == '"' {
        assert LiteralRead(end).None?;
      } else {
        assert end[..2] == "\\}" && LiteralRead(end).None?;
      }
      assert PrintSlot(f) + u == start + end;
    }
  }

  ghost predicate PlainModifiers(frags: seq<Frag>) {
    forall i :: 0 <= i < |frags| ==> PlainModifier(frags[i])
  }

  lemma {:induction false} LineLiteral(frags: seq<Frag>, trailing: string)
    requires AsciiFrags(frags) && Ascii(trailing)
    ensures LiteralRead(PrintLine(frags, trailing)) == if PlainModifiers(frags) then Some(DoubledLine(frags, trailing)) else None
    decreases frags
  {
    if frags == [] {
      TextLiteral(trailing, "");
      assert PrintText(trailing) + "" == PrintText(trailing) && Doubled(trailing) + "" == Doubled(trailing);
    } else {
      var f, u := frags[0], PrintLine(frags[1..], trailing);
      LineLiteral(frags[1..], trailing);
      TextLiteral(f.before, PrintSlot(f) + u);
      SlotLiteral(f, u);
      PlainFirst(frags);
    }
  }

  lemma PlainFirst(frags: seq<Frag>)
    requires frags != []
    ensures PlainModifiers(frags) <==> PlainModifier(frags[0]) && PlainModifiers(frags[1..])
  {
    assert forall i :: 0 < i < |frags| ==> frags[i] == frags[1..][i - 1];
  }

  /** A printed line, taken for the string literal that it looks like, and parsed. */
  function ReadBack(t: string, next: nat, names: seq<string>): Option<Parsed> {
    match LiteralRead(t)
    case None => None
    case Some(u) => ParseLine(u, [], [], next, names)
  }

  /** Any line of ASCII text: printed, it is read back as it was exactly if there is no closing brace and no NUL in
      its text, and none of its modifiers is a backslash or a quote. */
  lemma RoundTrip(l: Line, next: nat, names: seq<string>)
    requires ValidFrags(l.frags, |names|) && AsciiFrags(l.frags) && Ascii(l.trailing)
    ensures
      ReadBack(PrintLine(l.frags, l.trailing), next, names) == Some(Parsed(l, next))
      <==> NoClosingBraces(l.frags, l.trailing) && NoNul(l.trailing) && NoNulFrags(l.frags) && PlainModifiers(l.frags)
  {
    LineLiteral(l.frags, l.trailing);
    DoubledReadBack(l, next, names);
  }

  lemma {:induction false} SimpleText(t: string)
    requires IsSimple(t)
    ensures Ascii(t) && PrintText(t) == Doubled(t)
    decreases t
  {
    if t != [] {
      SimpleText(t[1..]);
    }
  }

  lemma {:induction false} SimplePrinted(frags: seq<Frag>, trailing: string)
    requires SimpleLine(Line(frags, trailing)) && AsciiFrags(frags) && Ascii(trailing)
    ensures PrintLine(frags, trailing) == DoubledLine(frags, trailing)
    decreases frags
  {
    SimpleText(trailing);
    if frags != [] {
      assert IsSimple(frags[0].before);
      SimpleText(frags[0].before);
      SimplePrinted(frags[1..], trailing);
    }
  }

  /** Printable text without backslash and quote needs no reading as a literal. */
  lemma SimpleRoundTrip(l: Line, next: nat, names: seq<string>)
    requires SimpleLine(l) && ValidFrags(l.frags, |names|)
    requires AsciiFrags(l.frags) && Ascii(l.trailing)
    ensures ParseLine(PrintLine(l.frags, l.trailing), [], [], next, names) == Some(Parsed(l, next)) <==> NoClosingBraces(l.frags, l.trailing)
  {
    SimplePrinted(l.frags, l.trailing);
    DoubledReadBack(l, next, names);
    forall i | 0 <= i < |l.frags| ensures NoNul(l.frags[i].before) {
      assert IsSimple(l.frags[i].before);
    }
  }

  // ----- the parser and the printer as they run

  class TemplateParser {
    const names: seq<string>
    var nextIndex: nat

    constructor (names: seq<string>)
      ensures this.names == names && nextIndex == 0
    {
      this.names := names;
      nextIndex := 0;
    }

    /** The part that names a parameter, from position `c` on. */
    method ReadName(text: string, c: nat) returns (name: string, end: nat)
      requires c <= |text|
      ensures c <= end <= |text| && end - c == NameLength(text[c..]) && name == text[c..][..NameLength(text[c..])]
    {
      name, end := [], c;
      while At(text, end) !in {NUL, ':', '}'}
        invariant c <= end <= |text| && end - c + NameLength(text[end..]) == NameLength(text[c..])
        invariant name == text[c..end]
        decreases |text| - end
      {
        assert text[end..][1..] == text[end + 1..];
        name := name + [text[end]];
        end := end + 1;
      }
      assert text[c..end] == text[c..][..end - c];
    }

    method FindIndex(name: string) returns (ok: bool, index: nat)
      modifies this
      ensures ok == IndexOf(name, old(nextIndex), names).Some?
      ensures ok ==> IndexOf(name, old(nextIndex), names).value == Index(index, nextIndex)
    {
      ok, index := true, 0;
      if name == [] {
        index := nextIndex;
        if index >= |names| {
          return false, 0;
        }
        nextIndex := nextIndex + 1;
      } else if Decimal.IsDigit(name[0]) {
        var n := ReadIndex(name);
        if n.None? || n.value >= |names| {
          return false, 0;
        }
        index := n.value;
      } else {
        index := Position(names, name);
        ok := index < |names|;
      }
    }

    /** A placeholder, from after its opening brace; `end` is after its closing one. */
    method ReadPlaceholder(text: string, c: nat) returns (ok: bool, index: nat, modifier: char, end: nat)
      requires c <= |text|
      modifies this
      ensures ok == ParsePlaceholder(text[c..], old(nextIndex), names).Some?
      ensures ok ==> c <= end <= |text|
      ensures ok ==> ParsePlaceholder(text[c..], old(nextIndex), names).value == Placeholder(index, modifier, nextIndex, text[end..])
    {
      ok, index, modifier := false, 0, NUL;
      var name;
      name, end := ReadName(text, c);
      assert At(text, end) == At(text[c..], end - c) && text[end..] == text[c..][end - c..];
      if At(text, end) != NUL {
        ok, index := FindIndex(name);
        if ok {
          ok, modifier, end := ReadEnd(text, end);
        }
      }
    }

    method ReadEnd(text: string, c: nat) returns (ok: bool, modifier: char, end: nat)
      requires c <= |text| && At(text, c) in {':', '}'}
      ensures ok == ParseEnd(text[c..]).Some?
      ensures ok ==> c <= end <= |text| && ParseEnd(text[c..]).value == End(modifier, text[end..])
    {
      ghost var t := text[c..];
      assert At(t, 0) == text[c] && At(t, 1) == At(text, c + 1) && At(t, 2) == At(text, c + 2);
      modifier, end := NUL, c;
      if text[end] == ':' {
        end := end + 1;
        if At(text, end) == NUL {
          return false, modifier, end;
        }
        if text[end] != '}' {
          modifier := text[end];
          end := end + 1;
        }
      }
      ok := At(text, end) == '}';
      end := end + 1;
      assert ok ==> text[end..] == t[end - c..];
    }

    method ReadLine(text: string) returns (r: Option<Line>)
      modifies this
      ensures
        var p := ParseLine(text, [], [], old(nextIndex), names);
        (r.Some? <==> p.Some?) && (r.Some? ==> p.value == Parsed(r.value, nextIndex))
    {
      var c, cur, frags := 0, "", [];
      assert text[0..] == text;
      while At(text, c) != NUL
        invariant 0 <= c <= |text|
        invariant ParseLine(text[c..], cur, frags, nextIndex, names) == ParseLine(text, [], [], old(nextIndex), names)
        decreases |text| - c
      {
        ghost var t := text[c..];
        assert t[1..] == text[c + 1..] && (|t| > 1 ==> t[2..] == text[c + 2..]);
        assert At(text, c) == At(t, 0) && At(text, c + 1) == At(t, 1);
        if text[c] == '}' {
          if At(text, c + 1) != '}' {
            return None;
          }
          c := c + 2;
          cur := cur + "}";
        } else if text[c] == '{' {
          if At(text, c + 1) == '{' {
            cur := cur + "{";
            c := c + 2;
          } else {
            var ok, index, modifier, end := ReadPlaceholder(text, c + 1);
            if !ok {
              return None;
            }
            frags := frags + [Frag(cur, index, modifier)];
            cur := "";
            c := end;
          }
        } else {
          cur := cur + [text[c]];
          c := c + 1;
        }
      }
      r := Some(Line(frags, cur));
    }

    method ReadLines(texts: seq<string>) returns (r: Option<seq<Line>>)
      modifies this
      ensures r == ParseLines(texts, [], old(nextIndex), names)
    {
      var lines := [];
      var i := 0;
      assert texts[0..] == texts;
      while i < |texts|
        invariant 0 <= i <= |texts|
        invariant ParseLines(texts[i..], lines, nextIndex, names) == ParseLines(texts, [], old(nextIndex), names)
      {
        assert texts[i..][0] == texts[i] && texts[i..][1..] == texts[i + 1..];
        var line := ReadLine(texts[i]);
        if line.None? {
          return None;
        }
        lines := lines + [line.value];
        i := i + 1;
      }
      r := Some(lines);
    }
  }

  class Output {
    var text: string

    constructor ()
      ensures text == ""
    {
      text := "";
    }

    method Put(s: string)
      modifies this
      ensures text == old(text) + s
    {
      text := text + s;
    }

    method PutChar(c: char)
      requires c as int < 0x80
      modifies this
      ensures text == old(text) + PrintChar(c)
    {
      var hex := "0123456789ABCDEF";
      if c == '{' {
        Put("{{");
      } else if c == '\\' {
        Put("\\\\");
      } else if c == '"' {
        Put("\\\"");
      } else if IsPrintable(c) {
        Put([c]);
      } else {
        Put("\\x" + [hex[c as int / 16], hex[c as int % 16]]);
      }
    }

    method PutText(s: string)
      requires Ascii(s)
      modifies this
      ensures text == old(text) + PrintText(s)
    {
      var i := 0;
      assert s[0..] == s;
      while i < |s|
        invariant 0 <= i <= |s|
        invariant text + PrintText(s[i..]) == old(text) + PrintText(s)
      {
        assert s[i..][1..] == s[i + 1..];
        Assoc(text, PrintChar(s[i]), PrintText(s[i + 1..]));
        PutChar(s[i]);
        i := i + 1;
      }
      assert text + [] == text;
    }

    method PutSlot(f: Frag)
      modifies this
      ensures text == old(text) + PrintSlot(f)
    {
      Put("{");
      Put(Decimal.Render(f.index));
      if f.modifier != NUL {
        Put(":");
        Put([f.modifier]);
      }
      Put("}");
      assert ":" + [f.modifier] + "}" == [':', f.modifier, '}'];
    }

    method PutLine(l: Line)
      requires AsciiFrags(l.frags) && Ascii(l.trailing)
      modifies this
      ensures text == old(text) + "\"" + PrintLine(l.frags, l.trailing) + "\""
    {
      Put("\"");
      ghost var start := text;
      var i := 0;
      assert l.frags[0..] == l.frags;
      while i < |l.frags|
        invariant 0 <= i <= |l.frags|
        invariant text + PrintLine(l.frags[i..], l.trailing) == start + PrintLine(l.frags, l.trailing)
      {
        var f := l.frags[i];
        LineStep(l.frags, i, l.trailing);
        ghost var before, rest := text, PrintLine(l.frags[i + 1..], l.trailing);
        PutText(f.before);
        PutSlot(f);
        SlotPut(before, f, text, rest);
        i := i + 1;
      }
      PutText(l.trailing);
      Put("\"");
    }
  }

  lemma LineStep(frags: seq<Frag>, i: nat, trailing: string)
    requires i < |frags| && AsciiFrags(frags) && Ascii(trailing)
    ensures PrintLine(frags[i..], trailing)
         == PrintText(frags[i].before) + (PrintSlot(frags[i]) + PrintLine(frags[i + 1..], trailing))
  {
    assert frags[i..][1..] == frags[i + 1..];
  }

  lemma SlotPut(before: string, f: Frag, text: string, rest: string)
    requires Ascii(f.before)
    requires text == before + PrintText(f.before) + PrintSlot(f)
    ensures text + rest == before + (PrintText(f.before) + (PrintSlot(f) + rest))
  {
    Assoc(before + PrintText(f.before), PrintSlot(f), rest);
    Assoc(before, PrintText(f.before), PrintSlot(f) + rest);
  }
}
