/** The format parser reads back what was written, but for the fragments of type `x?` and `X?`. */
module FormatRoundTrip {
  import opened Sequences
  import opened Wrappers
  import opened Utf8
  import opened FormatArgs
  import opened FormatText
  import Decimal

  // ----- numbers, names, scalar values

  lemma WrapStep(acc: nat, d: nat)
    ensures (acc % 0x1_0000_0000 * 10 + d) % 0x1_0000_0000 == (acc * 10 + d) % 0x1_0000_0000
  {
    var q, m := acc / 0x1_0000_0000, acc % 0x1_0000_0000;
    assert acc * 10 + d == q * 10 * 0x1_0000_0000 + (m * 10 + d);
  }

  lemma {:induction false} DigitsWrap(acc: nat, s: string, u: string)
    requires Decimal.AllDigits(s) && !Decimal.IsDigit(At(u, 0))
    ensures ReadNumber(s + u, acc % 0x1_0000_0000) == Number(Decimal.Read(acc, s) % 0x1_0000_0000, u)
    decreases |s|
  {
    if s == [] {
      assert s + u == u;
    } else {
      var d := Decimal.DigitValue(s[0]);
      WrapStep(acc, d);
      DigitsWrap(acc * 10 + d, s[1..], u);
      assert s + u == [s[0]] + (s[1..] + u) && (s + u)[1..] == s[1..] + u;
    }
  }

  lemma NumberWraps(n: nat, u: string)
    requires !Decimal.IsDigit(At(u, 0))
    ensures ReadNumber(Decimal.Render(n) + u, 0) == Number(n % 0x1_0000_0000, u)
  {
    Decimal.ReadRender(n);
    DigitsWrap(0, Decimal.Render(n), u);
  }

  lemma FirstDigit(s: string, u: string)
    requires Decimal.AllDigits(s) && s != []
    ensures Decimal.IsDigit(At(s + u, 0))
  {
    assert (s + u)[0] == s[0];
  }

  lemma NumberRead(n: nat, u: string)
    requires n < WRAP && !Decimal.IsDigit(At(u, 0))
    ensures ReadNumber(Decimal.Render(n) + u, 0) == Number(n, u)
    ensures Decimal.IsDigit(At(Decimal.Render(n) + u, 0))
  {
    NumberWraps(n, u);
    FirstDigit(Decimal.Render(n), u);
  }

  /** Any number at all as the position of an argument: only its low 32 bits count, and they must be in range. */
  lemma PositionWraps(n: nat, u: string, names: Names, nFree: nat)
    requires u != [] && (u[0] == ':' || u[0] == '}')
    ensures
      ParseArg(Decimal.Render(n) + u, names, nFree) ==
      if n % 0x1_0000_0000 < nFree then Some(Arg(Some(n % 0x1_0000_0000), names, u)) else None
  {
    NumberWraps(n, u);
    FirstDigit(Decimal.Render(n), u);
  }

  /** A type of one character is one of eight, and anything else is an error. */
  lemma TypesTaken(args: Args, c: char, u: string)
    requires c != '}'
    ensures ParseTrait(args, [c] + "}" + u).Some? <==> c in "?boxXpeE"
  {
    var t := [c] + "}" + u;
    assert t[0] == c && t[1] == '}';
    assert "?boxXpeE" == ['?', 'b', 'o', 'x', 'X', 'p', 'e', 'E'];
  }

  /** Of longer types there are two. */
  lemma LongTypesTaken(args: Args, t: string)
    requires |t| > 1 && t[0] != '}' && t[1] != '}'
    ensures ParseTrait(args, t).Some? <==> "x?}" <= t || "X?}" <= t
  {
    assert "x?}" == ['x', '?', '}'] && "X?}" == ['X', '?', '}'];
    if |t| >= 3 {
      assert t[..3] == [t[0], t[1], t[2]];
    }
  }

  /** After its argument a fragment ends or has options; anything else, the end of the string included, is an error. */
  lemma JunkRefused(name: string, u: string, names: Names, nextFree: nat, nFree: nat)
    requires IsName(name) && Bytes(u) && (u == [] || (!IsNameByte(u[0]) && u[0] != ':' && u[0] != '}'))
    ensures ParseFrag(name + u, names, nextFree, nFree).None?
  {
    var c := At(u, 0);
    assert !IsNameByte(c) && c != ':' && c != '}';
    NameRead(name, u);
    assert At(name + u, 0) == name[0];
  }

  /** A precision is a number, a name, or `*`. */
  lemma NoPrecisionRefused(p: Spec, nFree: nat)
    requires |p.rest| > 1 && p.rest[0] == '.'
    requires var c := p.rest[1]; !('0' <= c <= '9') && !('a' <= c <= 'z') && !('A' <= c <= 'Z') && c != '*'
    ensures ParsePrecision(p, nFree).None?
  {
    assert At(p.rest[1..], 0) == p.rest[1];
  }

  /** A closing brace that is not doubled is text like one that is. */
  lemma LoneBrace(u: string, literal: string, frags: seq<Frag>, names: Names, nextFree: nat, nFree: nat)
    requires Bytes(u) && At(u, 0) != '}'
    ensures Parse("}" + u, literal, frags, names, nextFree, nFree) == Parse(u, literal + "}", frags, names, nextFree, nFree)
    ensures Parse("}" + u, literal, frags, names, nextFree, nFree) == Parse("}}" + u, literal, frags, names, nextFree, nFree)
  {
    assert ("}" + u)[1..] == u && At("}" + u, 1) == At(u, 0);
    assert ("}}" + u)[2..] == u && At("}}" + u, 1) == '}';
  }

  /** Only zero is written with a zero in front. */
  lemma {:induction false} NoLeadingZero(n: nat)
    ensures Decimal.Render(n)[0] == '0' <==> n == 0
  {
    if n >= 10 {
      NoLeadingZero(n / 10);
    }
  }

  lemma {:induction false} NameRead(name: string, u: string)
    requires (forall i :: 0 <= i < |name| ==> IsNameByte(name[i])) && !IsNameByte(At(u, 0))
    ensures NameLength(name + u) == |name| && (name + u)[..|name|] == name && (name + u)[|name|..] == u
    decreases name
  {
    if name == [] {
      assert name + u == u;
    } else {
      NameRead(name[1..], u);
      assert (name + u)[1..] == name[1..] + u;
    }
  }

  /** Decoding inverts encoding. */
  lemma ScalarRead(c: nat, u: string)
    requires c < 0x110000 && Bytes(u)
    ensures ParseUtf8(Encode(c) + u) == Some(Decoded(c, |Encode(c)|))
  {
    var t := Encode(c) + u;
    Reassembled(c);
    assert forall k :: 0 <= k < |Encode(c)| ==> At(t, k) == Encode(c)[k];
  }

  // ----- the pieces of a fragment

  /** Nothing that could be taken for a count, or for more of one. */
  predicate Quiet(u: string) {
    && !Decimal.IsDigit(At(u, 0)) && At(u, 0) != '$'
    && (IsAlpha(At(u, 0)) ==> At(u, NameLength(u)) != '$')
  }

  lemma FixedRead(n: nat, u: string)
    requires n < WRAP && Quiet(u)
    ensures ReadCount(Decimal.Render(n) + u) == CountAt(Fixed(n), u)
  {
    NumberRead(n, u);
  }

  lemma DollarRead(u: string)
    ensures At("$" + u, 0) == '$' && ("$" + u)[1..] == u
  {
  }

  lemma ArgNumberRead(n: nat, u: string)
    requires n < WRAP
    ensures ReadCount(Decimal.Render(n) + ("$" + u)) == CountAt(ArgNumber(n), u)
  {
    DollarRead(u);
    NumberRead(n, "$" + u);
  }

  lemma ArgNamedRead(name: string, u: string)
    requires IsName(name) && IsAlpha(name[0])
    ensures ReadCount(name + ("$" + u)) == CountAt(ArgNamed(name), u)
  {
    var t := name + ("$" + u);
    DollarRead(u);
    NameRead(name, "$" + u);
    assert t[0] == name[0] && t[|name|] == '$' && t[|name| + 1..] == t[|name|..][1..];
  }

  lemma CountRead(c: Count, u: string)
    requires CanonicalCount(c) && Quiet(u)
    ensures ReadCount(CountText(c) + u) == CountAt(c, u)
  {
    match c
    case NoCount => assert "" + u == u;
    case Fixed(n) => FixedRead(n, u);
    case ArgNumber(n) =>
      ArgNumberRead(n, u);
      Assoc(Decimal.Render(n), "$", u);
    case ArgNamed(name) =>
      ArgNamedRead(name, u);
      Assoc(name, "$", u);
  }

  lemma KindQuiet(k: Kind, more: string)
    ensures
      var u := KindText(k) + ("}" + more);
      && Quiet(u) && At(u, 0) !in {'+', '-', '#', '.', '0', '<', '^', '>'}
  {
    var u := KindText(k) + ("}" + more);
    if k.Display? {
      assert u[0] == '}';
    } else if HexDebug(k) {
      NameRead(KindText(k)[..1], u[1..]);
      assert u == KindText(k)[..1] + u[1..];
    } else if k.Debug? {
      assert u[0] == '?';
    } else {
      NameRead(KindText(k), "}" + more);
    }
  }

  /** The type is read, and the closing brace is left; after `x?` and `X?` these are left too. */
  lemma KindRead(k: Kind, args: Args, more: string)
    requires args.debug.Normal?
    ensures
      var u := "}" + more;
      ParseTrait(args, KindText(k) + u) ==
      Some(Typed(TraitName(k), args.(debug := StyleOf(k)), if HexDebug(k) then KindText(k) + u else u))
  {
    var u := "}" + more;
    if k.Display? {
      assert "" + u == u;
    } else if HexDebug(k) {
      HexKindRead(k, args, u);
    } else {
      LetterRead(k, args, u);
    }
  }

  lemma LetterRead(k: Kind, args: Args, u: string)
    requires !k.Display? && !HexDebug(k) && args.debug.Normal? && At(u, 0) == '}'
    ensures ParseTrait(args, KindText(k) + u) == Some(Typed(TraitName(k), args, u))
  {
    var t := KindText(k) + u;
    assert t[0] == KindText(k)[0] && t[1] == '}' && t[1..] == u;
  }

  lemma HexKindRead(k: Kind, args: Args, u: string)
    requires HexDebug(k) && At(u, 0) == '}'
    ensures ParseTrait(args, KindText(k) + u) == Some(Typed(TraitName(k), args.(debug := StyleOf(k)), KindText(k) + u))
  {
    var t := KindText(k) + u;
    assert t[0] == KindText(k)[0] && t[1] == '?' && t[2] == '}';
  }

  function PrecisionSet(p: Spec, c: Count, nFree: nat, u: string): Spec {
    var d := CountArg(c, p.names, nFree);
    p.(args := p.args.(precIsArg := d.isArg, prec := d.n), names := d.names, rest := u)
  }

  function WidthSet(p: Spec, c: Count, nFree: nat, u: string): Spec {
    var d := CountArg(c, p.names, nFree);
    p.(args := p.args.(widthIsArg := d.isArg, width := d.n), names := d.names, rest := u)
  }

  lemma PrecisionCount(p: Spec, c: Count, nFree: nat, t: string, u: string)
    requires At(p.rest, 0) == '.' && p.rest[1..] == t && ReadCount(t) == CountAt(c, u)
    requires Decimal.IsDigit(At(t, 0)) || IsAlpha(At(t, 0))
    requires !p.args.precIsArg && p.args.prec == 0
    ensures ParsePrecision(p, nFree) == Some(PrecisionSet(p, c, nFree, u))
  {
  }

  lemma PrecisionRead(p: Spec, c: Count, nFree: nat, u: string)
    requires p.rest == PrecisionText(c) + u && CanonicalCount(c) && Quiet(u) && At(u, 0) != '.'
    requires !p.args.precIsArg && p.args.prec == 0
    ensures ParsePrecision(p, nFree) == Some(PrecisionSet(p, c, nFree, u))
  {
    if c.NoCount? {
      assert p.rest == u;
    } else {
      var t := CountText(c) + u;
      CountRead(c, u);
      CountStart(c, u);
      Assoc(".", CountText(c), u);
      DotRead(p.rest, t);
      PrecisionCount(p, c, nFree, t, u);
    }
  }

  lemma DotRead(s: string, t: string)
    requires s == "." + t
    ensures At(s, 0) == '.' && s[1..] == t
  {
  }

  lemma CountStart(c: Count, u: string)
    requires CanonicalCount(c) && !c.NoCount?
    ensures Decimal.IsDigit(At(CountText(c) + u, 0)) || IsAlpha(At(CountText(c) + u, 0))
  {
  }

  lemma WidthRead(p: Spec, c: Count, nFree: nat, u: string)
    requires p.rest == CountText(c) + u && CanonicalCount(c) && Quiet(u)
    requires !p.args.widthIsArg && p.args.width == 0
    ensures ParseWidth(p, nFree) == WidthSet(p, c, nFree, u)
  {
    CountRead(c, u);
  }

  lemma SignRead(p: Spec, sign: Sign, u: string)
    requires p.rest == SignText(sign) + u && At(u, 0) !in {'+', '-'} && p.args.sign.NoSign?
    ensures ParseSign(p) == p.(args := p.args.(sign := sign), rest := u)
  {
    if sign.NoSign? {
      assert p.rest == u;
    } else {
      assert p.rest[1..] == u;
    }
  }

  lemma AlternateRead(p: Spec, alternate: bool, u: string)
    requires p.rest == AlternateText(alternate) + u && At(u, 0) != '#' && !p.args.alternate
    ensures ParseAlternate(p) == p.(args := p.args.(alternate := alternate), rest := u)
  {
    if !alternate {
      assert p.rest == u;
    } else {
      assert p.rest[1..] == u;
    }
  }

  lemma ZeroRead(p: Spec, zeroPad: bool, u: string)
    requires p.rest == ZeroText(zeroPad) + u && At(u, 0) != '$' && (At(u, 0) == '0' ==> At(u, 1) == '$') && !p.args.zeroPad
    ensures ParseZero(p) == p.(args := p.args.(zeroPad := zeroPad, fill := if zeroPad then '0' as nat else p.args.fill), rest := u)
  {
    if !zeroPad {
      assert p.rest == u;
    } else {
      assert p.rest[1..] == u && At(p.rest, 1) == At(u, 0);
    }
  }

  /** Nothing that could be taken for a sign, `#` or zero padding. */
  predicate NoFlags(u: string) {
    At(u, 0) !in {'+', '-', '#', '$'} && (At(u, 0) == '0' ==> At(u, 1) == '$')
  }

  lemma FlagsRead(p: Spec, o: Options, u: string)
    requires p.rest == SignText(o.sign) + (AlternateText(o.alternate) + (ZeroText(o.zeroPad) + u)) && NoFlags(u)
    requires p.args.sign.NoSign? && !p.args.alternate && !p.args.zeroPad
    ensures ParseFlags(p) ==
      p.(args := p.args.(sign := o.sign, alternate := o.alternate, zeroPad := o.zeroPad,
                         fill := if o.zeroPad then '0' as nat else p.args.fill),
         rest := u)
  {
    var zero := ZeroText(o.zeroPad) + u;
    var alt := AlternateText(o.alternate) + zero;
    assert At(zero, 0) == (if o.zeroPad then '0' else At(u, 0));
    assert At(alt, 0) == (if o.alternate then '#' else At(zero, 0));
    SignRead(p, o.sign, alt);
    AlternateRead(ParseSign(p), o.alternate, zero);
    ZeroRead(ParseAlternate(ParseSign(p)), o.zeroPad, u);
  }

  /** Nothing that could be taken for an alignment, with or without a fill character. */
  predicate NoAlign(u: string) {
    !IsAlign(At(u, 0)) && At(u, 0) as int < 0x80 && (At(u, 0) == '}' || !IsAlign(At(u, 1)))
  }

  lemma NoAlignRead(p: Spec)
    requires Bytes(p.rest) && NoAlign(p.rest)
    ensures ParseAlign(p) == Some(p)
  {
  }

  lemma BareAlignRead(p: Spec, align: Align, u: string)
    requires !align.Unspec? && Bytes(u) && NoAlign(u) && p.rest == AlignText(align) + u
    ensures Bytes(p.rest) && ParseAlign(p) == Some(p.(args := p.args.(align := align), rest := u))
  {
    assert p.rest[0] == AlignText(align)[0] && p.rest[1..] == u && At(p.rest, 1) == At(u, 0);
  }

  lemma FilledAlignRead(p: Spec, align: Align, fill: nat, u: string)
    requires !align.Unspec? && Bytes(u) && fill < 0x110000 && fill != '}' as nat && p.rest == Encode(fill) + (AlignText(align) + u)
    ensures Bytes(p.rest) && ParseAlign(p) == Some(p.(args := p.args.(align := align, fill := fill), rest := u))
  {
    var a, k := AlignText(align) + u, |Encode(fill)|;
    assert a[0] == AlignText(align)[0] && a[1..] == u;
    ScalarRead(fill, a);
    assert p.rest[k..] == a && At(p.rest, k) == a[0];
  }

  lemma AlignRead(p: Spec, o: Options, u: string)
    requires IsScalar(o.fill) && o.fill != '}' as nat && (o.fill == ' ' as nat || !o.align.Unspec?)
    requires Bytes(u) && p.rest == FillText(o.fill) + (AlignText(o.align) + u) && NoAlign(u)
    requires p.args.align.Unspec? && p.args.fill == ' ' as nat
    ensures Bytes(p.rest) && ParseAlign(p) == Some(p.(args := p.args.(align := o.align, fill := o.fill), rest := u))
  {
    if o.align.Unspec? {
      assert p.rest == u;
      NoAlignRead(p);
    } else if o.fill == ' ' as nat {
      assert p.rest == AlignText(o.align) + u;
      BareAlignRead(p, o.align, u);
    } else {
      FilledAlignRead(p, o.align, o.fill, u);
    }
  }

  // ----- the options together

  function KindTail(k: Kind, more: string): string {
    KindText(k) + ("}" + more)
  }

  function PrecTail(o: Options, more: string): string {
    PrecisionText(o.prec) + KindTail(o.kind, more)
  }

  function WidthTail(o: Options, more: string): string {
    CountText(o.width) + PrecTail(o, more)
  }

  function FlagsTail(o: Options, more: string): string {
    SignText(o.sign) + (AlternateText(o.alternate) + (ZeroText(o.zeroPad) + WidthTail(o, more)))
  }

  lemma PrecTailQuiet(o: Options, more: string)
    ensures Quiet(PrecTail(o, more)) && At(PrecTail(o, more), 0) !in {'+', '-', '#', '0', '<', '^', '>'}
  {
    KindQuiet(o.kind, more);
    if o.prec.NoCount? {
      assert PrecTail(o, more) == KindTail(o.kind, more);
    } else {
      assert PrecTail(o, more)[0] == '.';
    }
  }

  /** What follows the flags is not taken for one of them. */
  lemma WidthTailPlain(o: Options, more: string)
    requires Canonical(o)
    ensures NoFlags(WidthTail(o, more)) && !IsAlign(At(WidthTail(o, more), 0))
  {
    var u := WidthTail(o, more);
    PrecTailQuiet(o, more);
    match o.width
    case NoCount => assert u == PrecTail(o, more);
    case Fixed(n) => NoLeadingZero(n);
    case ArgNumber(n) =>
      NoLeadingZero(n);
      if n == 0 {
        assert Decimal.Render(0) == "0";
        assert u[1] == '$';
      }
    case ArgNamed(name) => assert u[0] == name[0];
  }

  predicate Unaligned(t: string) {
    forall i :: 0 <= i < |t| ==> !IsAlign(t[i])
  }

  function Body(o: Options): string {
    SignText(o.sign) + (AlternateText(o.alternate) + (ZeroText(o.zeroPad) + (CountText(o.width) + (PrecisionText(o.prec) + KindText(o.kind)))))
  }

  lemma CountUnaligned(c: Count)
    requires CanonicalCount(c)
    ensures Unaligned(CountText(c)) && Unaligned(PrecisionText(c)) && Bytes(CountText(c)) && Bytes(PrecisionText(c))
  {
  }

  lemma KindUnaligned(k: Kind)
    ensures Unaligned(KindText(k)) && Bytes(KindText(k))
  {
  }

  lemma BodyPlain(o: Options)
    requires Canonical(o)
    ensures Unaligned(Body(o)) && Bytes(Body(o))
  {
    CountUnaligned(o.width);
    CountUnaligned(o.prec);
    KindUnaligned(o.kind);
    var a := PrecisionText(o.prec) + KindText(o.kind);
    assert Unaligned(a) && Bytes(a);
    var b := CountText(o.width) + a;
    assert Unaligned(b) && Bytes(b);
    var c := AlternateText(o.alternate) + (ZeroText(o.zeroPad) + b);
    assert Unaligned(c) && Bytes(c);
  }

  lemma BodyTail(o: Options, more: string)
    ensures FlagsTail(o, more) == Body(o) + ("}" + more)
  {
    var u := "}" + more;
    var p := PrecisionText(o.prec) + KindText(o.kind);
    var w := CountText(o.width) + p;
    var z := ZeroText(o.zeroPad) + w;
    var a := AlternateText(o.alternate) + z;
    Assoc(PrecisionText(o.prec), KindText(o.kind), u);
    Assoc(CountText(o.width), p, u);
    Assoc(ZeroText(o.zeroPad), w, u);
    Assoc(AlternateText(o.alternate), z, u);
    Assoc(SignText(o.sign), a, u);
  }

  lemma BodyStart(o: Options, more: string)
    requires Canonical(o)
    ensures At(FlagsTail(o, more), 0) as int < 0x80
  {
    var k, p, w := KindTail(o.kind, more), PrecTail(o, more), WidthTail(o, more);
    KindQuiet(o.kind, more);
    assert At(k, 0) as int < 0x80 by {
      if o.kind.Display? {
        assert k[0] == '}';
      } else {
        assert k[0] == KindText(o.kind)[0];
      }
    }
    assert At(p, 0) as int < 0x80 by {
      if o.prec.NoCount? {
        assert p == k;
      }
    }
    assert At(w, 0) as int < 0x80 by {
      if o.width.NoCount? {
        assert w == p;
      } else {
        CountStart(o.width, p);
      }
    }
    var z := ZeroText(o.zeroPad) + w;
    assert At(z, 0) == (if o.zeroPad then '0' else At(w, 0));
    var a := AlternateText(o.alternate) + z;
    assert At(a, 0) == (if o.alternate then '#' else At(z, 0));
    assert At(SignText(o.sign) + a, 0) == if o.sign.NoSign? then At(a, 0) else SignText(o.sign)[0];
  }

  lemma FlagsTailUnaligned(o: Options, more: string)
    requires Canonical(o) && Bytes(more)
    ensures NoAlign(FlagsTail(o, more)) && Bytes(FlagsTail(o, more))
  {
    BodyPlain(o);
    BodyTail(o, more);
    BodyStart(o, more);
    var t := FlagsTail(o, more);
    if |Body(o)| == 0 {
      assert t[0] == '}';
    } else {
      assert t[0] == Body(o)[0] && At(t, 1) == if |Body(o)| == 1 then '}' else Body(o)[1];
    }
  }

  lemma SpecTextTail(o: Options, more: string)
    requires o.fill < 0x110000
    ensures SpecText(o) + ("}" + more) == FillText(o.fill) + (AlignText(o.align) + FlagsTail(o, more))
  {
    BodyTail(o, more);
    Assoc(AlignText(o.align), Body(o), "}" + more);
    Assoc(FillText(o.fill), AlignText(o.align) + Body(o), "}" + more);
  }

  /** What the options have become before the type is read. */
  function SpecSet(o: Options, names: Names, nextFree: nat, nFree: nat, more: string): Spec {
    var (args, names1) := OptionArgs(o, names, nFree);
    Spec(args.(debug := Normal), names1, nextFree, KindTail(o.kind, more))
  }

  lemma SpecRead(o: Options, names: Names, nextFree: nat, nFree: nat, more: string)
    requires Canonical(o) && Bytes(more)
    ensures
      var t := SpecText(o) + ("}" + more);
      Bytes(t) && ParseSpec(Spec(DEFAULTS, names, nextFree, t), nFree) == Some(SpecSet(o, names, nextFree, nFree, more))
  {
    SpecTextTail(o, more);
    FlagsTailUnaligned(o, more);
    var p := Spec(DEFAULTS, names, nextFree, SpecText(o) + ("}" + more));
    AlignRead(p, o, FlagsTail(o, more));
    var p1 := p.(args := p.args.(align := o.align, fill := o.fill), rest := FlagsTail(o, more));
    WidthTailPlain(o, more);
    FlagsRead(p1, o, WidthTail(o, more));
    CountsRead(ParseFlags(p1), o, nFree, more);
  }

  lemma CountsRead(p: Spec, o: Options, nFree: nat, more: string)
    requires Canonical(o) && p.rest == WidthTail(o, more)
    requires !p.args.widthIsArg && p.args.width == 0 && !p.args.precIsArg && p.args.prec == 0
    ensures
      var w := WidthSet(p, o.width, nFree, PrecTail(o, more));
      ParsePrecision(ParseWidth(p, nFree), nFree) == Some(PrecisionSet(w, o.prec, nFree, KindTail(o.kind, more)))
  {
    PrecTailQuiet(o, more);
    WidthRead(p, o.width, nFree, PrecTail(o, more));
    KindQuiet(o.kind, more);
    PrecisionRead(ParseWidth(p, nFree), o.prec, nFree, KindTail(o.kind, more));
  }

  // ----- whole fragments

  predicate CanonicalArg(a: ArgRef) {
    match a
    case Next => true
    case Position(n) => n < WRAP
    case ByName(name) => IsName(name)
  }

  lemma ArgRead(a: ArgRef, names: Names, nFree: nat, u: string)
    requires CanonicalArg(a) && (At(u, 0) == ':' || At(u, 0) == '}')
    ensures
      var i := RefIndex(a, names, nFree);
      ParseArg(ArgText(a) + u, names, nFree) == if i.None? then None else Some(Arg(i.value.index, i.value.names, u))
  {
    match a
    case Next => assert "" + u == u;
    case Position(n) => NumberRead(n, u);
    case ByName(name) =>
      NameRead(name, u);
      assert (name + u)[0] == name[0];
  }

  /** What is left of the text when a fragment was read. */
  function FragRest(k: Kind, more: string): (r: string)
    ensures r != []
  {
    if HexDebug(k) then KindTail(k, more) else "}" + more
  }

  function Meant(i: Ref, o: Options, nextFree: nat, nFree: nat, more: string): Option<OneFrag> {
    var (args, names1) := OptionArgs(o, i.names, nFree);
    Indexed(i.index, TraitName(o.kind), args, names1, nextFree, FragRest(o.kind, more), nFree)
  }

  lemma BareRead(i: Ref, nextFree: nat, nFree: nat, more: string)
    requires Bytes(more)
    ensures Bytes("}" + more) && ParseOptions(Arg(i.index, i.names, "}" + more), nextFree, nFree) == Meant(i, PLAIN, nextFree, nFree, more)
  {
  }

  lemma OptionsRead(i: Ref, o: Options, nextFree: nat, nFree: nat, more: string)
    requires Canonical(o) && Bytes(more)
    ensures
      var t := ":" + (SpecText(o) + ("}" + more));
      Bytes(t) && ParseOptions(Arg(i.index, i.names, t), nextFree, nFree) == Meant(i, o, nextFree, nFree, more)
  {
    var t := SpecText(o) + ("}" + more);
    SpecRead(o, i.names, nextFree, nFree, more);
    assert (":" + t)[1..] == t;
    KindRead(o.kind, SpecSet(o, i.names, nextFree, nFree, more).args, more);
  }

  lemma FragRead(w: Written, names: Names, nextFree: nat, nFree: nat, more: string)
    requires CanonicalFrag(w) && Bytes(more)
    ensures
      var t, i := FragText(w) + ("}" + more), RefIndex(w.arg, names, nFree);
      Bytes(t) && ParseFrag(t, names, nextFree, nFree) == if i.None? then None else Meant(i.value, w.o, nextFree, nFree, more)
  {
    var i := RefIndex(w.arg, names, nFree);
    var ref := if i.Some? then i.value else Ref(None, names);
    var s := if w.bare then "}" + more else ":" + (SpecText(w.o) + ("}" + more));
    assert FragText(w) + ("}" + more) == ArgText(w.arg) + s;
    ArgRead(w.arg, names, nFree, s);
    assert Bytes(ArgText(w.arg));
    if w.bare {
      BareRead(ref, nextFree, nFree, more);
    } else {
      OptionsRead(ref, w.o, nextFree, nFree, more);
    }
  }

  /** As `FragRead`, in the terms of the reference. */
  lemma FragMeans(w: Written, names: Names, nextFree: nat, nFree: nat, more: string)
    requires CanonicalFrag(w) && Bytes(more)
    ensures
      var t, m := FragText(w) + ("}" + more), Mean(w, names, nextFree, nFree);
      && Bytes(t)
      && ParseFrag(t, names, nextFree, nFree) ==
         if m.None? then None
         else Some(OneFrag(m.value.index, TraitName(w.o.kind), m.value.args, m.value.names, m.value.nextFree, FragRest(w.o.kind, more)))
  {
    FragRead(w, names, nextFree, nFree, more);
  }

  // ----- whole strings

  lemma {:induction false} EscapeBytes(t: string)
    requires Bytes(t)
    ensures Bytes(Escape(t))
    decreases t
  {
    if t != [] {
      EscapeBytes(t[1..]);
    }
  }

  /** Literal text is read back, its braces halved. */
  lemma {:induction false} TextRead(text: string, u: string, lit: string, frags: seq<Frag>, names: Names, nextFree: nat, nFree: nat)
    requires Bytes(text) && Bytes(u)
    ensures Bytes(Escape(text) + u)
    ensures Parse(Escape(text) + u, lit, frags, names, nextFree, nFree) == Parse(u, lit + text, frags, names, nextFree, nFree)
    decreases text
  {
    EscapeBytes(text);
    if text == [] {
      assert Escape(text) + u == u && lit + text == lit;
    } else {
      var t, c := text[1..], text[0];
      TextRead(t, u, lit + [c], frags, names, nextFree, nFree);
      assert lit + [c] + t == lit + text;
      if c == '{' || c == '}' {
        assert Escape(text) + u == [c, c] + (Escape(t) + u);
        assert ([c, c] + (Escape(t) + u))[2..] == Escape(t) + u;
      } else {
        assert Escape(text) + u == [c] + (Escape(t) + u);
        assert ([c] + (Escape(t) + u))[1..] == Escape(t) + u;
      }
    }
  }

  /** A closing brace too many before literal text is kept, whether or not the text starts with one. */
  lemma {:induction false} StrayBrace(text: string, u: string, lit: string, frags: seq<Frag>, names: Names, nextFree: nat, nFree: nat)
    requires Bytes(text) && Bytes(u) && At(u, 0) != '}'
    ensures Bytes("}" + (Escape(text) + u))
    ensures Parse("}" + (Escape(text) + u), lit, frags, names, nextFree, nFree) == Parse(u, lit + "}" + text, frags, names, nextFree, nFree)
    decreases text
  {
    EscapeBytes(text);
    var all := "}" + (Escape(text) + u);
    if text != [] && text[0] == '}' {
      var t := text[1..];
      StrayBrace(t, u, lit + "}", frags, names, nextFree, nFree);
      assert all == "}}" + ("}" + (Escape(t) + u));
      assert all[2..] == "}" + (Escape(t) + u);
      assert lit + "}" + "}" + t == lit + "}" + text;
    } else {
      assert text == [] ==> Escape(text) + u == u;
      assert text != [] ==> Escape(text)[0] == text[0];
      assert all[1..] == Escape(text) + u;
      TextRead(text, u, lit + "}", frags, names, nextFree, nFree);
    }
  }

  /** Text after what strays into it. */
  lemma StrayRead(stray: string, text: string, u: string, frags: seq<Frag>, names: Names, nextFree: nat, nFree: nat)
    requires stray == "" || stray == "?}"
    requires Bytes(text) && Bytes(u) && At(u, 0) != '}'
    ensures Bytes(stray + (Escape(text) + u))
    ensures Parse(stray + (Escape(text) + u), "", frags, names, nextFree, nFree) == Parse(u, stray + text, frags, names, nextFree, nFree)
  {
    EscapeBytes(text);
    if stray == "" {
      TextRead(text, u, "", frags, names, nextFree, nFree);
      assert stray + (Escape(text) + u) == Escape(text) + u && stray + text == "" + text;
    } else {
      var rest := "}" + (Escape(text) + u);
      StrayBrace(text, u, "?", frags, names, nextFree, nFree);
      assert stray + (Escape(text) + u) == "?" + rest && ("?" + rest)[1..] == rest;
      assert "" + "?" == "?" && "?" + "}" + text == stray + text;
    }
  }

  lemma DropFirst(t: string, c: char, rest: string, u: string)
    requires t == [c] + rest
    ensures (t + u)[1..] == rest + u
  {
  }

  lemma StrayJoins(u: string, more: string)
    requires u == "}" + more
    ensures "?" + u == "?}" + more
  {
    assert ("?" + u)[0] == '?' && ("?" + u)[1] == '}' && ("?" + u)[2..] == more;
  }

  /** What is left after a fragment is the text after it, behind what strays into it. */
  lemma RestStrays(k: Kind, more: string)
    ensures FragRest(k, more)[1..] == Stray(k) + more
  {
    var u := "}" + more;
    StrayJoins(u, more);
    match k
    case DebugLowerHex => DropFirst("x?", 'x', "?", u);
    case DebugUpperHex => DropFirst("X?", 'X', "?", u);
    case _ => assert u[1..] == more && "" + more == more;
  }

  lemma {:induction false} RenderBytes(ws: seq<Written>, tail: string)
    requires CanonicalText(ws, tail)
    ensures Bytes(Render(ws, tail))
    decreases ws
  {
    if ws == [] {
      EscapeBytes(tail);
    } else {
      assert CanonicalFrag(ws[0]);
      RenderBytes(ws[1..], tail);
      EscapeBytes(ws[0].text);
      FragMeans(ws[0], Names(map[], []), 0, 0, Render(ws[1..], tail));
    }
  }

  lemma FragStart(w: Written, more: string)
    requires CanonicalFrag(w)
    ensures At(FragText(w) + ("}" + more), 0) != '{'
  {
    var t := FragText(w) + ("}" + more);
    match w.arg
    case Next => assert t[0] == if w.bare then '}' else ':';
    case Position(n) => assert t[0] == Decimal.Render(n)[0];
    case ByName(name) => assert t[0] == name[0];
  }

  /** The parser on any string that is written out of fragments: it yields what they mean, but that `x?` and `X?`
      leave `?}` behind, which runs into the text after them. */
  lemma {:induction false} ParseWritten(ws: seq<Written>, tail: string, stray: string, frags: seq<Frag>, names: Names, nextFree: nat, nFree: nat)
    requires CanonicalText(ws, tail) && (stray == "" || stray == "?}")
    ensures
      var t := stray + Render(ws, tail);
      Bytes(t) && Parse(t, "", frags, names, nextFree, nFree) == MeanAll(ws, tail, stray, frags, names, nextFree, nFree)
    decreases |ws|
  {
    if ws == [] {
      StrayRead(stray, tail, "", frags, names, nextFree, nFree);
      assert Escape(tail) + "" == Escape(tail);
    } else {
      var w, more := ws[0], Render(ws[1..], tail);
      assert CanonicalFrag(w);
      RenderBytes(ws[1..], tail);
      FragMeans(w, names, nextFree, nFree, more);
      FragStart(w, more);
      var inner := FragText(w) + ("}" + more);
      var u := "{" + inner;
      assert u[1..] == inner && At(u, 1) == At(inner, 0);
      StrayRead(stray, w.text, u, frags, names, nextFree, nFree);
      RestStrays(w.o.kind, more);
      var m := Mean(w, names, nextFree, nFree);
      if m.Some? {
        var f := Frag(stray + w.text, m.value.index, TraitName(w.o.kind), m.value.args);
        ParseWritten(ws[1..], tail, Stray(w.o.kind), frags + [f], m.value.names, m.value.nextFree, nFree);
      }
    }
  }

  // ----- the round trip, and when it fails

  /** The fragments and the tail, with each text as it was meant. */
  function Intended(ws: seq<Written>, tail: string, frags: seq<Frag>, names: Names, nextFree: nat, nFree: nat): Option<Parsed>
    decreases |ws|
  {
    if ws == [] then Some(Parsed(frags, tail, names))
    else
      match Mean(ws[0], names, nextFree, nFree)
      case None => None
      case Some(m) =>
        Intended(ws[1..], tail, frags + [Frag(ws[0].text, m.index, TraitName(ws[0].o.kind), m.args)], m.names, m.nextFree, nFree)
  }

  predicate NoHexDebug(ws: seq<Written>) {
    forall i :: 0 <= i < |ws| ==> !HexDebug(ws[i].o.kind)
  }

  function TextLength(frags: seq<Frag>): nat {
    if frags == [] then 0 else TextLength(frags[..|frags| - 1]) + |frags[|frags| - 1].text|
  }

  lemma TextLengthSnoc(frags: seq<Frag>, f: Frag)
    ensures TextLength(frags + [f]) == TextLength(frags) + |f.text|
  {
    assert (frags + [f])[..|frags|] == frags;
  }

  /** The two readings succeed together; they agree without `x?` and `X?`, and with them there is more text. */
  lemma {:induction false} StraysAddText(ws: seq<Written>, tail: string, stray: string, a: seq<Frag>, b: seq<Frag>, names: Names, nextFree: nat, nFree: nat)
    requires |a| == |b| && (TextLength(a) == TextLength(b) <==> a == b) && TextLength(a) >= TextLength(b)
    ensures
      var got, meant := MeanAll(ws, tail, stray, a, names, nextFree, nFree), Intended(ws, tail, b, names, nextFree, nFree);
      && (got.Some? <==> meant.Some?)
      && (got.Some? ==> (got == meant <==> a == b && stray == "" && NoHexDebug(ws)))
    decreases |ws|
  {
    if ws != [] {
      var m := Mean(ws[0], names, nextFree, nFree);
      if m.Some? {
        var f := Frag(stray + ws[0].text, m.value.index, TraitName(ws[0].o.kind), m.value.args);
        var g := f.(text := ws[0].text);
        TextLengthSnoc(a, f);
        TextLengthSnoc(b, g);
        assert stray == "" ==> f == g;
        assert a + [f] == b + [g] <==> a == b && f == g by {
          if a + [f] == b + [g] {
            assert (a + [f])[..|a|] == a && (b + [g])[..|b|] == b;
            assert (a + [f])[|a|] == f && (b + [g])[|b|] == g;
          }
        }
        StraysAddText(ws[1..], tail, Stray(ws[0].o.kind), a + [f], b + [g], m.value.names, m.value.nextFree, nFree);
        assert NoHexDebug(ws) <==> !HexDebug(ws[0].o.kind) && NoHexDebug(ws[1..]);
      }
    } else {
      assert stray == "" ==> stray + tail == tail;
      assert |stray + tail| == |stray| + |tail|;
    }
  }

  /** Parsing what was written gives back what was meant, or the same error, exactly if no fragment of it is of
      type `x?` or `X?`. */
  lemma RoundTrip(ws: seq<Written>, tail: string, names: Names, nFree: nat)
    requires CanonicalText(ws, tail)
    ensures
      var t := Render(ws, tail);
      && Bytes(t)
      && var got, meant := Parse(t, "", [], names, 0, nFree), Intended(ws, tail, [], names, 0, nFree);
         && (got.Some? <==> meant.Some?)
         && (got == meant <==> meant.None? || NoHexDebug(ws))
  {
    ParseWritten(ws, tail, "", [], names, 0, nFree);
    assert "" + Render(ws, tail) == Render(ws, tail);
    StraysAddText(ws, tail, "", [], [], names, 0, nFree);
  }

  /** `{:x?}`: the text after the fragment is `?}`. */
  lemma HexDebugLeavesText()
    ensures
      Parse("{:x?}", "", [], Names(map[], []), 0, 1) ==
      Some(Parsed([Frag("", 0, "Debug", DEFAULTS.(debug := LowerHexDebug))], "?}", Names(map[], [])))
  {
    var none, f := Names(map[], []), Frag("", 0, "Debug", DEFAULTS.(debug := LowerHexDebug));
    var t := "{:x?}";
    HexDebugFrag(none);
    assert t[1..] == ":x?}" && "x?}"[1..] == "?}";
    FirstFrag(t, none, ParseFrag(":x?}", none, 0, 1).value);
    HexDebugTail([f], none);
  }

  lemma FirstFrag(t: string, none: Names, f: OneFrag)
    requires Bytes(t) && At(t, 0) == '{' && At(t, 1) != '{' && ParseFrag(t[1..], none, 0, 1) == Some(f)
    ensures f.rest != [] && Bytes(f.rest)
    ensures Parse(t, "", [], none, 0, 1) == Parse(f.rest[1..], "", [Frag("", f.index, f.traitName, f.args)], f.names, f.nextFree, 1)
  {
    assert [] + [Frag("", f.index, f.traitName, f.args)] == [Frag("", f.index, f.traitName, f.args)];
  }

  lemma HexDebugFrag(none: Names)
    ensures ParseFrag(":x?}", none, 0, 1) == Some(OneFrag(0, "Debug", DEFAULTS.(debug := LowerHexDebug), none, 1, "x?}"))
  {
    var t, u := ":x?}", "x?}";
    var p := Spec(DEFAULTS, none, 0, u);
    assert t[0] == ':' && t[1..] == u && u[0] == 'x' && u[1] == '?' && u[2] == '}';
    assert u == "x" + u[1..];
    NameRead("x", u[1..]);
    assert ReadCount(u) == CountAt(NoCount, u);
    assert ParseAlign(p) == Some(p) && ParseFlags(p) == p && ParseWidth(p, 1) == p && ParsePrecision(p, 1) == Some(p);
  }

  lemma HexDebugTail(frags: seq<Frag>, none: Names)
    ensures Parse("?}", "", frags, none, 1, 1) == Some(Parsed(frags, "?}", none))
  {
    assert "?}"[1..] == "}" && "}"[1..] == "";
    assert "" + "?" == "?" && "?" + "}" == "?}";
    assert Parse("}", "?", frags, none, 1, 1) == Parse("", "?}", frags, none, 1, 1);
  }
}
