/** Format strings: the parser, the arguments it hands out, and what it makes of a string that was
    written out of fragments. */
module FormatArgs {
  import opened Wrappers
  import opened Utf8
  import Decimal

  // ----- what a format string is parsed into

  datatype Align = Unspec | Left | Center | Right

  datatype Sign = NoSign | Plus | Minus

  datatype DebugStyle = Normal | LowerHexDebug | UpperHexDebug

  /** Formatting options.  A width or precision that `isArg` is the number of an argument. */
  datatype Args = Args(
    align: Align, fill: nat, sign: Sign, alternate: bool, zeroPad: bool, debug: DebugStyle,
    widthIsArg: bool, width: nat, precIsArg: bool, prec: nat)

  const DEFAULTS := Args(Unspec, ' ' as nat, NoSign, false, false, Normal, false, 0, false, 0)

  datatype Frag = Frag(text: string, index: nat, traitName: string, args: Args)

  /** The named arguments: where each name stands, and the names in order. */
  datatype Names = Names(index: map<string, nat>, args: seq<string>)

  datatype Parsed = Parsed(frags: seq<Frag>, tail: string, names: Names)

  // ----- characters

  predicate IsAlpha(c: char) {
    'a' <= c <= 'z' || 'A' <= c <= 'Z'
  }

  predicate IsAlnum(c: char) {
    IsAlpha(c) || Decimal.IsDigit(c)
  }

  /** A byte of a name: ASCII alphanumeric, `_`, or any byte above ASCII. */
  predicate IsNameByte(c: char) {
    IsAlnum(c) || c == '_' || c as int > 127
  }

  const WRAP := 0x1_0000_0000

  /** What is left of a text is no longer than it, and as well formed. */
  predicate LeftOf(rest: string, t: string) {
    |rest| <= |t| && (Bytes(t) ==> Bytes(rest))
  }

  // ----- the parser, piece by piece: each piece yields what is left of the text

  datatype Number = Number(value: nat, rest: string)

  /** An `unsigned int` is read, so the value wraps around. */
  function ReadNumber(t: string, acc: nat): (r: Number)
    ensures LeftOf(r.rest, t)
    decreases |t|
  {
    if Decimal.IsDigit(At(t, 0)) then ReadNumber(t[1..], (acc * 10 + Decimal.DigitValue(t[0])) % WRAP)
    else Number(acc, t)
  }

  function NameLength(t: string): (n: nat)
    ensures n <= |t|
    ensures forall i :: 0 <= i < n ==> IsNameByte(t[i])
    ensures n < |t| ==> !IsNameByte(t[n])
  {
    if t != [] && IsNameByte(t[0]) then 1 + NameLength(t[1..]) else 0
  }

  datatype Decoded = Decoded(ch: nat, length: nat)

  /** One scalar value, or 0xFFFE if a continuation byte is missing; nothing if no sequence starts like this. */
  function ParseUtf8(t: string): Option<Decoded>
    requires Bytes(t)
  {
    var b0, b1, b2, b3 := ByteAt(t, 0), ByteAt(t, 1), ByteAt(t, 2), ByteAt(t, 3);
    if b0 < 0x80 then Some(Decoded(b0, 1))
    else if b0 / 64 == 2 then Some(Decoded(0xFFFE, 1))
    else if b0 / 32 == 6 then
      Some(Decoded(if IsContinuation(b1) then b0 % 32 * 0x40 + b1 % 64 else 0xFFFE, 2))
    else if b0 / 16 == 14 then
      Some(Decoded(if IsContinuation(b1) && IsContinuation(b2) then b0 % 16 * 0x1000 + b1 % 64 * 0x40 + b2 % 64 else 0xFFFE, 3))
    else if b0 / 8 == 30 then
      Some(Decoded(if IsContinuation(b1) && IsContinuation(b2) && IsContinuation(b3)
                   then b0 % 8 * 0x40000 + b1 % 64 * 0x1000 + b2 % 64 * 0x40 + b3 % 64 else 0xFFFE, 4))
    else None
  }

  predicate IsAlign(c: char) {
    c == '<' || c == '^' || c == '>'
  }

  function AlignOf(c: char): Align {
    if c == '<' then Left else if c == '^' then Center else if c == '>' then Right else Unspec
  }

  /** How far the parser is with the options of a fragment. */
  datatype Spec = Spec(args: Args, names: Names, nextFree: nat, rest: string)

  /** `[[fill]align]`: a fill character is one that an alignment follows. */
  function ParseAlign(p: Spec): (r: Option<Spec>)
    requires Bytes(p.rest)
    ensures r.Some? ==> LeftOf(r.value.rest, p.rest)
  {
    match ParseUtf8(p.rest)
    case None => None
    case Some(d) =>
      var p1 :=
        if d.length <= |p.rest| && d.ch != '}' as nat && IsAlign(At(p.rest, d.length))
        then p.(args := p.args.(fill := d.ch), rest := p.rest[d.length..])
        else p;
      if IsAlign(At(p1.rest, 0)) then Some(p1.(args := p1.args.(align := AlignOf(p1.rest[0])), rest := p1.rest[1..]))
      else Some(p1)
  }

  function ParseSign(p: Spec): (r: Spec)
    ensures LeftOf(r.rest, p.rest)
  {
    if At(p.rest, 0) == '+' then p.(args := p.args.(sign := Plus), rest := p.rest[1..])
    else if At(p.rest, 0) == '-' then p.(args := p.args.(sign := Minus), rest := p.rest[1..])
    else p
  }

  function ParseAlternate(p: Spec): (r: Spec)
    ensures LeftOf(r.rest, p.rest)
  {
    if At(p.rest, 0) == '#' then p.(args := p.args.(alternate := true), rest := p.rest[1..]) else p
  }

  /** Zero padding sets the fill as well; a `0` before `$` is left for the width. */
  function ParseZero(p: Spec): (r: Spec)
    ensures LeftOf(r.rest, p.rest)
  {
    if At(p.rest, 0) == '0' && At(p.rest, 1) != '$'
    then p.(args := p.args.(zeroPad := true, fill := '0' as nat), rest := p.rest[1..])
    else p
  }

  function ParseFlags(p: Spec): (r: Spec)
    ensures LeftOf(r.rest, p.rest)
  {
    ParseZero(ParseAlternate(ParseSign(p)))
  }

  datatype Slot = Slot(names: Names, at: nat)

  /** The place of a name; a new name gets the next place. */
  function GetNamed(names: Names, name: string): Slot {
    if name in names.index then Slot(names, names.index[name])
    else Slot(Names(names.index[name := |names.args|], names.args + [name]), |names.args|)
  }

  /** A number, or a name that `$` follows; anything else is left alone. */
  datatype Count = NoCount | Fixed(n: nat) | ArgNumber(n: nat) | ArgNamed(name: string)

  datatype CountAt = CountAt(count: Count, rest: string)

  function ReadCount(t: string): (r: CountAt)
    ensures LeftOf(r.rest, t)
  {
    if Decimal.IsDigit(At(t, 0)) then
      var n := ReadNumber(t, 0);
      if At(n.rest, 0) == '$' then CountAt(ArgNumber(n.value), n.rest[1..]) else CountAt(Fixed(n.value), n.rest)
    else if IsAlpha(At(t, 0)) then
      var k := NameLength(t);
      if At(t, k) == '$' then CountAt(ArgNamed(t[..k]), t[k + 1..]) else CountAt(NoCount, t)
    else CountAt(NoCount, t)
  }

  function ParseWidth(p: Spec, nFree: nat): (r: Spec)
    ensures LeftOf(r.rest, p.rest)
  {
    var c := ReadCount(p.rest);
    match c.count
    case NoCount => p.(rest := c.rest)
    case Fixed(n) => p.(args := p.args.(width := n), rest := c.rest)
    case ArgNumber(n) => p.(args := p.args.(width := n, widthIsArg := true), rest := c.rest)
    case ArgNamed(name) =>
      var g := GetNamed(p.names, name);
      p.(args := p.args.(width := nFree + g.at, widthIsArg := true), names := g.names, rest := c.rest)
  }

  /** `[.precision]`; after `.*` the `*` is still there. */
  function ParsePrecision(p: Spec, nFree: nat): (r: Option<Spec>)
    ensures r.Some? ==> LeftOf(r.value.rest, p.rest)
  {
    if At(p.rest, 0) != '.' then Some(p)
    else
      var t := p.rest[1..];
      if At(t, 0) == '*' then
        if p.nextFree == nFree then None
        else Some(p.(args := p.args.(prec := p.nextFree, precIsArg := true), nextFree := p.nextFree + 1, rest := t))
      else if !Decimal.IsDigit(At(t, 0)) && !IsAlpha(At(t, 0)) then None
      else
        var c := ReadCount(t);
        match c.count
        case NoCount => Some(p.(rest := c.rest))
        case Fixed(n) => Some(p.(args := p.args.(prec := n), rest := c.rest))
        case ArgNumber(n) => Some(p.(args := p.args.(prec := n, precIsArg := true), rest := c.rest))
        case ArgNamed(name) =>
          var g := GetNamed(p.names, name);
          Some(p.(args := p.args.(prec := nFree + g.at, precIsArg := true), names := g.names, rest := c.rest))
  }

  function TraitOf(c: char): string {
    if c == '?' then "Debug" else if c == 'b' then "Binary" else if c == 'o' then "Octal"
    else if c == 'x' then "LowerHex" else if c == 'X' then "UpperHex" else if c == 'p' then "Pointer"
    else if c == 'e' then "LowerExp" else if c == 'E' then "UpperExp" else ""
  }

  datatype Typed = Typed(traitName: string, args: Args, rest: string)

  /** The type at the end of a fragment.  What is left starts at the closing brace, except after `x?` and `X?`,
      where nothing is taken. */
  function ParseTrait(args: Args, t: string): (r: Option<Typed>)
    ensures r.Some? ==> r.value.rest != [] && LeftOf(r.value.rest, t)
  {
    if t == [] then None
    else if At(t, 0) == '}' then Some(Typed("Display", args, t))
    else if At(t, 1) == '}' then
      if TraitOf(t[0]) == "" then None else Some(Typed(TraitOf(t[0]), args, t[1..]))
    else if At(t, 1) == '?' && At(t, 2) == '}' && t[0] == 'x' then Some(Typed("Debug", args.(debug := LowerHexDebug), t))
    else if At(t, 1) == '?' && At(t, 2) == '}' && t[0] == 'X' then Some(Typed("Debug", args.(debug := UpperHexDebug), t))
    else None
  }

  /** Which argument a fragment starts with: an index, the index of a name, or none. */
  datatype Arg = Arg(index: Option<nat>, names: Names, rest: string)

  function ParseArg(t: string, names: Names, nFree: nat): (r: Option<Arg>)
    ensures r.Some? ==> LeftOf(r.value.rest, t)
  {
    if At(t, 0) == ':' || At(t, 0) == '}' then Some(Arg(None, names, t))
    else if Decimal.IsDigit(At(t, 0)) then
      var n := ReadNumber(t, 0);
      if n.value >= nFree then None else Some(Arg(Some(n.value), names, n.rest))
    else
      var k := NameLength(t);
      var g := GetNamed(names, t[..k]);
      Some(Arg(Some(nFree + g.at), g.names, t[k..]))
  }

  function ParseSpec(p: Spec, nFree: nat): (r: Option<Spec>)
    requires Bytes(p.rest)
    ensures r.Some? ==> LeftOf(r.value.rest, p.rest)
  {
    match ParseAlign(p)
    case None => None
    case Some(p1) => ParsePrecision(ParseWidth(ParseFlags(p1), nFree), nFree)
  }

  datatype OneFrag = OneFrag(index: nat, traitName: string, args: Args, names: Names, nextFree: nat, rest: string)

  /** A fragment, from after its opening brace; what is left starts at its last character. */
  function ParseFrag(t: string, names: Names, nextFree: nat, nFree: nat): (r: Option<OneFrag>)
    requires Bytes(t)
    ensures r.Some? ==> r.value.rest != [] && LeftOf(r.value.rest, t)
  {
    match ParseArg(t, names, nFree)
    case None => None
    case Some(a) => ParseOptions(a, nextFree, nFree)
  }

  /** A fragment, from after its argument. */
  function ParseOptions(a: Arg, nextFree: nat, nFree: nat): (r: Option<OneFrag>)
    requires Bytes(a.rest)
    ensures r.Some? ==> r.value.rest != [] && LeftOf(r.value.rest, a.rest)
  {
    if At(a.rest, 0) == ':' then
      match ParseSpec(Spec(DEFAULTS, a.names, nextFree, a.rest[1..]), nFree)
      case None => None
      case Some(p) =>
        match ParseTrait(p.args, p.rest)
        case None => None
        case Some(d) => Indexed(a.index, d.traitName, d.args, p.names, p.nextFree, d.rest, nFree)
    else if At(a.rest, 0) != '}' then None
    else Indexed(a.index, "Display", DEFAULTS, a.names, nextFree, a.rest, nFree)
  }

  /** A fragment that names no argument takes the next free one. */
  function Indexed(index: Option<nat>, traitName: string, args: Args, names: Names, nextFree: nat, rest: string, nFree: nat): Option<OneFrag> {
    if index.Some? then Some(OneFrag(index.value, traitName, args, names, nextFree, rest))
    else if nextFree == nFree then None
    else Some(OneFrag(nextFree, traitName, args, names, nextFree + 1, rest))
  }

  /** The whole string: literal text, in which braces are doubled, and fragments. */
  function Parse(t: string, literal: string, frags: seq<Frag>, names: Names, nextFree: nat, nFree: nat): Option<Parsed>
    requires Bytes(t)
    decreases |t|
  {
    if t == [] then Some(Parsed(frags, literal, names))
    else if t[0] != '{' then
      Parse(if t[0] == '}' && At(t, 1) == '}' then t[2..] else t[1..], literal + [t[0]], frags, names, nextFree, nFree)
    else if At(t, 1) == '{' then Parse(t[2..], literal + "{", frags, names, nextFree, nFree)
    else
      match ParseFrag(t[1..], names, nextFree, nFree)
      case None => None
      case Some(f) =>
        Parse(f.rest[1..], [], frags + [Frag(literal, f.index, f.traitName, f.args)], f.names, f.nextFree, nFree)
  }
}
