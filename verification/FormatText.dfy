/** Format strings as they are written, and what they mean: the reference that the parser is held against. */
module FormatText {
  import opened Wrappers
  import opened Utf8
  import opened FormatArgs
  import Decimal

  datatype ArgRef = Next | Position(n: nat) | ByName(name: string)

  datatype Kind =
    | Display | Debug | Binary | Octal | LowerHex | UpperHex | Pointer | LowerExp | UpperExp
    | DebugLowerHex | DebugUpperHex

  datatype Options = Options(
    align: Align, fill: nat, sign: Sign, alternate: bool, zeroPad: bool, width: Count, prec: Count, kind: Kind)

  /** A fragment and the literal text before it.  A bare one is written without a colon. */
  datatype Written = Written(text: string, arg: ArgRef, bare: bool, o: Options)

  const PLAIN := Options(Unspec, ' ' as nat, NoSign, false, false, NoCount, NoCount, Display)

  // ----- text

  /** Literal text, its braces doubled. */
  function Escape(t: string): string {
    if t == [] then []
    else if t[0] == '{' || t[0] == '}' then [t[0], t[0]] + Escape(t[1..])
    else [t[0]] + Escape(t[1..])
  }

  function ArgText(a: ArgRef): string {
    match a
    case Next => ""
    case Position(n) => Decimal.Render(n)
    case ByName(name) => name
  }

  function AlignText(a: Align): string {
    match a
    case Unspec => ""
    case Left => "<"
    case Center => "^"
    case Right => ">"
  }

  function FillText(fill: nat): string
    requires fill < 0x110000
  {
    if fill == ' ' as nat then "" else Encode(fill)
  }

  function SignText(sign: Sign): string {
    match sign
    case NoSign => ""
    case Plus => "+"
    case Minus => "-"
  }

  function AlternateText(alternate: bool): string {
    if alternate then "#" else ""
  }

  function ZeroText(zeroPad: bool): string {
    if zeroPad then "0" else ""
  }

  function CountText(c: Count): string {
    match c
    case NoCount => ""
    case Fixed(n) => Decimal.Render(n)
    case ArgNumber(n) => Decimal.Render(n) + "$"
    case ArgNamed(name) => name + "$"
  }

  function PrecisionText(c: Count): string {
    if c.NoCount? then "" else "." + CountText(c)
  }

  function KindText(k: Kind): string {
    match k
    case Display => ""
    case Debug => "?"
    case Binary => "b"
    case Octal => "o"
    case LowerHex => "x"
    case UpperHex => "X"
    case Pointer => "p"
    case LowerExp => "e"
    case UpperExp => "E"
    case DebugLowerHex => "x?"
    case DebugUpperHex => "X?"
  }

  function SpecText(o: Options): string
    requires o.fill < 0x110000
  {
    FillText(o.fill) + (AlignText(o.align) + (SignText(o.sign) + (AlternateText(o.alternate) + (ZeroText(o.zeroPad)
    + (CountText(o.width) + (PrecisionText(o.prec) + KindText(o.kind)))))))
  }

  /** Between the braces. */
  function FragText(w: Written): string
    requires w.o.fill < 0x110000
  {
    ArgText(w.arg) + (if w.bare then "" else ":" + SpecText(w.o))
  }

  function Render(ws: seq<Written>, tail: string): string
    requires forall i :: 0 <= i < |ws| ==> ws[i].o.fill < 0x110000
  {
    if ws == [] then Escape(tail)
    else Escape(ws[0].text) + ("{" + (FragText(ws[0]) + ("}" + Render(ws[1..], tail))))
  }

  // ----- which texts are meant

  /** A name is made of ASCII letters, digits, `_` and whatever is not ASCII, and starts with no digit. */
  predicate IsName(name: string) {
    && Bytes(name) && name != [] && !('0' <= name[0] <= '9')
    && forall i :: 0 <= i < |name| ==>
       || 'a' <= name[i] <= 'z' || 'A' <= name[i] <= 'Z' || '0' <= name[i] <= '9' || name[i] == '_' || name[i] as int >= 0x80
  }

  predicate CanonicalCount(c: Count) {
    match c
    case NoCount => true
    case Fixed(n) => n <= 0xFFFF_FFFF
    case ArgNumber(n) => n <= 0xFFFF_FFFF
    case ArgNamed(name) => IsName(name) && ('a' <= name[0] <= 'z' || 'A' <= name[0] <= 'Z')
  }

  /** A fill character goes with an alignment, and zero padding with the fill that it implies; a width of nothing
      is left out. */
  predicate Canonical(o: Options) {
    && IsScalar(o.fill) && o.fill != '}' as nat
    && (o.fill == ' ' as nat || (!o.align.Unspec? && !o.zeroPad))
    && CanonicalCount(o.width) && o.width != Fixed(0) && CanonicalCount(o.prec)
  }

  predicate CanonicalFrag(w: Written) {
    && Bytes(w.text) && Canonical(w.o) && (w.bare ==> w.o == PLAIN)
    && match w.arg
       case Next => true
       case Position(n) => n <= 0xFFFF_FFFF
       case ByName(name) => IsName(name)
  }

  ghost predicate CanonicalText(ws: seq<Written>, tail: string) {
    Bytes(tail) && forall i :: 0 <= i < |ws| ==> CanonicalFrag(ws[i])
  }

  // ----- what they mean

  function TraitName(k: Kind): string {
    match k
    case Display => "Display"
    case Debug => "Debug"
    case Binary => "Binary"
    case Octal => "Octal"
    case LowerHex => "LowerHex"
    case UpperHex => "UpperHex"
    case Pointer => "Pointer"
    case LowerExp => "LowerExp"
    case UpperExp => "UpperExp"
    case DebugLowerHex => "Debug"
    case DebugUpperHex => "Debug"
  }

  function StyleOf(k: Kind): DebugStyle {
    if k.DebugLowerHex? then LowerHexDebug else if k.DebugUpperHex? then UpperHexDebug else Normal
  }

  /** A count, with the argument that a name stands for. */
  datatype Counted = Counted(isArg: bool, n: nat, names: Names)

  function CountArg(c: Count, names: Names, nFree: nat): Counted {
    match c
    case NoCount => Counted(false, 0, names)
    case Fixed(n) => Counted(false, n, names)
    case ArgNumber(n) => Counted(true, n, names)
    case ArgNamed(name) => var g := GetNamed(names, name); Counted(true, nFree + g.at, g.names)
  }

  /** The options, with the names looked up in the order in which they are written: width, then precision. */
  function OptionArgs(o: Options, names: Names, nFree: nat): (Args, Names) {
    var w := CountArg(o.width, names, nFree);
    var p := CountArg(o.prec, w.names, nFree);
    (Args(o.align, if o.zeroPad then '0' as nat else o.fill, o.sign, o.alternate, o.zeroPad, StyleOf(o.kind),
          w.isArg, w.n, p.isArg, p.n), p.names)
  }

  datatype Meaning = Meaning(index: nat, args: Args, names: Names, nextFree: nat)

  /** The argument that is named, if any. */
  datatype Ref = Ref(index: Option<nat>, names: Names)

  function RefIndex(a: ArgRef, names: Names, nFree: nat): Option<Ref> {
    match a
    case Next => Some(Ref(None, names))
    case Position(n) => if n >= nFree then None else Some(Ref(Some(n), names))
    case ByName(name) => var g := GetNamed(names, name); Some(Ref(Some(nFree + g.at), g.names))
  }

  function Mean(w: Written, names: Names, nextFree: nat, nFree: nat): Option<Meaning> {
    match RefIndex(w.arg, names, nFree)
    case None => None
    case Some(i) =>
      var (args, names1) := OptionArgs(w.o, i.names, nFree);
      if i.index.Some? then Some(Meaning(i.index.value, args, names1, nextFree))
      else if nextFree == nFree then None
      else Some(Meaning(nextFree, args, names1, nextFree + 1))
  }

  predicate HexDebug(k: Kind) {
    k.DebugLowerHex? || k.DebugUpperHex?
  }

  /** What is left over after a fragment and runs into the text after it. */
  function Stray(k: Kind): string {
    if HexDebug(k) then "?}" else ""
  }

  /** The fragments and the tail that are meant, each text after what strays into it. */
  function MeanAll(ws: seq<Written>, tail: string, stray: string, frags: seq<Frag>, names: Names, nextFree: nat, nFree: nat): Option<Parsed>
    decreases |ws|
  {
    if ws == [] then Some(Parsed(frags, stray + tail, names))
    else
      match Mean(ws[0], names, nextFree, nFree)
      case None => None
      case Some(m) =>
        var f := Frag(stray + ws[0].text, m.index, TraitName(ws[0].o.kind), m.args);
        MeanAll(ws[1..], tail, Stray(ws[0].o.kind), frags + [f], m.names, m.nextFree, nFree)
  }
}
