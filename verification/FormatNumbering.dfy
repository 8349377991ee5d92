/** How the parser of format strings numbers arguments, on any string whatever. */
module FormatNumbering {
  import opened Sequences
  import opened Wrappers
  import opened Utf8
  import opened FormatArgs
  import opened FormatText
  import opened FormatRoundTrip
  import Decimal

  /** The map of names and the list of named arguments are inverse to each other. */
  ghost predicate OneToOne(names: Names) {
    && (forall n :: n in names.index ==> names.index[n] < |names.args| && names.args[names.index[n]] == n)
    && (forall i :: 0 <= i < |names.args| ==> names.args[i] in names.index && names.index[names.args[i]] == i)
  }

  /** Named arguments are only ever added, at the end. */
  ghost predicate Grows(a: Names, b: Names) {
    OneToOne(b) && a.args <= b.args
  }

  /** A known name keeps its place, a new one is added once. */
  lemma GetNamedOnce(names: Names, name: string)
    requires OneToOne(names)
    ensures
      var g := GetNamed(names, name);
      && Grows(names, g.names) && g.at < |g.names.args| && g.names.args[g.at] == name
      && g.names.args == (if name in names.args then names.args else names.args + [name])
      && GetNamed(g.names, name) == g
  {
    var g := GetNamed(names, name);
    if name !in names.index {
      assert forall i :: 0 <= i < |names.args| ==> g.names.args[i] == names.args[i];
      assert g.names.args[|names.args|] == name;
    } else {
      assert names.args[names.index[name]] == name;
    }
  }

  lemma GrowsOn(a: Names, b: Names, c: Names)
    requires Grows(a, b) && Grows(b, c)
    ensures Grows(a, c)
  {
  }

  // ----- what the fragments of a string say of their arguments

  /** The name in front of the colon, if there is one; the width; the precision, and whether it is a star. */
  datatype Use = Use(name: Option<string>, width: Count, prec: Count, star: bool)

  /** The options as far as they are read when the precision comes. */
  function BeforePrecision(p: Spec, nFree: nat): Option<Spec>
    requires Bytes(p.rest)
  {
    match ParseAlign(p)
    case None => None
    case Some(p1) => Some(ParseWidth(ParseFlags(p1), nFree))
  }

  function WidthSaid(p: Spec): Count
    requires Bytes(p.rest)
  {
    match ParseAlign(p)
    case None => NoCount
    case Some(p1) => ReadCount(ParseFlags(p1).rest).count
  }

  function PrecisionSaid(q: Spec): Count {
    if At(q.rest, 0) == '.' then ReadCount(q.rest[1..]).count else NoCount
  }

  predicate StarSaid(q: Spec) {
    At(q.rest, 0) == '.' && At(q.rest, 1) == '*'
  }

  function NameSaid(t: string): Option<string> {
    if At(t, 0) == ':' || At(t, 0) == '}' || Decimal.IsDigit(At(t, 0)) then None else Some(t[..NameLength(t)])
  }

  /** What a fragment says, from after its opening brace. */
  function UseOf(t: string, names: Names, nextFree: nat, nFree: nat): Use
    requires Bytes(t)
  {
    match ParseArg(t, names, nFree)
    case None => Use(NameSaid(t), NoCount, NoCount, false)
    case Some(a) =>
      if At(a.rest, 0) != ':' then Use(NameSaid(t), NoCount, NoCount, false)
      else
        var p := Spec(DEFAULTS, a.names, nextFree, a.rest[1..]);
        match BeforePrecision(p, nFree)
        case None => Use(NameSaid(t), NoCount, NoCount, false)
        case Some(q) => Use(NameSaid(t), WidthSaid(p), PrecisionSaid(q), StarSaid(q))
  }

  /** What the fragments of a whole string say, as the parser comes to them. */
  function Uses(t: string, names: Names, nextFree: nat, nFree: nat): seq<Use>
    requires Bytes(t)
    decreases |t|
  {
    if t == [] then []
    else if t[0] != '{' then Uses(if t[0] == '}' && At(t, 1) == '}' then t[2..] else t[1..], names, nextFree, nFree)
    else if At(t, 1) == '{' then Uses(t[2..], names, nextFree, nFree)
    else
      [UseOf(t[1..], names, nextFree, nFree)] +
      match ParseFrag(t[1..], names, nextFree, nFree)
      case None => []
      case Some(f) => Uses(f.rest[1..], f.names, f.nextFree, nFree)
  }

  // ----- and which arguments they get

  /** The number is that of the named argument of that name. */
  predicate Stands(n: nat, name: string, names: Names, nFree: nat) {
    nFree <= n < nFree + |names.args| && names.args[n - nFree] == name
  }

  predicate CountStands(c: Count, isArg: bool, n: nat, names: Names, nFree: nat) {
    match c
    case NoCount => !isArg && n == 0
    case Fixed(k) => !isArg && n == k
    case ArgNumber(k) => isArg && n == k
    case ArgNamed(name) => isArg && Stands(n, name, names, nFree)
  }

  /** A fragment has an argument that there is, the one of the name that it says; so have a width and a precision
      that are given by name. */
  predicate Resolved(index: nat, args: Args, u: Use, names: Names, nFree: nat) {
    && !u.star
    && index < nFree + |names.args|
    && (u.name.Some? ==> Stands(index, u.name.value, names, nFree))
    && CountStands(u.width, args.widthIsArg, args.width, names, nFree)
    && CountStands(u.prec, args.precIsArg, args.prec, names, nFree)
  }

  lemma StaysResolved(index: nat, args: Args, u: Use, a: Names, b: Names, nFree: nat)
    requires Resolved(index, args, u, a, nFree) && a.args <= b.args
    ensures Resolved(index, args, u, b, nFree)
  {
  }

  lemma WidthNumber(p: Spec, nFree: nat)
    requires OneToOne(p.names) && !p.args.widthIsArg && p.args.width == 0
    ensures
      var q := ParseWidth(p, nFree);
      && Grows(p.names, q.names) && q.nextFree == p.nextFree
      && CountStands(ReadCount(p.rest).count, q.args.widthIsArg, q.args.width, q.names, nFree)
      && q.args.precIsArg == p.args.precIsArg && q.args.prec == p.args.prec
  {
    var c := ReadCount(p.rest).count;
    if c.ArgNamed? {
      GetNamedOnce(p.names, c.name);
    }
  }

  /** A precision that is a count and not a star. */
  lemma PrecisionCount(p: Spec, nFree: nat)
    requires OneToOne(p.names) && !p.args.precIsArg && p.args.prec == 0 && At(p.rest, 0) == '.' && !StarSaid(p)
    ensures
      var q := ParsePrecision(p, nFree);
      q.Some? ==>
        && Grows(p.names, q.value.names) && q.value.nextFree == p.nextFree
        && CountStands(ReadCount(p.rest[1..]).count, q.value.args.precIsArg, q.value.args.prec, q.value.names, nFree)
  {
    assert At(p.rest, 1) == At(p.rest[1..], 0);
    var c := ReadCount(p.rest[1..]).count;
    if c.ArgNamed? {
      GetNamedOnce(p.names, c.name);
    }
  }

  lemma PrecisionWidth(p: Spec, nFree: nat)
    requires ParsePrecision(p, nFree).Some?
    ensures var q := ParsePrecision(p, nFree).value; q.args.widthIsArg == p.args.widthIsArg && q.args.width == p.args.width
    ensures At(p.rest, 0) == '.' && StarSaid(p) ==>
              var q := ParsePrecision(p, nFree).value; q.names == p.names && p.nextFree != nFree && q.nextFree == p.nextFree + 1
  {
    if At(p.rest, 0) == '.' {
      assert At(p.rest, 1) == At(p.rest[1..], 0);
    }
  }

  lemma PrecisionNumber(p: Spec, nFree: nat)
    requires OneToOne(p.names) && p.nextFree <= nFree && !p.args.precIsArg && p.args.prec == 0
    ensures
      var q := ParsePrecision(p, nFree);
      q.Some? ==>
        && Grows(p.names, q.value.names) && p.nextFree <= q.value.nextFree <= nFree
        && (!StarSaid(p) ==> CountStands(PrecisionSaid(p), q.value.args.precIsArg, q.value.args.prec, q.value.names, nFree))
        && q.value.args.widthIsArg == p.args.widthIsArg && q.value.args.width == p.args.width
  {
    if ParsePrecision(p, nFree).Some? {
      PrecisionWidth(p, nFree);
      if At(p.rest, 0) == '.' && !StarSaid(p) {
        PrecisionCount(p, nFree);
      }
    }
  }

  predicate SameCounts(p: Spec, q: Spec) {
    && q.names == p.names && q.nextFree == p.nextFree
    && q.args.widthIsArg == p.args.widthIsArg && q.args.width == p.args.width
    && q.args.precIsArg == p.args.precIsArg && q.args.prec == p.args.prec
  }

  /** Alignment and flags leave names and counts alone. */
  lemma AlignKeeps(p: Spec)
    requires Bytes(p.rest) && ParseAlign(p).Some?
    ensures SameCounts(p, ParseAlign(p).value)
  {
  }

  lemma FlagsKeep(p: Spec)
    ensures SameCounts(p, ParseFlags(p))
  {
    assert SameCounts(p, ParseSign(p));
    assert SameCounts(p, ParseAlternate(ParseSign(p)));
  }

  lemma CountStaysAsItWas(c: Count, isArg: bool, n: nat, a: Names, b: Names, nFree: nat)
    requires CountStands(c, isArg, n, a, nFree) && a.args <= b.args
    ensures CountStands(c, isArg, n, b, nFree)
  {
  }

  lemma SpecNumber(p: Spec, nFree: nat)
    requires Bytes(p.rest) && OneToOne(p.names) && p.nextFree <= nFree
    requires !p.args.widthIsArg && p.args.width == 0 && !p.args.precIsArg && p.args.prec == 0
    ensures
      var q, r := BeforePrecision(p, nFree), ParseSpec(p, nFree);
      r.Some? ==>
        && q.Some? && r == ParsePrecision(q.value, nFree)
        && Grows(p.names, r.value.names) && p.nextFree <= r.value.nextFree <= nFree
        && CountStands(WidthSaid(p), r.value.args.widthIsArg, r.value.args.width, r.value.names, nFree)
        && (!StarSaid(q.value) ==>
              CountStands(PrecisionSaid(q.value), r.value.args.precIsArg, r.value.args.prec, r.value.names, nFree))
  {
    var a := ParseAlign(p);
    if a.Some? {
      AlignKeeps(p);
      FlagsKeep(a.value);
      var f := ParseFlags(a.value);
      var q := ParseWidth(f, nFree);
      WidthNumber(f, nFree);
      PrecisionNumber(q, nFree);
      var r := ParsePrecision(q, nFree);
      if r.Some? {
        CountStaysAsItWas(WidthSaid(p), q.args.widthIsArg, q.args.width, q.names, r.value.names, nFree);
        GrowsOn(p.names, q.names, r.value.names);
      }
    }
  }

  /** The star of `.*` is not taken, and no type starts with a star. */
  lemma StarLeft(q: Spec, nFree: nat)
    requires StarSaid(q)
    ensures
      var r := ParsePrecision(q, nFree);
      r.None? || ParseTrait(r.value.args, r.value.rest).None?
  {
  }

  /** So a fragment with `.*` is always an error, however many arguments there are. */
  lemma StarPrecisionFails(t: string, names: Names, nextFree: nat, nFree: nat)
    requires Bytes(t) && UseOf(t, names, nextFree, nFree).star
    ensures ParseFrag(t, names, nextFree, nFree).None?
  {
    var a := ParseArg(t, names, nFree).value;
    var p := Spec(DEFAULTS, a.names, nextFree, a.rest[1..]);
    StarLeft(BeforePrecision(p, nFree).value, nFree);
  }

  lemma FragFails(t: string, names: Names, nextFree: nat, nFree: nat)
    requires Bytes(t) && t != [] && t[0] == '{' && At(t, 1) != '{' && ParseFrag(t[1..], names, nextFree, nFree).None?
    ensures Parse(t, "", [], names, nextFree, nFree) == None
  {
  }

  /** The text of `{:.*}` after its colon is left alone up to the precision. */
  lemma StarReached(p: Spec)
    requires p.rest == ".*}"
    ensures ReadCount(p.rest) == CountAt(NoCount, p.rest)
    ensures ParseAlign(p) == Some(p) && ParseFlags(p) == p && ParseWidth(p, 2) == p && BeforePrecision(p, 2) == Some(p)
  {
    assert p.rest[0] == '.' && p.rest[1] == '*';
  }

  /** `{:.*}` with two arguments, as many as it needs. */
  lemma StarWithArguments()
    ensures Parse("{:.*}", "", [], Names(map[], []), 0, 2) == None
  {
    var none := Names(map[], []);
    var t, u := ":.*}", ".*}";
    assert "{:.*}"[1..] == t && t[1..] == u && t[0] == ':';
    StarReached(Spec(DEFAULTS, none, 0, u));
    assert ParseArg(t, none, 2) == Some(Arg(None, none, t));
    StarPrecisionFails(t, none, 0, 2);
    FragFails("{:.*}", none, 0, 2);
  }

  lemma ArgNumber(t: string, names: Names, nFree: nat)
    requires OneToOne(names)
    ensures
      var a := ParseArg(t, names, nFree);
      a.Some? ==>
        && Grows(names, a.value.names)
        && (a.value.index.Some? ==> a.value.index.value < nFree + |a.value.names.args|)
        && (NameSaid(t).Some? ==>
              a.value.index.Some? && Stands(a.value.index.value, NameSaid(t).value, a.value.names, nFree))
  {
    if NameSaid(t).Some? {
      GetNamedOnce(names, NameSaid(t).value);
    }
  }

  /** The type leaves the counts alone. */
  lemma TypeKeeps(args: Args, t: string)
    ensures
      var d := ParseTrait(args, t);
      d.Some? ==> d.value.args == args.(debug := d.value.args.debug)
  {
  }

  lemma OptionsSteps(a: Arg, nextFree: nat, nFree: nat, r: Spec)
    requires Bytes(a.rest) && At(a.rest, 0) == ':'
    requires ParseSpec(Spec(DEFAULTS, a.names, nextFree, a.rest[1..]), nFree) == Some(r)
    ensures
      var d := ParseTrait(r.args, r.rest);
      ParseOptions(a, nextFree, nFree) ==
      if d.None? then None
      else Indexed(a.index, d.value.traitName, d.value.args, r.names, r.nextFree, d.value.rest, nFree)
  {
  }

  lemma OptionsNumber(a: Arg, nextFree: nat, nFree: nat, u: Use)
    requires Bytes(a.rest) && At(a.rest, 0) == ':' && OneToOne(a.names) && nextFree <= nFree
    requires
      var p := Spec(DEFAULTS, a.names, nextFree, a.rest[1..]);
      var q := BeforePrecision(p, nFree);
      q.Some? ==> u.width == WidthSaid(p) && u.prec == PrecisionSaid(q.value) && u.star == StarSaid(q.value)
    requires a.index.Some? ==> a.index.value < nFree + |a.names.args|
    requires u.name.Some? ==> a.index.Some? && Stands(a.index.value, u.name.value, a.names, nFree)
    ensures
      var f := ParseOptions(a, nextFree, nFree);
      f.Some? ==>
        && Grows(a.names, f.value.names) && nextFree <= f.value.nextFree <= nFree
        && Resolved(f.value.index, f.value.args, u, f.value.names, nFree)
  {
    var p := Spec(DEFAULTS, a.names, nextFree, a.rest[1..]);
    SpecNumber(p, nFree);
    var r := ParseSpec(p, nFree);
    if r.Some? {
      TypeKeeps(r.value.args, r.value.rest);
      OptionsSteps(a, nextFree, nFree, r.value);
      if u.star {
        StarLeft(BeforePrecision(p, nFree).value, nFree);
      }
    }
  }

  /** A fragment gets the arguments that it says, and each free argument at most once on its own. */
  lemma FragNumber(t: string, names: Names, nextFree: nat, nFree: nat)
    requires Bytes(t) && OneToOne(names) && nextFree <= nFree
    ensures
      var f := ParseFrag(t, names, nextFree, nFree);
      f.Some? ==>
        && Grows(names, f.value.names) && nextFree <= f.value.nextFree <= nFree
        && Resolved(f.value.index, f.value.args, UseOf(t, names, nextFree, nFree), f.value.names, nFree)
  {
    ArgNumber(t, names, nFree);
    var a := ParseArg(t, names, nFree);
    if a.Some? && At(a.value.rest, 0) == ':' {
      OptionsNumber(a.value, nextFree, nFree, UseOf(t, names, nextFree, nFree));
      if ParseOptions(a.value, nextFree, nFree).Some? {
        GrowsOn(names, a.value.names, ParseOptions(a.value, nextFree, nFree).value.names);
      }
    }
  }

  ghost predicate AllResolved(frags: seq<Frag>, us: seq<Use>, names: Names, nFree: nat) {
    |frags| == |us| && forall i :: 0 <= i < |frags| ==> Resolved(frags[i].index, frags[i].args, us[i], names, nFree)
  }

  lemma OneMoreResolved(frags: seq<Frag>, us: seq<Use>, f: Frag, u: Use, a: Names, b: Names, nFree: nat)
    requires AllResolved(frags, us, a, nFree) && a.args <= b.args && Resolved(f.index, f.args, u, b, nFree)
    ensures AllResolved(frags + [f], us + [u], b, nFree)
  {
    forall i | 0 <= i < |frags|
      ensures Resolved(frags[i].index, frags[i].args, us[i], b, nFree)
    {
      StaysResolved(frags[i].index, frags[i].args, us[i], a, b, nFree);
    }
  }

  /** Over every string that is parsed: names and named arguments stay inverse to each other, the arguments that
      were given stay where they are, and in the end every fragment, and every width and precision that is given by
      name, has the argument that it says.  No fragment has a `.*`. */
  lemma {:induction false} ParseNumbers(t: string, lit: string, frags: seq<Frag>, us: seq<Use>, names: Names, nextFree: nat, nFree: nat)
    requires Bytes(t) && OneToOne(names) && nextFree <= nFree && AllResolved(frags, us, names, nFree)
    ensures
      var r := Parse(t, lit, frags, names, nextFree, nFree);
      r.Some? ==> Grows(names, r.value.names) && AllResolved(r.value.frags, us + Uses(t, names, nextFree, nFree), r.value.names, nFree)
    decreases |t|
  {
    if t == [] {
      assert us + [] == us;
    } else if t[0] != '{' {
      ParseNumbers(if t[0] == '}' && At(t, 1) == '}' then t[2..] else t[1..], lit + [t[0]], frags, us, names, nextFree, nFree);
    } else if At(t, 1) == '{' {
      ParseNumbers(t[2..], lit + "{", frags, us, names, nextFree, nFree);
    } else {
      FragNumber(t[1..], names, nextFree, nFree);
      var f := ParseFrag(t[1..], names, nextFree, nFree);
      if f.Some? {
        var g := Frag(lit, f.value.index, f.value.traitName, f.value.args);
        var u := UseOf(t[1..], names, nextFree, nFree);
        OneMoreResolved(frags, us, g, u, names, f.value.names, nFree);
        ParseNumbers(f.value.rest[1..], [], frags + [g], us + [u], f.value.names, f.value.nextFree, nFree);
        Assoc(us, [u], Uses(f.value.rest[1..], f.value.names, f.value.nextFree, nFree));
      }
    }
  }

  // ----- fragments that name no argument

  function NextCount(ws: seq<Written>): nat {
    if ws == [] then 0 else NextCount(ws[..|ws| - 1]) + if ws[|ws| - 1].arg.Next? then 1 else 0
  }

  lemma {:induction false} NextCountCons(w: Written, ws: seq<Written>)
    ensures NextCount([w] + ws) == (if w.arg.Next? then 1 else 0) + NextCount(ws)
    decreases ws
  {
    var all := [w] + ws;
    if ws == [] {
      assert all[..|all| - 1] == [];
    } else {
      assert all[..|all| - 1] == [w] + ws[..|ws| - 1];
      NextCountCons(w, ws[..|ws| - 1]);
    }
  }

  function Said(w: Written): Use {
    Use(if w.arg.ByName? then Some(w.arg.name) else None, w.o.width, w.o.prec, false)
  }

  lemma CountMeans(c: Count, names: Names, nFree: nat)
    requires OneToOne(names)
    ensures
      var m := CountArg(c, names, nFree);
      Grows(names, m.names) && CountStands(c, m.isArg, m.n, m.names, nFree)
  {
    if c.ArgNamed? {
      GetNamedOnce(names, c.name);
    }
  }

  lemma OptionsMean(o: Options, names: Names, nFree: nat)
    requires OneToOne(names)
    ensures
      var (args, b) := OptionArgs(o, names, nFree);
      && Grows(names, b)
      && CountStands(o.width, args.widthIsArg, args.width, b, nFree)
      && CountStands(o.prec, args.precIsArg, args.prec, b, nFree)
  {
    var w := CountArg(o.width, names, nFree);
    CountMeans(o.width, names, nFree);
    CountMeans(o.prec, w.names, nFree);
    var p := CountArg(o.prec, w.names, nFree);
    CountStaysAsItWas(o.width, w.isArg, w.n, w.names, p.names, nFree);
    GrowsOn(names, w.names, p.names);
  }

  /** What one fragment means: the arguments that it says, and the next free one if it says none. */
  lemma MeaningNumber(w: Written, names: Names, nextFree: nat, nFree: nat)
    requires OneToOne(names) && nextFree <= nFree
    ensures
      var m := Mean(w, names, nextFree, nFree);
      m.Some? ==>
        && Grows(names, m.value.names) && nextFree <= m.value.nextFree <= nFree
        && Resolved(m.value.index, m.value.args, Said(w), m.value.names, nFree)
        && m.value.nextFree == nextFree + (if w.arg.Next? then 1 else 0)
        && (w.arg.Next? ==> m.value.index == nextFree < nFree)
  {
    var i := RefIndex(w.arg, names, nFree);
    if i.Some? {
      if w.arg.ByName? {
        GetNamedOnce(names, w.arg.name);
      }
      OptionsMean(w.o, i.value.names, nFree);
      GrowsOn(names, i.value.names, OptionArgs(w.o, i.value.names, nFree).1);
    }
  }

  /** The argument of fragment `j`, when `nextFree` free arguments are taken before the first. */
  ghost predicate TakesArgument(ws: seq<Written>, frags: seq<Frag>, at: nat, names: Names, nextFree: nat, nFree: nat, j: nat)
    requires j < |ws| && at + j < |frags|
  {
    var f := frags[at + j];
    && Resolved(f.index, f.args, Said(ws[j]), names, nFree)
    && (ws[j].arg.Next? ==> f.index == nextFree + NextCount(ws[..j]) < nFree)
  }

  lemma {:induction false} MeanNumbers(ws: seq<Written>, tail: string, stray: string, frags: seq<Frag>, names: Names, nextFree: nat, nFree: nat)
    requires OneToOne(names) && nextFree <= nFree
    ensures
      var r := MeanAll(ws, tail, stray, frags, names, nextFree, nFree);
      r.Some? ==>
        && Grows(names, r.value.names) && |r.value.frags| == |frags| + |ws| && frags <= r.value.frags
        && forall j :: 0 <= j < |ws| ==> TakesArgument(ws, r.value.frags, |frags|, r.value.names, nextFree, nFree, j)
    decreases |ws|
  {
    var m, r := if ws == [] then None else Mean(ws[0], names, nextFree, nFree), MeanAll(ws, tail, stray, frags, names, nextFree, nFree);
    if m.Some? {
      var f := Frag(stray + ws[0].text, m.value.index, TraitName(ws[0].o.kind), m.value.args);
      MeaningNumber(ws[0], names, nextFree, nFree);
      MeanNumbers(ws[1..], tail, Stray(ws[0].o.kind), frags + [f], m.value.names, m.value.nextFree, nFree);
      if r.Some? {
        forall j | 0 <= j < |ws|
          ensures TakesArgument(ws, r.value.frags, |frags|, r.value.names, nextFree, nFree, j)
        {
          NextTakes(ws, r.value.frags, frags, f, m.value, r.value.names, nextFree, nFree, j);
        }
      }
    }
  }

  lemma HeadOfPrefix(ws: seq<Written>, j: nat)
    requires 0 < j <= |ws|
    ensures ws[..j] == [ws[0]] + ws[1..][..j - 1]
  {
  }

  lemma NextTakes(ws: seq<Written>, all: seq<Frag>, frags: seq<Frag>, f: Frag, m: Meaning, names: Names, nextFree: nat, nFree: nat, j: nat)
    requires j < |ws| && |all| == |frags| + |ws| && frags + [f] <= all && m.names.args <= names.args
    requires f.index == m.index && f.args == m.args && Resolved(m.index, m.args, Said(ws[0]), m.names, nFree)
    requires m.nextFree == nextFree + (if ws[0].arg.Next? then 1 else 0) && (ws[0].arg.Next? ==> m.index == nextFree < nFree)
    requires j > 0 ==> TakesArgument(ws[1..], all, |frags| + 1, names, m.nextFree, nFree, j - 1)
    ensures TakesArgument(ws, all, |frags|, names, nextFree, nFree, j)
  {
    if j == 0 {
      assert (frags + [f])[|frags|] == f;
      assert all[|frags|] == f;
      assert ws[..0] == [];
      StaysResolved(m.index, m.args, Said(ws[0]), m.names, names, nFree);
    } else {
      NextCountCons(ws[0], ws[1..][..j - 1]);
      HeadOfPrefix(ws, j);
      assert |frags| + 1 + (j - 1) == |frags| + j;
    }
  }

  /** The parser on any string that is written out of fragments: in the final table, fragment `j` has the argument
      that it names, and so have its width and its precision; and the k-th fragment that names none takes free
      argument k, whatever stands between. */
  lemma WrittenArguments(ws: seq<Written>, tail: string, names: Names, nFree: nat, j: nat)
    requires CanonicalText(ws, tail) && OneToOne(names) && j < |ws|
    ensures
      var t := Render(ws, tail);
      && Bytes(t)
      && var r := Parse(t, "", [], names, 0, nFree);
         r.Some? ==> |r.value.frags| == |ws| && TakesArgument(ws, r.value.frags, 0, r.value.names, 0, nFree, j)
  {
    ParseWritten(ws, tail, "", [], names, 0, nFree);
    assert "" + Render(ws, tail) == Render(ws, tail);
    MeanNumbers(ws, tail, "", [], names, 0, nFree);
  }

  /** A width that is given by name, spelled out. */
  lemma NamedWidth(ws: seq<Written>, tail: string, names: Names, nFree: nat, j: nat)
    requires CanonicalText(ws, tail) && OneToOne(names) && j < |ws| && ws[j].o.width.ArgNamed?
    ensures
      var t := Render(ws, tail);
      && Bytes(t)
      && var r := Parse(t, "", [], names, 0, nFree);
         r.Some? ==>
           && |r.value.frags| == |ws| && r.value.frags[j].args.widthIsArg
           && nFree <= r.value.frags[j].args.width < nFree + |r.value.names.args|
           && r.value.names.args[r.value.frags[j].args.width - nFree] == ws[j].o.width.name
  {
    WrittenArguments(ws, tail, names, nFree, j);
  }
}
