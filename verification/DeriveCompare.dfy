/** `#[derive(PartialEq, PartialOrd, Ord)]`: the generated comparisons, and what they compare. */
module DeriveCompare {
  import opened Sequences
  import opened Wrappers
  import opened DeriveCode

  datatype Derived = PartialEq | PartialOrd | Ord

  // ----- the generated code

  function OptionArms(): seq<Arm> {
    [Arm(NonePat, Return(NoneLit)),
     Arm(SomePat(EqualPat), TupleOf([])),
     Arm(BindPat("res", false), Return(Name("res")))]
  }

  function OrderingArms(): seq<Arm> {
    [Arm(EqualPat, TupleOf([])), Arm(BindPat("res", false), Return(Name("res")))]
  }

  /** Compares two fields, and returns early if nothing more should be compared. */
  function CompareAndRet(t: Derived, v1: Expr, v2: Expr): Expr {
    match t
    case PartialEq => If(CallPath(NotEqual, [v1, v2]), Return(BoolLit(false)))
    case PartialOrd =>
      Match(CallPath(PartialCmp, [RefOf(v1), RefOf(v2)]), OptionArms())
    case Ord =>
      Match(CallPath(Cmp, [RefOf(v1), RefOf(v2)]), OrderingArms())
  }

  /** The result if no comparison returned early. */
  function EqualValue(t: Derived): Expr {
    match t
    case PartialEq => BoolLit(true)
    case PartialOrd => CallPath(SomeOf, [EqualLit])
    case Ord => EqualLit
  }

  /** The result for values of different variants. */
  function EnumMismatch(t: Derived): Expr {
    var discriminants :=
      [RefOf(CallPath(DiscriminantValue, [Name("self")])), RefOf(CallPath(DiscriminantValue, [Name("v")]))];
    match t
    case PartialEq => BoolLit(false)
    case PartialOrd => CallPath(PartialCmp, discriminants)
    case Ord => CallPath(Cmp, discriminants)
  }

  function Comparisons(t: Derived, ls: seq<Expr>, rs: seq<Expr>): seq<Expr>
    requires |ls| == |rs|
  {
    seq(|ls|, i requires 0 <= i < |ls| => CompareAndRet(t, ls[i], rs[i]))
  }

  function Accesses(owner: string, names: seq<string>): seq<Expr> {
    seq(|names|, i requires 0 <= i < |names| => FieldOf(Name(owner), names[i]))
  }

  function Variables(prefix: string, names: seq<string>): seq<Expr> {
    seq(|names|, i requires 0 <= i < |names| => Name(prefix + names[i]))
  }

  function FieldComparison(t: Derived, ls: seq<Expr>, rs: seq<Expr>): Expr
    requires |ls| == |rs|
  {
    Block(Comparisons(t, ls, rs) + [EqualValue(t)])
  }

  function StructComparison(t: Derived, shape: Shape): Expr {
    FieldComparison(t, Accesses("self", FieldNames(shape)), Accesses("v", FieldNames(shape)))
  }

  function PairPat(v: Variant): Pattern {
    TuplePat([RefPat(VariantPat(v.name, v.shape, "a")), RefPat(VariantPat(v.name, v.shape, "b"))])
  }

  function VariantArm(t: Derived, v: Variant): Arm {
    var names := FieldNames(v.shape);
    Arm(PairPat(v),
        if v.shape.NoFields? then EqualValue(t) else FieldComparison(t, Variables("a", names), Variables("b", names)))
  }

  function VariantArms(t: Derived, variants: seq<Variant>): seq<Arm> {
    seq(|variants|, i requires 0 <= i < |variants| => VariantArm(t, variants[i]))
  }

  function EnumComparison(t: Derived, variants: seq<Variant>): Expr {
    Match(TupleOf([Name("self"), Name("v")]), VariantArms(t, variants) + [Arm(AnyPat, EnumMismatch(t))])
  }

  function Comparison(t: Derived, def: Definition): Expr {
    match def
    case Struct(_, shape) => StructComparison(t, shape)
    case Enum(_, variants) => EnumComparison(t, variants)
  }

  method HandleStruct(t: Derived, shape: Shape) returns (node: Expr)
    ensures node == StructComparison(t, shape)
  {
    var names := FieldNames(shape);
    var nodes: seq<Expr> := [];
    ghost var ls, rs := Accesses("self", names), Accesses("v", names);
    for i := 0 to |names|
      invariant nodes == Comparisons(t, ls, rs)[..i]
    {
      assert ls[i] == FieldOf(Name("self"), names[i]) && rs[i] == FieldOf(Name("v"), names[i]);
      assert Comparisons(t, ls, rs)[i] == CompareAndRet(t, ls[i], rs[i]);
      nodes := nodes + [CompareAndRet(t, FieldOf(Name("self"), names[i]), FieldOf(Name("v"), names[i]))];
    }
    node := Block(nodes + [EqualValue(t)]);
  }

  method HandleEnum(t: Derived, variants: seq<Variant>) returns (node: Expr)
    ensures node == EnumComparison(t, variants)
  {
    var arms: seq<Arm> := [];
    for i := 0 to |variants|
      invariant arms == VariantArms(t, variants)[..i]
    {
      var v := variants[i];
      var code, patA, patB;
      var names := FieldNames(v.shape);
      var patsA, patsB, nodes := MakeRefpatAB(names, (_, a, b) => CompareAndRet(t, a, b));
      nodes := nodes + [EqualValue(t)];
      match v.shape {
        case NoFields =>
          code, patA, patB := EqualValue(t), UnitPat(v.name), UnitPat(v.name);
        case TupleFields(_) =>
          code, patA, patB := Block(nodes), NamedTuplePat(v.name, patsA), NamedTuplePat(v.name, patsB);
        case NamedFields(_) =>
          code := Block(nodes);
          patA, patB := StructPat(v.name, Entries(names, patsA)), StructPat(v.name, Entries(names, patsB));
      }
      assert nodes == Comparisons(t, Variables("a", names), Variables("b", names)) + [EqualValue(t)];
      var arm := Arm(TuplePat([RefPat(patA), RefPat(patB)]), code);
      assert arm == VariantArm(t, v) == VariantArms(t, variants)[i];
      arms := arms + [arm];
    }
    arms := arms + [Arm(AnyPat, EnumMismatch(t))];
    node := Match(TupleOf([Name("self"), Name("v")]), arms);
  }

  // ----- what the comparisons mean

  /** What comparing one pair of fields decides, if it decides anything. */
  function Decides(t: Derived, im: Impls, x: Datum, y: Datum): Option<Value> {
    match t
    case PartialEq => if im.ne(x, y) then Some(Bool(false)) else None
    case PartialOrd => if im.partialCmp(x, y) == Some(Equal) then None else Some(OptionOrdering(im.partialCmp(x, y)))
    case Ord => if im.cmp(x, y) == Equal then None else Some(Order(im.cmp(x, y)))
  }

  function AllEqual(t: Derived): Value {
    match t
    case PartialEq => Bool(true)
    case PartialOrd => SomeValue(Order(Equal))
    case Ord => Order(Equal)
  }

  function Apart(t: Derived, a: int, b: int): Value {
    match t
    case PartialEq => Bool(false)
    case PartialOrd => SomeValue(Order(CompareInts(a, b)))
    case Ord => Order(CompareInts(a, b))
  }

  /** Field by field, up to the first that decides. */
  function Lexicographic(t: Derived, im: Impls, xs: seq<Datum>, ys: seq<Datum>): Value
    requires |xs| == |ys|
  {
    if xs == [] then AllEqual(t)
    else
      match Decides(t, im, xs[0], ys[0])
      case Some(r) => r
      case None => Lexicographic(t, im, xs[1..], ys[1..])
  }

  function Discriminant(def: Definition, v: Instance): int {
    if def.Enum? && v.variant < |def.variants| then def.variants[v.variant].discriminant else 0
  }

  function Compared(t: Derived, def: Definition, im: Impls, v: Instance, w: Instance): Value
    requires v.variant == w.variant ==> |v.fields| == |w.fields|
  {
    if v.variant == w.variant then Lexicographic(t, im, v.fields, w.fields)
    else Apart(t, Discriminant(def, v), Discriminant(def, w))
  }

  // ----- what the generated code computes

  predicate Yields(c: Context, e: Expr, env: Env, w: World, x: Datum) {
    var r := Eval(c, e, env, w);
    r.w == w && r.out.Done? && Strip(r.out.val) == Part(x)
  }

  predicate AllYield(c: Context, es: seq<Expr>, env: Env, w: World, xs: seq<Datum>) {
    |es| == |xs| && forall i :: 0 <= i < |es| ==> Yields(c, es[i], env, w, xs[i])
  }

  function Decision(o: Option<Value>): Outcome {
    if o.Some? then Returned(o.value) else Done(UNIT)
  }

  lemma OneArg(c: Context, e: Expr, env: Env, w: World)
    ensures
      var r := Eval(c, e, env, w);
      EvalAll(c, [e], env, w) == if r.out.Done? then AllDone([r.out.val], r.w) else Stopped(r.out, r.w)
  {
    var r := Eval(c, e, env, w);
    assert [e][1..] == [];
    assert EvalAll(c, [], env, r.w) == AllDone([], r.w);
  }

  lemma TwoArgs(c: Context, e1: Expr, e2: Expr, env: Env, w: World)
    ensures
      var r1 := Eval(c, e1, env, w);
      var r2 := Eval(c, e2, env, r1.w);
      EvalAll(c, [e1, e2], env, w) ==
        if !r1.out.Done? then Stopped(r1.out, r1.w)
        else if !r2.out.Done? then Stopped(r2.out, r2.w)
        else AllDone([r1.out.val, r2.out.val], r2.w)
  {
    assert [e1, e2][1..] == [e2];
    OneArg(c, e2, env, Eval(c, e1, env, w).w);
  }

  lemma CallYields(c: Context, e1: Expr, e2: Expr, env: Env, w: World, x: Datum, y: Datum)
    requires Yields(c, e1, env, w, x) && Yields(c, e2, env, w, y)
    ensures Eval(c, CallPath(NotEqual, [e1, e2]), env, w) == Run(Done(Bool(c.im.ne(x, y))), w)
    ensures Eval(c, CallPath(PartialCmp, [RefOf(e1), RefOf(e2)]), env, w)
         == Run(Done(OptionOrdering(c.im.partialCmp(x, y))), w)
    ensures Eval(c, CallPath(Cmp, [RefOf(e1), RefOf(e2)]), env, w) == Run(Done(Order(c.im.cmp(x, y))), w)
  {
    TwoArgs(c, e1, e2, env, w);
    TwoArgs(c, RefOf(e1), RefOf(e2), env, w);
  }

  lemma ReturnIf(c: Context, cond: Expr, b: bool, env: Env, w: World)
    requires Eval(c, cond, env, w) == Run(Done(Bool(b)), w)
    ensures Eval(c, If(cond, Return(BoolLit(false))), env, w) == Run(if b then Returned(Bool(false)) else Done(UNIT), w)
  {
    assert Eval(c, Return(BoolLit(false)), env, w) == Run(Returned(Bool(false)), w);
  }

  lemma MatchStep(c: Context, val: Expr, arms: seq<Arm>, v: Value, env: Env, w: World)
    requires Eval(c, val, env, w) == Run(Done(v), w)
    ensures Eval(c, Match(val, arms), env, w) == EvalArms(c, arms, v, env, w)
  {
  }

  /** One generated comparison does what comparing the fields decides. */
  lemma CompareDecides(c: Context, t: Derived, e1: Expr, e2: Expr, env: Env, w: World, x: Datum, y: Datum)
    requires Yields(c, e1, env, w, x) && Yields(c, e2, env, w, y)
    ensures Eval(c, CompareAndRet(t, e1, e2), env, w) == Run(Decision(Decides(t, c.im, x, y)), w)
  {
    CallYields(c, e1, e2, env, w, x, y);
    match t {
      case PartialEq =>
        ReturnIf(c, CallPath(NotEqual, [e1, e2]), c.im.ne(x, y), env, w);
      case PartialOrd =>
        MatchStep(c, CallPath(PartialCmp, [RefOf(e1), RefOf(e2)]), OptionArms(), OptionOrdering(c.im.partialCmp(x, y)), env, w);
        ReturnOption(c, c.im.partialCmp(x, y), env, w);
      case Ord =>
        MatchStep(c, CallPath(Cmp, [RefOf(e1), RefOf(e2)]), OrderingArms(), Order(c.im.cmp(x, y)), env, w);
        ReturnOrdering(c, c.im.cmp(x, y), env, w);
    }
  }

  lemma ReturnOption(c: Context, o: Option<Ordering>, env: Env, w: World)
    ensures EvalArms(c, OptionArms(), OptionOrdering(o), env, w)
         == Run(if o == Some(Equal) then Done(UNIT) else Returned(OptionOrdering(o)), w)
  {
    ArmSelected(c, OptionArms(), if o.None? then 0 else if o.value == Equal then 1 else 2, OptionOrdering(o), env, w);
  }

  lemma ReturnOrdering(c: Context, o: Ordering, env: Env, w: World)
    ensures EvalArms(c, OrderingArms(), Order(o), env, w)
         == Run(if o == Equal then Done(UNIT) else Returned(Order(o)), w)
  {
    ArmSelected(c, OrderingArms(), if o == Equal then 0 else 1, Order(o), env, w);
  }

  lemma EqualValueMeans(c: Context, t: Derived, env: Env, w: World)
    ensures Eval(c, EqualValue(t), env, w) == Run(Done(AllEqual(t)), w)
  {
    assert [EqualLit][1..] == [];
  }

  lemma BlockDecides(c: Context, e: Expr, es: seq<Expr>, o: Option<Value>, env: Env, w: World)
    requires es != [] && Eval(c, e, env, w) == Run(Decision(o), w)
    ensures EvalBlock(c, [e] + es, env, w) == if o.None? then EvalBlock(c, es, env, w) else Run(Returned(o.value), w)
  {
    assert ([e] + es)[1..] == es;
  }

  lemma SplitComparisons(t: Derived, ls: seq<Expr>, rs: seq<Expr>)
    requires |ls| == |rs| > 0
    ensures Comparisons(t, ls, rs) + [EqualValue(t)]
         == [CompareAndRet(t, ls[0], rs[0])] + (Comparisons(t, ls[1..], rs[1..]) + [EqualValue(t)])
  {
    assert Comparisons(t, ls, rs) == [CompareAndRet(t, ls[0], rs[0])] + Comparisons(t, ls[1..], rs[1..]);
  }

  /** The comparisons of a list of fields, up to the first that decides. */
  lemma {:induction false} FieldsCompared(c: Context, t: Derived, ls: seq<Expr>, rs: seq<Expr>, env: Env, w: World,
                                          xs: seq<Datum>, ys: seq<Datum>)
    requires |ls| == |rs| && |xs| == |ys| && AllYield(c, ls, env, w, xs) && AllYield(c, rs, env, w, ys)
    ensures Caught(EvalBlock(c, Comparisons(t, ls, rs) + [EqualValue(t)], env, w))
         == Run(Done(Lexicographic(t, c.im, xs, ys)), w)
    decreases |ls|
  {
    if ls == [] {
      EqualValueMeans(c, t, env, w);
      assert Comparisons(t, ls, rs) + [EqualValue(t)] == [EqualValue(t)];
    } else {
      FieldsCompared(c, t, ls[1..], rs[1..], env, w, xs[1..], ys[1..]);
      CompareDecides(c, t, ls[0], rs[0], env, w, xs[0], ys[0]);
      var rest := Comparisons(t, ls[1..], rs[1..]) + [EqualValue(t)];
      SplitComparisons(t, ls, rs);
      BlockDecides(c, CompareAndRet(t, ls[0], rs[0]), rest, Decides(t, c.im, xs[0], ys[0]), env, w);
    }
  }

  /** Both values are there by reference. */
  predicate Receives(env: Env, v: Instance, w: Instance) {
    "self" in env && env["self"] == RefTo(Whole(v)) && "v" in env && env["v"] == RefTo(Whole(w))
  }

  lemma AccessesYield(c: Context, owner: string, v: Instance, env: Env, w: World)
    requires Legal(c.def) && c.def.Struct? && Fits(c.def, v) && owner in env && env[owner] == RefTo(Whole(v))
    ensures AllYield(c, Accesses(owner, FieldNames(c.def.shape)), env, w, v.fields)
  {
    var names := FieldNames(c.def.shape);
    assert ShapeOf(c.def, 0) == c.def.shape;
    assert v.variant == 0 && |names| == |v.fields|;
    forall i | 0 <= i < |names|
      ensures Yields(c, Accesses(owner, names)[i], env, w, v.fields[i])
    {
      assert Distinct(names);
      assert Position(names, names[i]) == i;
      FieldRead(c, owner, v, env, w, i);
    }
  }

  lemma FieldRead(c: Context, owner: string, v: Instance, env: Env, w: World, i: nat)
    requires c.def.Struct? && v.variant == 0 && owner in env && env[owner] == RefTo(Whole(v))
    requires i < |FieldNames(c.def.shape)| == |v.fields| && Position(FieldNames(c.def.shape), FieldNames(c.def.shape)[i]) == i
    ensures Eval(c, FieldOf(Name(owner), FieldNames(c.def.shape)[i]), env, w) == Run(Done(Part(v.fields[i])), w)
  {
    StripRef(Whole(v));
    assert GetField(c.def, RefTo(Whole(v)), FieldNames(c.def.shape)[i]) == Done(Part(v.fields[i]));
  }

  lemma VariablesYield(c: Context, prefix: string, names: seq<string>, xs: seq<Datum>, m: Env, env: Env, w: World)
    requires Bound(m, prefix, names, Parts(xs))
    requires forall x :: x in m ==> x in env && env[x] == m[x]
    ensures AllYield(c, Variables(prefix, names), env, w, xs)
  {
    forall i | 0 <= i < |names|
      ensures Yields(c, Variables(prefix, names)[i], env, w, xs[i])
    {
      assert prefix + names[i] in m;
    }
  }

  lemma OnePat(def: Definition, p: Pattern, v: Value)
    ensures MatchAll(def, [p], [v]) == MatchPat(def, p, v)
  {
    assert [p][1..] == [] && [v][1..] == [];
    assert MatchAll(def, [], []) == Some(map[]);
    if MatchPat(def, p, v).Some? {
      assert MatchPat(def, p, v).value + map[] == MatchPat(def, p, v).value;
    }
  }

  lemma PairMatches(def: Definition, p: Pattern, q: Pattern, v: Value, w: Value)
    ensures MatchPat(def, TuplePat([RefPat(p), RefPat(q)]), Tup([RefTo(v), RefTo(w)]))
         == Both(MatchPat(def, p, v), MatchPat(def, q, w))
  {
    var ps, vs := [RefPat(p), RefPat(q)], [RefTo(v), RefTo(w)];
    assert ps[1..] == [RefPat(q)] && vs[1..] == [RefTo(w)];
    OnePat(def, RefPat(q), RefTo(w));
    assert MatchPat(def, RefPat(p), RefTo(v)) == MatchPat(def, p, v);
    assert MatchPat(def, RefPat(q), RefTo(w)) == MatchPat(def, q, w);
    assert MatchAll(def, ps, vs) == Both(MatchPat(def, p, v), MatchPat(def, q, w));
  }

  /** A binding is that of a field. */
  lemma FieldOfBinding(m: Env, prefix: string, names: seq<string>, vs: seq<Value>, x: string) returns (i: nat)
    requires Bound(m, prefix, names, vs) && x in m
    ensures i < |names| && x == prefix + names[i]
  {
    i :| 0 <= i < |names| && Prefixed(prefix, names)[i] == x;
  }

  /** No binding of one side hides one of the other side, or an argument. */
  lemma SidesApart(ma: Env, mb: Env, names: seq<string>, vs: seq<Value>, ws: seq<Value>)
    requires Distinct(names) && Bound(ma, "a", names, vs) && Bound(mb, "b", names, ws)
    ensures forall x :: x in ma ==> x !in mb && x != "self" && x != "v"
    ensures forall x :: x in mb ==> x !in ma && x != "self" && x != "v"
  {
    forall x | x in ma
      ensures x !in mb && x != "self" && x != "v"
    {
      BindingApart(ma, mb, names, vs, ws, x);
    }
    forall x | x in mb
      ensures x !in ma && x != "self" && x != "v"
    {
      var j := FieldOfBinding(mb, "b", names, ws, x);
      BindingsNeverCollide(names, j, j);
      assert "self" in ARGUMENTS && "v" in ARGUMENTS;
    }
  }

  lemma BindingApart(ma: Env, mb: Env, names: seq<string>, vs: seq<Value>, ws: seq<Value>, x: string)
    requires Distinct(names) && Bound(ma, "a", names, vs) && Bound(mb, "b", names, ws) && x in ma
    ensures x !in mb && x != "self" && x != "v"
  {
    var i := FieldOfBinding(ma, "a", names, vs, x);
    BindingsNeverCollide(names, i, i);
    assert "self" in ARGUMENTS && "v" in ARGUMENTS;
    if x in mb {
      var j := FieldOfBinding(mb, "b", names, ws, x);
      BindingsNeverCollide(names, i, j);
      assert false;
    }
  }

  /** The arm of the variant that both values have. */
  lemma SameVariant(c: Context, t: Derived, v: Instance, w: Instance, env: Env, world: World)
    requires Legal(c.def) && c.def.Enum? && Fits(c.def, v) && Fits(c.def, w) && v.variant == w.variant
    ensures
      var arm := VariantArm(t, c.def.variants[v.variant]);
      var m := MatchPat(c.def, arm.pat, Tup([RefTo(Whole(v)), RefTo(Whole(w))]));
      && m.Some?
      && Caught(Eval(c, arm.body, env + BindingsOf(m), world))
      == Run(Done(Lexicographic(t, c.im, v.fields, w.fields)), world)
  {
    var k := v.variant;
    var name, shape := c.def.variants[k].name, c.def.variants[k].shape;
    var names := FieldNames(shape);
    WhichVariant(c.def, k, v);
    WhichVariant(c.def, k, w);
    VariantMatches(c.def, "a", k, v);
    VariantMatches(c.def, "b", k, w);
    var pa, pb := VariantPat(name, shape, "a"), VariantPat(name, shape, "b");
    PairMatches(c.def, pa, pb, Whole(v), Whole(w));
    var ma, mb := MatchPat(c.def, pa, Whole(v)).value, MatchPat(c.def, pb, Whole(w)).value;
    SidesApart(ma, mb, names, Parts(v.fields), Parts(w.fields));
    BoundCompared(c, t, shape, v.fields, w.fields, ma, mb, env + (ma + mb), world);
  }

  lemma BoundCompared(c: Context, t: Derived, shape: Shape, xs: seq<Datum>, ys: seq<Datum>,
                      ma: Env, mb: Env, env: Env, w: World)
    requires Bound(ma, "a", FieldNames(shape), Parts(xs)) && Bound(mb, "b", FieldNames(shape), Parts(ys))
    requires forall x :: x in ma ==> x in env && env[x] == ma[x]
    requires forall x :: x in mb ==> x in env && env[x] == mb[x]
    ensures
      var names := FieldNames(shape);
      var body := if shape.NoFields? then EqualValue(t) else FieldComparison(t, Variables("a", names), Variables("b", names));
      Caught(Eval(c, body, env, w)) == Run(Done(Lexicographic(t, c.im, xs, ys)), w)
  {
    var names := FieldNames(shape);
    if shape.NoFields? {
      assert xs == [] && ys == [];
      EqualValueMeans(c, t, env, w);
    } else {
      VariablesYield(c, "a", names, xs, ma, env, w);
      VariablesYield(c, "b", names, ys, mb, env, w);
      var ls, rs := Variables("a", names), Variables("b", names);
      FieldsCompared(c, t, ls, rs, env, w, xs, ys);
      assert Eval(c, FieldComparison(t, ls, rs), env, w) == EvalBlock(c, Comparisons(t, ls, rs) + [EqualValue(t)], env, w);
    }
  }

  /** Other arms match no such pair. */
  lemma OtherArms(def: Definition, t: Derived, k: nat, v: Instance, w: Instance)
    requires Legal(def) && def.Enum? && k < |def.variants| && Fits(def, v) && Fits(def, w)
    requires v.variant != k || w.variant != k
    ensures MatchPat(def, VariantArm(t, def.variants[k]).pat, Tup([RefTo(Whole(v)), RefTo(Whole(w))])).None?
  {
    VariantMatches(def, "a", k, v);
    VariantMatches(def, "b", k, w);
    PairMatches(def, VariantPat(def.variants[k].name, def.variants[k].shape, "a"),
                VariantPat(def.variants[k].name, def.variants[k].shape, "b"), Whole(v), Whole(w));
  }

  lemma DiscriminantYields(c: Context, x: string, v: Instance, env: Env, w: World)
    requires c.def.Enum? && v.variant < |c.def.variants| && x in env && env[x] == RefTo(Whole(v))
    ensures Eval(c, RefOf(CallPath(DiscriminantValue, [Name(x)])), env, w)
         == Run(Done(RefTo(Int(Discriminant(c.def, v)))), w)
  {
    OneArg(c, Name(x), env, w);
    assert Eval(c, CallPath(DiscriminantValue, [Name(x)]), env, w) == Run(Done(Int(Discriminant(c.def, v))), w);
  }

  lemma MismatchMeans(c: Context, t: Derived, v: Instance, w: Instance, env: Env, world: World)
    requires c.def.Enum? && v.variant < |c.def.variants| && w.variant < |c.def.variants| && Receives(env, v, w)
    ensures Eval(c, EnumMismatch(t), env, world)
         == Run(Done(Apart(t, Discriminant(c.def, v), Discriminant(c.def, w))), world)
  {
    var e1, e2 := RefOf(CallPath(DiscriminantValue, [Name("self")])), RefOf(CallPath(DiscriminantValue, [Name("v")]));
    var a, b := Discriminant(c.def, v), Discriminant(c.def, w);
    DiscriminantYields(c, "self", v, env, world);
    DiscriminantYields(c, "v", w, env, world);
    TwoArgs(c, e1, e2, env, world);
    IntsCompared(c, a, b, world);
    assert EvalAll(c, [e1, e2], env, world) == AllDone([RefTo(Int(a)), RefTo(Int(b))], world);
  }

  lemma IntsCompared(c: Context, a: int, b: int, w: World)
    ensures Apply(c, PartialCmp, [RefTo(Int(a)), RefTo(Int(b))], w) == Run(Done(SomeValue(Order(CompareInts(a, b)))), w)
    ensures Apply(c, Cmp, [RefTo(Int(a)), RefTo(Int(b))], w) == Run(Done(Order(CompareInts(a, b))), w)
  {
    StripRef(Int(a));
    StripRef(Int(b));
  }

  lemma EnumArms(c: Context, t: Derived, v: Instance, w: Instance, env: Env, world: World)
    requires c.def.Enum? && Receives(env, v, w)
    ensures Eval(c, EnumComparison(t, c.def.variants), env, world)
         == EvalArms(c, VariantArms(t, c.def.variants) + [Arm(AnyPat, EnumMismatch(t))],
                     Tup([RefTo(Whole(v)), RefTo(Whole(w))]), env, world)
  {
    TwoArgs(c, Name("self"), Name("v"), env, world);
  }

  lemma EnumCompared(c: Context, t: Derived, v: Instance, w: Instance, env: Env, world: World)
    requires Legal(c.def) && c.def.Enum? && Fits(c.def, v) && Fits(c.def, w) && Receives(env, v, w)
    ensures Caught(Eval(c, EnumComparison(t, c.def.variants), env, world))
         == Run(Done(Compared(t, c.def, c.im, v, w)), world)
  {
    var variants := c.def.variants;
    var arms := VariantArms(t, variants) + [Arm(AnyPat, EnumMismatch(t))];
    var pair := Tup([RefTo(Whole(v)), RefTo(Whole(w))]);
    EnumArms(c, t, v, w, env, world);
    var k := if v.variant == w.variant then v.variant else |variants|;
    forall j | 0 <= j < k
      ensures MatchPat(c.def, arms[j].pat, pair).None?
    {
      OtherArms(c.def, t, j, v, w);
    }
    if v.variant == w.variant {
      SameVariant(c, t, v, w, env, world);
    } else {
      assert env + map[] == env;
      MismatchMeans(c, t, v, w, env, world);
    }
    ArmSelected(c, arms, k, pair, env, world);
  }

  lemma StructCompared(c: Context, t: Derived, v: Instance, w: Instance, env: Env, world: World)
    requires Legal(c.def) && c.def.Struct? && Fits(c.def, v) && Fits(c.def, w) && Receives(env, v, w)
    ensures Caught(Eval(c, StructComparison(t, c.def.shape), env, world))
         == Run(Done(Compared(t, c.def, c.im, v, w)), world)
  {
    var names := FieldNames(c.def.shape);
    AccessesYield(c, "self", v, env, world);
    AccessesYield(c, "v", w, env, world);
    FieldsCompared(c, t, Accesses("self", names), Accesses("v", names), env, world, v.fields, w.fields);
  }

  /** The generated method, for every definition and all of its values: the fields in order within a variant, the
      discriminants across variants.  Nothing is hashed or read on the way. */
  lemma ComparisonMeans(c: Context, t: Derived, v: Instance, w: Instance, env: Env, world: World)
    requires Legal(c.def) && Fits(c.def, v) && Fits(c.def, w) && Receives(env, v, w)
    ensures CallMethod(c, Comparison(t, c.def), env, world) == Run(Done(Compared(t, c.def, c.im, v, w)), world)
  {
    OneNode(c, Comparison(t, c.def), env, world);
    if c.def.Enum? {
      EnumCompared(c, t, v, w, env, world);
    } else {
      StructCompared(c, t, v, w, env, world);
    }
  }

  // ----- what that amounts to

  /** The first pair that decides is the result. */
  lemma {:induction false} FirstDecides(t: Derived, im: Impls, xs: seq<Datum>, ys: seq<Datum>, k: nat)
    requires k < |xs| == |ys| && Decides(t, im, xs[k], ys[k]).Some?
    requires forall j :: 0 <= j < k ==> Decides(t, im, xs[j], ys[j]).None?
    ensures Lexicographic(t, im, xs, ys) == Decides(t, im, xs[k], ys[k]).value
  {
    if k > 0 {
      assert Decides(t, im, xs[0], ys[0]).None?;
      FirstDecides(t, im, xs[1..], ys[1..], k - 1);
    }
  }

  lemma {:induction false} NoneDecides(t: Derived, im: Impls, xs: seq<Datum>, ys: seq<Datum>)
    requires |xs| == |ys| && forall j :: 0 <= j < |xs| ==> Decides(t, im, xs[j], ys[j]).None?
    ensures Lexicographic(t, im, xs, ys) == AllEqual(t)
  {
    if xs != [] {
      NoneDecides(t, im, xs[1..], ys[1..]);
    }
  }

  function FirstDeciding(t: Derived, im: Impls, xs: seq<Datum>, ys: seq<Datum>): (k: nat)
    requires |xs| == |ys|
    ensures k <= |xs|
    ensures forall j :: 0 <= j < k ==> Decides(t, im, xs[j], ys[j]).None?
    ensures k < |xs| ==> Decides(t, im, xs[k], ys[k]).Some?
  {
    if xs == [] || Decides(t, im, xs[0], ys[0]).Some? then 0 else 1 + FirstDeciding(t, im, xs[1..], ys[1..])
  }

  lemma LexicographicIs(t: Derived, im: Impls, xs: seq<Datum>, ys: seq<Datum>)
    requires |xs| == |ys|
    ensures
      var k := FirstDeciding(t, im, xs, ys);
      Lexicographic(t, im, xs, ys) == if k == |xs| then AllEqual(t) else Decides(t, im, xs[k], ys[k]).value
  {
    var k := FirstDeciding(t, im, xs, ys);
    if k == |xs| {
      NoneDecides(t, im, xs, ys);
    } else {
      FirstDecides(t, im, xs, ys, k);
    }
  }

  /** Structural equality over what the fields call unequal. */
  predicate Same(im: Impls, v: Instance, w: Instance) {
    v.variant == w.variant && |v.fields| == |w.fields|
    && forall i :: 0 <= i < |v.fields| ==> !im.ne(v.fields[i], w.fields[i])
  }

  lemma EqIsStructural(def: Definition, im: Impls, v: Instance, w: Instance)
    requires Fits(def, v) && Fits(def, w)
    ensures Compared(PartialEq, def, im, v, w) == Bool(Same(im, v, w))
  {
    if v.variant == w.variant {
      LexicographicIs(PartialEq, im, v.fields, w.fields);
    }
  }

  function Flip(o: Ordering): Ordering {
    match o
    case Less => Greater
    case Equal => Equal
    case Greater => Less
  }

  ghost predicate FieldsFlip(im: Impls) {
    forall x: Datum, y: Datum :: x.ty == y.ty ==> im.cmp(y, x) == Flip(im.cmp(x, y))
  }

  ghost predicate FieldsChain(im: Impls) {
    forall x: Datum, y: Datum, z: Datum :: x.ty == y.ty == z.ty && im.cmp(x, y) != Greater && im.cmp(y, z) != Greater ==>
      im.cmp(x, z) != Greater
  }

  ghost predicate FieldsAgree(im: Impls) {
    forall x: Datum, y: Datum :: x.ty == y.ty ==> (im.ne(x, y) <==> im.cmp(x, y) != Equal)
  }

  ghost predicate FieldsTotal(im: Impls) {
    forall x: Datum, y: Datum :: x.ty == y.ty ==> im.partialCmp(x, y) == Some(im.cmp(x, y))
  }

  predicate DistinctDiscriminants(def: Definition) {
    def.Enum? ==>
      forall i, j :: 0 <= i < j < |def.variants| ==> def.variants[i].discriminant != def.variants[j].discriminant
  }

  function OrderOf(v: Value): Ordering {
    if v.Order? then v.o else Equal
  }

  function Cmp3(def: Definition, im: Impls, v: Instance, w: Instance): Ordering
    requires v.variant == w.variant ==> |v.fields| == |w.fields|
  {
    OrderOf(Compared(Ord, def, im, v, w))
  }

  function LexCmp(im: Impls, xs: seq<Datum>, ys: seq<Datum>): Ordering
    requires |xs| == |ys|
  {
    OrderOf(Lexicographic(Ord, im, xs, ys))
  }

  lemma LexCons(im: Impls, xs: seq<Datum>, ys: seq<Datum>)
    requires |xs| == |ys| > 0
    ensures LexCmp(im, xs, ys) == if im.cmp(xs[0], ys[0]) == Equal then LexCmp(im, xs[1..], ys[1..]) else im.cmp(xs[0], ys[0])
  {
  }

  predicate SameTypes(xs: seq<Datum>, ys: seq<Datum>) {
    |xs| == |ys| && forall i :: 0 <= i < |xs| ==> xs[i].ty == ys[i].ty
  }

  lemma {:induction false} LexFlips(im: Impls, xs: seq<Datum>, ys: seq<Datum>)
    requires FieldsFlip(im) && SameTypes(xs, ys)
    ensures LexCmp(im, ys, xs) == Flip(LexCmp(im, xs, ys))
  {
    if xs != [] {
      LexCons(im, xs, ys);
      LexCons(im, ys, xs);
      assert im.cmp(ys[0], xs[0]) == Flip(im.cmp(xs[0], ys[0]));
      LexFlips(im, xs[1..], ys[1..]);
    }
  }

  /** What a total order says of three fields. */
  lemma Chain(im: Impls, x: Datum, y: Datum, z: Datum)
    requires FieldsFlip(im) && FieldsChain(im) && x.ty == y.ty == z.ty
    requires im.cmp(x, y) != Greater && im.cmp(y, z) != Greater
    ensures im.cmp(x, z) != Greater
    ensures im.cmp(x, z) == Equal <==> im.cmp(x, y) == Equal && im.cmp(y, z) == Equal
  {
    assert im.cmp(z, y) == Flip(im.cmp(y, z)) && im.cmp(y, x) == Flip(im.cmp(x, y)) && im.cmp(z, x) == Flip(im.cmp(x, z));
    if im.cmp(x, z) == Equal {
      assert im.cmp(y, x) != Greater;
    }
  }

  lemma {:induction false} LexChains(im: Impls, xs: seq<Datum>, ys: seq<Datum>, zs: seq<Datum>)
    requires FieldsFlip(im) && FieldsChain(im) && SameTypes(xs, ys) && SameTypes(ys, zs)
    requires LexCmp(im, xs, ys) != Greater && LexCmp(im, ys, zs) != Greater
    ensures LexCmp(im, xs, zs) != Greater
  {
    if xs != [] {
      LexCons(im, xs, ys);
      LexCons(im, ys, zs);
      LexCons(im, xs, zs);
      Chain(im, xs[0], ys[0], zs[0]);
      if im.cmp(xs[0], zs[0]) == Equal {
        LexChains(im, xs[1..], ys[1..], zs[1..]);
      }
    }
  }

  lemma FittingTypes(def: Definition, v: Instance, w: Instance)
    requires Fits(def, v) && Fits(def, w) && v.variant == w.variant
    ensures SameTypes(v.fields, w.fields)
  {
    var types := FieldTypes(ShapeOf(def, v.variant));
    forall i | 0 <= i < |v.fields|
      ensures v.fields[i].ty == w.fields[i].ty
    {
      assert v.fields[i].ty == types[i] && w.fields[i].ty == types[i];
    }
  }

  /** `cmp` is a total order on the type if it is one on the fields. */
  lemma CmpIsTotalOrder(def: Definition, im: Impls, u: Instance, v: Instance, w: Instance)
    requires FieldsFlip(im) && FieldsChain(im) && DistinctDiscriminants(def)
    requires Fits(def, u) && Fits(def, v) && Fits(def, w)
    ensures Cmp3(def, im, v, u) == Flip(Cmp3(def, im, u, v))
    ensures Cmp3(def, im, u, v) != Greater && Cmp3(def, im, v, w) != Greater ==> Cmp3(def, im, u, w) != Greater
  {
    if u.variant == v.variant {
      FittingTypes(def, u, v);
      LexFlips(im, u.fields, v.fields);
    }
    if u.variant == v.variant == w.variant {
      FittingTypes(def, v, w);
      if LexCmp(im, u.fields, v.fields) != Greater && LexCmp(im, v.fields, w.fields) != Greater {
        LexChains(im, u.fields, v.fields, w.fields);
      }
    }
  }

  lemma EqualIffEq(def: Definition, im: Impls, v: Instance, w: Instance)
    requires FieldsAgree(im) && Fits(def, v) && Fits(def, w)
    ensures Cmp3(def, im, v, w) == Equal <==>
      if v.variant == w.variant then Same(im, v, w) else Discriminant(def, v) == Discriminant(def, w)
  {
    if v.variant == w.variant {
      FittingTypes(def, v, w);
      LexicographicIs(Ord, im, v.fields, w.fields);
    }
  }

  ghost predicate EqualMeansEq(def: Definition, im: Impls) {
    forall v, w :: Fits(def, v) && Fits(def, w) ==> (Cmp3(def, im, v, w) == Equal <==> Same(im, v, w))
  }

  function Sample(def: Definition, k: nat): (v: Instance)
    requires k < |Constructors(def)|
    ensures Fits(def, v) && v.variant == k
  {
    var types := FieldTypes(ShapeOf(def, k));
    Instance(k, seq(|types|, i requires 0 <= i < |types| => Datum(types[i], 0)))
  }

  /** `cmp` answers `Equal` for equal values only, exactly if no two variants have the same discriminant. */
  lemma EqualMeansEqExactly(def: Definition, im: Impls)
    requires FieldsAgree(im)
    ensures EqualMeansEq(def, im) <==> DistinctDiscriminants(def)
  {
    if DistinctDiscriminants(def) {
      forall v, w | Fits(def, v) && Fits(def, w)
        ensures Cmp3(def, im, v, w) == Equal <==> Same(im, v, w)
      {
        EqualIffEq(def, im, v, w);
      }
    } else {
      var i, j :| 0 <= i < j < |def.variants| && def.variants[i].discriminant == def.variants[j].discriminant;
      var v, w := Sample(def, i), Sample(def, j);
      EqualIffEq(def, im, v, w);
      assert Cmp3(def, im, v, w) == Equal && !Same(im, v, w);
    }
  }

  /** `partial_cmp` agrees with `cmp` where the fields' does. */
  lemma PartialAgrees(def: Definition, im: Impls, v: Instance, w: Instance)
    requires FieldsTotal(im) && Fits(def, v) && Fits(def, w)
    ensures Compared(PartialOrd, def, im, v, w) == SomeValue(Compared(Ord, def, im, v, w))
  {
    if v.variant == w.variant {
      FittingTypes(def, v, w);
      LexPartialAgrees(im, v.fields, w.fields);
    }
  }

  lemma {:induction false} LexPartialAgrees(im: Impls, xs: seq<Datum>, ys: seq<Datum>)
    requires FieldsTotal(im) && SameTypes(xs, ys)
    ensures Lexicographic(PartialOrd, im, xs, ys) == SomeValue(Lexicographic(Ord, im, xs, ys))
  {
    if xs != [] {
      assert im.partialCmp(xs[0], ys[0]) == Some(im.cmp(xs[0], ys[0]));
      LexPartialAgrees(im, xs[1..], ys[1..]);
    }
  }

  /** In general `partial_cmp` answers with the first answer that is not `Some(Equal)`, be it `None`. */
  lemma PartialIsFirstAnswer(def: Definition, im: Impls, v: Instance, w: Instance, k: nat)
    requires Fits(def, v) && Fits(def, w) && v.variant == w.variant && k <= |v.fields| == |w.fields|
    requires forall j :: 0 <= j < k ==> im.partialCmp(v.fields[j], w.fields[j]) == Some(Equal)
    requires k < |v.fields| ==> im.partialCmp(v.fields[k], w.fields[k]) != Some(Equal)
    ensures Compared(PartialOrd, def, im, v, w)
         == OptionOrdering(if k < |v.fields| then im.partialCmp(v.fields[k], w.fields[k]) else Some(Equal))
  {
    if k < |v.fields| {
      FirstDecides(PartialOrd, im, v.fields, w.fields, k);
    } else {
      NoneDecides(PartialOrd, im, v.fields, w.fields);
    }
  }

  /** What the generated `cmp` answers, said of its run: the first answer of a field that is not `Equal`. */
  lemma CmpIsFirstAnswer(c: Context, v: Instance, w: Instance, k: nat, env: Env, world: World)
    requires Legal(c.def) && Fits(c.def, v) && Fits(c.def, w) && Receives(env, v, w)
    requires v.variant == w.variant && k <= |v.fields| == |w.fields|
    requires forall j :: 0 <= j < k ==> c.im.cmp(v.fields[j], w.fields[j]) == Equal
    requires k < |v.fields| ==> c.im.cmp(v.fields[k], w.fields[k]) != Equal
    ensures CallMethod(c, Comparison(Ord, c.def), env, world)
         == Run(Done(Order(if k < |v.fields| then c.im.cmp(v.fields[k], w.fields[k]) else Equal)), world)
  {
    ComparisonMeans(c, Ord, v, w, env, world);
    if k < |v.fields| {
      FirstDecides(Ord, c.im, v.fields, w.fields, k);
    } else {
      NoneDecides(Ord, c.im, v.fields, w.fields);
    }
  }

  /** Between two variants the smaller discriminant is less, whatever the fields are. */
  lemma VariantsCompared(c: Context, v: Instance, w: Instance, env: Env, world: World)
    requires Legal(c.def) && Fits(c.def, v) && Fits(c.def, w) && Receives(env, v, w) && v.variant != w.variant
    ensures c.def.Enum?
    ensures
      var a, b := c.def.variants[v.variant].discriminant, c.def.variants[w.variant].discriminant;
      var o := if a < b then Less else if a == b then Equal else Greater;
      && CallMethod(c, Comparison(PartialEq, c.def), env, world) == Run(Done(Bool(false)), world)
      && CallMethod(c, Comparison(PartialOrd, c.def), env, world) == Run(Done(SomeValue(Order(o))), world)
      && CallMethod(c, Comparison(Ord, c.def), env, world) == Run(Done(Order(o)), world)
  {
    ComparisonMeans(c, PartialEq, v, w, env, world);
    ComparisonMeans(c, PartialOrd, v, w, env, world);
    ComparisonMeans(c, Ord, v, w, env, world);
  }
}
