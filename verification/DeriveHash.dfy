/** `#[derive(Hash)]`: the generated hashing, and what the hasher is fed. */
module DeriveHash {
  import opened Sequences
  import opened Wrappers
  import opened DeriveCode
  import opened DeriveCompare

  // ----- the generated code

  function HashDirect(val: Expr): Expr {
    CallPath(Hash, [val])
  }

  function HashRef(val: Expr): Expr {
    HashDirect(RefOf(val))
  }

  function HashAll(vals: seq<Expr>): seq<Expr> {
    seq(|vals|, i requires 0 <= i < |vals| => HashDirect(vals[i]))
  }

  function Refs(vals: seq<Expr>): seq<Expr> {
    seq(|vals|, i requires 0 <= i < |vals| => RefOf(vals[i]))
  }

  function StructHashing(shape: Shape): Expr {
    Block(HashAll(Refs(Accesses("self", FieldNames(shape)))))
  }

  /** An only variant is not worth hashing. */
  function IndexHash(k: nat, count: nat): Expr {
    if count > 1 then HashRef(IntLit(k)) else TupleOf([])
  }

  function HashArm(v: Variant, k: nat, count: nat): Arm {
    Arm(RefPat(VariantPat(v.name, v.shape, "a")),
        if v.shape.NoFields? then IndexHash(k, count)
        else Block([IndexHash(k, count)] + HashAll(Variables("a", FieldNames(v.shape)))))
  }

  function HashArms(variants: seq<Variant>): seq<Arm> {
    seq(|variants|, k requires 0 <= k < |variants| => HashArm(variants[k], k, |variants|))
  }

  function Hashing(def: Definition): Expr {
    match def
    case Struct(_, shape) => StructHashing(shape)
    case Enum(_, variants) => Match(Name("self"), HashArms(variants))
  }

  method HandleStruct(shape: Shape) returns (node: Expr)
    ensures node == StructHashing(shape)
  {
    var names := FieldNames(shape);
    var nodes: seq<Expr> := [];
    for i := 0 to |names|
      invariant nodes == HashAll(Refs(Accesses("self", names)))[..i]
    {
      nodes := nodes + [HashRef(FieldOf(Name("self"), names[i]))];
    }
    node := Block(nodes);
  }

  method HandleEnum(variants: seq<Variant>) returns (node: Expr)
    ensures node == Match(Name("self"), HashArms(variants))
  {
    var arms: seq<Arm> := [];
    for k := 0 to |variants|
      invariant arms == HashArms(variants)[..k]
    {
      var v := variants[k];
      var code, patA;
      var indexHash := if |variants| > 1 then HashRef(IntLit(k)) else TupleOf([]);
      var names := FieldNames(v.shape);
      var patsA, nodes := MakeRefpatA(names, (_, a) => HashDirect(a));
      assert nodes == HashAll(Variables("a", names));
      nodes := [indexHash] + nodes;
      match v.shape {
        case NoFields => code, patA := indexHash, UnitPat(v.name);
        case TupleFields(_) => code, patA := Block(nodes), NamedTuplePat(v.name, patsA);
        case NamedFields(_) => code, patA := Block(nodes), StructPat(v.name, Entries(names, patsA));
      }
      var arm := Arm(RefPat(patA), code);
      assert arm == HashArm(v, k, |variants|) == HashArms(variants)[k];
      arms := arms + [arm];
    }
    node := Match(Name("self"), arms);
  }

  // ----- what the hasher is fed

  function FieldHashes(im: Impls, xs: seq<Datum>): seq<Event> {
    if xs == [] then [] else Tokens(im.hash(xs[0])) + FieldHashes(im, xs[1..])
  }

  function IndexEvents(def: Definition, k: nat): seq<Event> {
    if def.Enum? && |def.variants| > 1 then [HashedIndex(k)] else []
  }

  function Hashed(def: Definition, im: Impls, v: Instance): seq<Event> {
    IndexEvents(def, v.variant) + FieldHashes(im, v.fields)
  }

  lemma LogLog(w: World, a: seq<Event>, b: seq<Event>)
    ensures Log(Log(w, a), b) == Log(w, a + b) && Log(w, []) == w
  {
    assert w.log + a + b == w.log + (a + b);
  }

  /** In any world, the expression is a reference to the field. */
  ghost predicate Denotes(c: Context, e: Expr, env: Env, x: Datum) {
    forall w :: Eval(c, e, env, w) == Run(Done(RefTo(Part(x))), w)
  }

  lemma HashStep(c: Context, e: Expr, env: Env, w: World, x: Datum)
    requires Denotes(c, e, env, x)
    ensures Eval(c, HashDirect(e), env, w) == Run(Done(UNIT), Log(w, Tokens(c.im.hash(x))))
  {
    OneArg(c, e, env, w);
    StripRef(Part(x));
    assert EvalAll(c, [e], env, w) == AllDone([RefTo(Part(x))], w);
  }

  lemma UnitStep(c: Context, e: Expr, es: seq<Expr>, env: Env, w: World, w1: World)
    requires Eval(c, e, env, w) == Run(Done(UNIT), w1)
    ensures EvalBlock(c, [e] + es, env, w) == EvalBlock(c, es, env, w1)
  {
    assert ([e] + es)[1..] == es;
  }

  lemma {:induction false} FieldsHashed(c: Context, es: seq<Expr>, env: Env, w: World, xs: seq<Datum>)
    requires |es| == |xs| && forall i :: 0 <= i < |es| ==> Denotes(c, es[i], env, xs[i])
    ensures EvalBlock(c, HashAll(es), env, w) == Run(Done(UNIT), Log(w, FieldHashes(c.im, xs)))
    decreases |es|
  {
    if es == [] {
      LogLog(w, [], []);
    } else {
      var w1 := Log(w, Tokens(c.im.hash(xs[0])));
      HashStep(c, es[0], env, w, xs[0]);
      FieldsHashed(c, es[1..], env, w1, xs[1..]);
      assert HashAll(es) == [HashDirect(es[0])] + HashAll(es[1..]);
      UnitStep(c, HashDirect(es[0]), HashAll(es[1..]), env, w, w1);
      LogLog(w, Tokens(c.im.hash(xs[0])), FieldHashes(c.im, xs[1..]));
    }
  }

  lemma AccessDenotes(c: Context, v: Instance, env: Env, i: nat)
    requires Legal(c.def) && c.def.Struct? && Fits(c.def, v) && "self" in env && env["self"] == RefTo(Whole(v))
    requires i < |v.fields|
    ensures |FieldNames(c.def.shape)| == |v.fields|
    ensures Denotes(c, RefOf(FieldOf(Name("self"), FieldNames(c.def.shape)[i])), env, v.fields[i])
  {
    var names := FieldNames(c.def.shape);
    assert ShapeOf(c.def, 0) == c.def.shape;
    assert v.variant == 0 && Distinct(names);
    assert Position(names, names[i]) == i;
    forall w
      ensures Eval(c, RefOf(FieldOf(Name("self"), names[i])), env, w) == Run(Done(RefTo(Part(v.fields[i]))), w)
    {
      FieldRead(c, "self", v, env, w, i);
    }
  }

  lemma BoundDenotes(c: Context, prefix: string, names: seq<string>, xs: seq<Datum>, m: Env, env: Env, i: nat)
    requires Bound(m, prefix, names, Parts(xs)) && i < |names|
    ensures Denotes(c, Variables(prefix, names)[i], env + m, xs[i])
  {
    assert prefix + names[i] in m;
  }

  lemma IndexHashed(c: Context, k: nat, count: nat, env: Env, w: World)
    ensures Eval(c, IndexHash(k, count), env, w)
         == Run(Done(UNIT), Log(w, if count > 1 then [HashedIndex(k)] else []))
  {
    if count > 1 {
      OneArg(c, RefOf(IntLit(k)), env, w);
      StripRef(Int(k));
      assert EvalAll(c, [RefOf(IntLit(k))], env, w) == AllDone([RefTo(Int(k))], w);
    } else {
      LogLog(w, [], []);
    }
  }

  lemma ArmHashed(c: Context, v: Instance, m: Env, env: Env, w: World)
    requires c.def.Enum? && v.variant < |c.def.variants|
    requires Bound(m, "a", FieldNames(c.def.variants[v.variant].shape), Parts(v.fields))
    ensures
      var arm := HashArm(c.def.variants[v.variant], v.variant, |c.def.variants|);
      Eval(c, arm.body, env + m, w) == Run(Done(UNIT), Log(w, Hashed(c.def, c.im, v)))
  {
    var k, count := v.variant, |c.def.variants|;
    var es := Variables("a", FieldNames(c.def.variants[k].shape));
    IndexHashed(c, k, count, env + m, w);
    var w1 := Log(w, IndexEvents(c.def, k));
    LogLog(w, IndexEvents(c.def, k), FieldHashes(c.im, v.fields));
    if c.def.variants[k].shape.NoFields? {
      assert Hashed(c.def, c.im, v) == IndexEvents(c.def, k);
    } else {
      forall i | 0 <= i < |es|
        ensures Denotes(c, es[i], env + m, v.fields[i])
      {
        BoundDenotes(c, "a", FieldNames(c.def.variants[k].shape), v.fields, m, env, i);
      }
      FieldsHashed(c, es, env + m, w1, v.fields);
      UnitStep(c, IndexHash(k, count), HashAll(es), env + m, w, w1);
    }
  }

  /** The arm of the value's own variant is taken, and the others are not. */
  lemma OwnArm(def: Definition, v: Instance, j: nat)
    requires Legal(def) && def.Enum? && Fits(def, v) && j < |def.variants|
    ensures
      var m := MatchPat(def, RefPat(VariantPat(def.variants[j].name, def.variants[j].shape, "a")), RefTo(Whole(v)));
      && (m.Some? <==> v.variant == j)
      && (v.variant == j ==> Bound(BindingsOf(m), "a", FieldNames(def.variants[j].shape), Parts(v.fields)))
  {
    VariantMatches(def, "a", j, v);
  }

  /** The generated method, for every definition and all of its values: the index of the variant if there are others,
      then the fields in order. */
  lemma HashingMeans(c: Context, v: Instance, env: Env, w: World)
    requires Legal(c.def) && Fits(c.def, v) && "self" in env && env["self"] == RefTo(Whole(v))
    ensures CallMethod(c, Hashing(c.def), env, w) == Run(Done(UNIT), Log(w, Hashed(c.def, c.im, v)))
  {
    OneNode(c, Hashing(c.def), env, w);
    if c.def.Enum? {
      EnumHashed(c, v, env, w);
    } else {
      StructHashed(c, v, env, w);
    }
  }

  lemma StructHashed(c: Context, v: Instance, env: Env, w: World)
    requires Legal(c.def) && c.def.Struct? && Fits(c.def, v) && "self" in env && env["self"] == RefTo(Whole(v))
    ensures Eval(c, StructHashing(c.def.shape), env, w) == Run(Done(UNIT), Log(w, Hashed(c.def, c.im, v)))
  {
    var es := Refs(Accesses("self", FieldNames(c.def.shape)));
    assert ShapeOf(c.def, 0) == c.def.shape;
    forall i | 0 <= i < |es|
      ensures Denotes(c, es[i], env, v.fields[i])
    {
      AccessDenotes(c, v, env, i);
    }
    FieldsHashed(c, es, env, w, v.fields);
    assert Hashed(c.def, c.im, v) == FieldHashes(c.im, v.fields);
  }

  lemma EnumHashed(c: Context, v: Instance, env: Env, w: World)
    requires Legal(c.def) && c.def.Enum? && Fits(c.def, v) && "self" in env && env["self"] == RefTo(Whole(v))
    ensures Eval(c, Hashing(c.def), env, w) == Run(Done(UNIT), Log(w, Hashed(c.def, c.im, v)))
  {
    var arms := HashArms(c.def.variants);
    forall j | 0 <= j < v.variant
      ensures MatchPat(c.def, arms[j].pat, RefTo(Whole(v))).None?
    {
      OwnArm(c.def, v, j);
    }
    OwnArm(c.def, v, v.variant);
    ArmSelected(c, arms, v.variant, RefTo(Whole(v)), env, w);
    MatchStep(c, Name("self"), arms, RefTo(Whole(v)), env, w);
    ArmHashed(c, v, MatchPat(c.def, arms[v.variant].pat, RefTo(Whole(v))).value, env, w);
  }

  // ----- what that amounts to

  ghost predicate FieldsHashAlike(im: Impls) {
    forall x: Datum, y: Datum :: x.ty == y.ty && !im.ne(x, y) ==> im.hash(x) == im.hash(y)
  }

  lemma {:induction false} AlikeHashes(im: Impls, xs: seq<Datum>, ys: seq<Datum>)
    requires FieldsHashAlike(im) && SameTypes(xs, ys) && forall i :: 0 <= i < |xs| ==> !im.ne(xs[i], ys[i])
    ensures FieldHashes(im, xs) == FieldHashes(im, ys)
  {
    if xs != [] {
      assert !im.ne(xs[0], ys[0]);
      AlikeHashes(im, xs[1..], ys[1..]);
    }
  }

  /** Values that the derived `eq` calls equal are hashed alike, if that holds of the fields. */
  lemma EqualHashAlike(def: Definition, im: Impls, v: Instance, w: Instance)
    requires FieldsHashAlike(im) && Fits(def, v) && Fits(def, w)
    requires Compared(PartialEq, def, im, v, w) == Bool(true)
    ensures Hashed(def, im, v) == Hashed(def, im, w)
  {
    EqIsStructural(def, im, v, w);
    FittingTypes(def, v, w);
    AlikeHashes(im, v.fields, w.fields);
  }

  /** The hash of a field tells the field, and where the hash ends. */
  ghost predicate FieldsTellApart(im: Impls) {
    forall x: Datum, y: Datum, s: seq<Event>, t: seq<Event> ::
      x.ty == y.ty && Tokens(im.hash(x)) + s == Tokens(im.hash(y)) + t ==> x == y
  }

  lemma {:induction false} HashesTellApart(im: Impls, xs: seq<Datum>, ys: seq<Datum>, s: seq<Event>, t: seq<Event>)
    requires FieldsTellApart(im) && SameTypes(xs, ys) && FieldHashes(im, xs) + s == FieldHashes(im, ys) + t
    ensures xs == ys && s == t
  {
    if xs == [] {
      assert FieldHashes(im, xs) + s == s && FieldHashes(im, ys) + t == t;
    } else {
      var h, g := Tokens(im.hash(xs[0])), Tokens(im.hash(ys[0]));
      var s1, t1 := FieldHashes(im, xs[1..]) + s, FieldHashes(im, ys[1..]) + t;
      assert FieldHashes(im, xs) + s == h + s1 && FieldHashes(im, ys) + t == g + t1;
      assert xs[0] == ys[0];
      assert s1 == (h + s1)[|h|..] && t1 == (h + t1)[|h|..];
      HashesTellApart(im, xs[1..], ys[1..], s, t);
    }
  }

  lemma IndexTellsApart(def: Definition, v: Instance, w: Instance, a: seq<Event>, b: seq<Event>)
    requires v.variant < |Constructors(def)| && w.variant < |Constructors(def)|
    requires IndexEvents(def, v.variant) + a == IndexEvents(def, w.variant) + b
    ensures v.variant == w.variant && a == b
  {
    var i, j := IndexEvents(def, v.variant), IndexEvents(def, w.variant);
    if i != [] {
      assert (i + a)[0] == HashedIndex(v.variant) && (j + b)[0] == HashedIndex(w.variant);
    }
    assert a == (i + a)[|i|..] && b == (j + b)[|i|..];
  }

  /** Nothing is left out: if the hashes of the fields can be told apart, then so can those of the values, whatever
      is hashed afterwards. */
  lemma HashTellsApart(def: Definition, im: Impls, v: Instance, w: Instance, s: seq<Event>, t: seq<Event>)
    requires FieldsTellApart(im) && Fits(def, v) && Fits(def, w)
    requires Hashed(def, im, v) + s == Hashed(def, im, w) + t
    ensures v == w && s == t
  {
    var a, b := FieldHashes(im, v.fields) + s, FieldHashes(im, w.fields) + t;
    var i, j := IndexEvents(def, v.variant), IndexEvents(def, w.variant);
    Assoc(i, FieldHashes(im, v.fields), s);
    Assoc(j, FieldHashes(im, w.fields), t);
    IndexTellsApart(def, v, w, a, b);
    FittingTypes(def, v, w);
    HashesTellApart(im, v.fields, w.fields, s, t);
  }

  /** What the hasher is fed by a run: the number of the variant if there are several, then what the fields feed, in
      the order of their declaration. */
  lemma HashesInOrder(c: Context, v: Instance, env: Env, w: World)
    requires Legal(c.def) && Fits(c.def, v) && "self" in env && env["self"] == RefTo(Whole(v))
    ensures
      var fed := CallMethod(c, Hashing(c.def), env, w).w.log;
      var index := if c.def.Enum? && |c.def.variants| >= 2 then [HashedIndex(v.variant)] else [];
      w.log + index <= fed && FedBy(c.im, v.fields, fed[|w.log + index|..])
  {
    HashingMeans(c, v, env, w);
    FieldsFeed(c.im, v.fields);
    FedAfter(w.log, IndexEvents(c.def, v.variant), FieldHashes(c.im, v.fields));
  }

  lemma FedAfter(log: seq<Event>, index: seq<Event>, fields: seq<Event>)
    ensures log + index <= log + (index + fields) && (log + (index + fields))[|log + index|..] == fields
  {
    Assoc(log, index, fields);
  }

  /** One field after the other, and of each one token after the other. */
  predicate FedBy(im: Impls, xs: seq<Datum>, es: seq<Event>)
    decreases xs
  {
    if xs == [] then es == []
    else
      var h := im.hash(xs[0]);
      && |h| <= |es| && (forall i :: 0 <= i < |h| ==> es[i] == Data(h[i]))
      && FedBy(im, xs[1..], es[|h|..])
  }

  lemma {:induction false} FieldsFeed(im: Impls, xs: seq<Datum>)
    ensures FedBy(im, xs, FieldHashes(im, xs))
    decreases xs
  {
    if xs != [] {
      FieldsFeed(im, xs[1..]);
      assert FieldHashes(im, xs)[|im.hash(xs[0])|..] == FieldHashes(im, xs[1..]);
    }
  }
}
