/** The code that `#[derive]` generates, the type definitions that it is generated from, and what the code does. */
module DeriveCode {
  import opened Sequences
  import opened Wrappers
  import Decimal

  // ----- definitions and values

  datatype Ordering = Less | Equal | Greater

  /** The value of a field, known only through what the implementations for its type say about it. */
  datatype Datum = Datum(ty: string, id: nat)

  datatype Item = Item(name: string, ty: string)

  datatype Shape = NoFields | TupleFields(types: seq<string>) | NamedFields(items: seq<Item>)

  datatype Variant = Variant(name: string, shape: Shape, discriminant: int)

  datatype Definition = Struct(name: string, shape: Shape) | Enum(name: string, variants: seq<Variant>)

  /** A value of the defined type: which variant, and the fields in the order of their declaration. */
  datatype Instance = Instance(variant: nat, fields: seq<Datum>)

  function FieldNames(shape: Shape): seq<string> {
    match shape
    case NoFields => []
    case TupleFields(types) => seq(|types|, i requires 0 <= i < |types| => Decimal.Render(i))
    case NamedFields(items) => seq(|items|, i requires 0 <= i < |items| => items[i].name)
  }

  /** The fields of a tuple are named `0`, `1` and so on; those of a struct have the names they are given. */
  lemma FieldsAreNamed(shape: Shape, i: nat)
    requires i < |FieldNames(shape)|
    ensures shape.TupleFields? ==> FieldNames(shape)[i] == Decimal.Render(i)
    ensures shape.TupleFields? && i < 10 ==> FieldNames(shape)[i] == ["0123456789"[i]]
    ensures shape.NamedFields? ==> i < |shape.items| && FieldNames(shape)[i] == shape.items[i].name
  {
  }

  function FieldTypes(shape: Shape): (types: seq<string>)
    ensures |types| == |FieldNames(shape)|
  {
    match shape
    case NoFields => []
    case TupleFields(types) => types
    case NamedFields(items) => seq(|items|, i requires 0 <= i < |items| => items[i].ty)
  }

  /** The names of the variants; those of a struct are its own name. */
  function Constructors(def: Definition): seq<string> {
    match def
    case Struct(name, _) => [name]
    case Enum(_, variants) => seq(|variants|, i requires 0 <= i < |variants| => variants[i].name)
  }

  function ShapeOf(def: Definition, variant: nat): Shape
    requires variant < |Constructors(def)|
  {
    if def.Struct? then def.shape else def.variants[variant].shape
  }

  predicate Distinct(names: seq<string>) {
    forall i, j :: 0 <= i < j < |names| ==> names[i] != names[j]
  }

  /** What the language demands of every definition. */
  predicate Legal(def: Definition) {
    && Distinct(Constructors(def))
    && forall k :: 0 <= k < |Constructors(def)| ==> Distinct(FieldNames(ShapeOf(def, k)))
  }

  predicate Fits(def: Definition, v: Instance) {
    && v.variant < |Constructors(def)|
    && HasTypes(v.fields, FieldTypes(ShapeOf(def, v.variant)))
  }

  predicate HasTypes(xs: seq<Datum>, types: seq<string>) {
    |xs| == |types| && forall i :: 0 <= i < |xs| ==> xs[i].ty == types[i]
  }

  // ----- what the generated code says to hashers, encoders and decoders

  /** A call of an encoder's `emit_..`, or of the decoder's `read_..` of the same name.  What is encoded is written down
      call by call. */
  datatype Call =
    | OfStruct(name: string, len: nat)
    | OfStructField(name: string, idx: nat)
    | OfTupleStruct(name: string, len: nat)
    | OfTupleStructArg(idx: nat)
    | OfEnum(name: string)
    | OfVariant(name: string, idx: nat, len: nat)
    | OfVariantArg(idx: nat)
    | OfStructVariant(name: string, idx: nat, len: nat)
    | OfStructVariantField(name: string, idx: nat)

  /** What a hasher or a serializer sees.  `Data` comes from the implementations of the field types. */
  datatype Event = Called(call: Call) | HashedIndex(n: int) | Data(token: nat)

  /** Variants with named fields look like variants with positions to a decoder, since they are read back as such. */
  function Wire(call: Call): Call {
    match call
    case OfStructVariant(name, idx, len) => OfVariant(name, idx, len)
    case OfStructVariantField(name, idx) => OfVariantArg(idx)
    case _ => call
  }

  datatype Encoded = Encoded(events: seq<Event>, ok: bool)

  datatype Decoded = Decoded(val: Datum, rest: seq<Event>)

  /** The implementations for the types of the fields. */
  datatype Impls = Impls(
    ne: (Datum, Datum) -> bool,
    cmp: (Datum, Datum) -> Ordering,
    partialCmp: (Datum, Datum) -> Option<Ordering>,
    hash: Datum -> seq<nat>,
    encode: Datum -> Encoded,
    decode: (string, seq<Event>) -> Option<Decoded>)

  // ----- generated code

  datatype Function =
    | NotEqual                     // `a != b`
    | PartialCmp
    | Cmp
    | DiscriminantValue
    | Hash                         // with the hasher that `hash` was given
    | Encode                       // with the encoder at hand
    | Decode(ty: string)           // with the decoder at hand, of the type that inference finds
    | SomeOf
    | OkOf
    | ErrOf(msg: string)
    | Construct(path: string)      // a tuple struct or tuple variant

  datatype Entry = Entry(field: string, pat: Pattern)

  datatype Pattern =
    | AnyPat
    | BindPat(name: string, byRef: bool)
    | RefPat(inner: Pattern)
    | TuplePat(items: seq<Pattern>)
    | NonePat
    | SomePat(inner: Pattern)
    | EqualPat
    | IntPat(n: int)
    | UnitPat(path: string)
    | NamedTuplePat(path: string, items: seq<Pattern>)
    | StructPat(path: string, entries: seq<Entry>)

  datatype Arm = Arm(pat: Pattern, body: Expr)

  datatype Expr =
    | Name(name: string)
    | BoolLit(b: bool)
    | IntLit(n: int)
    | NoneLit
    | EqualLit
    | UnitPath(path: string)
    | FieldOf(obj: Expr, field: string)
    | RefOf(inner: Expr)
    | TupleOf(items: seq<Expr>)
    | CallPath(fn: Function, args: seq<Expr>)
    | If(cond: Expr, body: Expr)
    | Return(val: Expr)
    | Match(val: Expr, arms: seq<Arm>)
    | Block(nodes: seq<Expr>)
    | Question(inner: Expr)
    | StructLiteral(path: string, names: seq<string>, vals: seq<Expr>)
    | Emit(call: Call, body: Expr)                      // with the closure's body
    | Read(call: Call, body: Expr)
    | ReadVariant(names: seq<string>, body: Expr)       // the closure gets `idx`

  // ----- what generated code does

  datatype Value =
    | Whole(inst: Instance)
    | Part(datum: Datum)
    | RefTo(target: Value)
    | Bool(b: bool)
    | Int(n: int)
    | Order(o: Ordering)
    | NoneValue
    | SomeValue(inner: Value)
    | OkValue(inner: Value)
    | ErrValue(msg: string)
    | Tup(items: seq<Value>)

  const UNIT: Value := Tup([])

  type Env = map<string, Value>

  /** Everything that was hashed or encoded, and everything that is still to be decoded. */
  datatype World = World(log: seq<Event>, input: seq<Event>)

  datatype Outcome = Done(val: Value) | Returned(val: Value) | Stuck

  datatype Run = Run(out: Outcome, w: World)

  datatype RunAll = AllDone(vals: seq<Value>, w: World) | Stopped(out: Outcome, w: World)

  /** A serializer writes both the name and the index of a variant, and reads one of them. */
  datatype Context = Context(def: Definition, im: Impls, byName: bool)

  function Strip(v: Value): Value {
    if v.RefTo? then Strip(v.target) else v
  }

  lemma StripRef(v: Value)
    requires !v.RefTo?
    ensures Strip(RefTo(v)) == v
  {
    assert Strip(v) == v;
  }

  function Parts(xs: seq<Datum>): seq<Value> {
    seq(|xs|, i requires 0 <= i < |xs| => Part(xs[i]))
  }

  function Datums(vs: seq<Value>): (xs: seq<Datum>)
    requires forall i :: 0 <= i < |vs| ==> vs[i].Part?
  {
    seq(|vs|, i requires 0 <= i < |vs| => vs[i].datum)
  }

  predicate IsVariant(def: Definition, v: Value, path: string) {
    v.Whole? && v.inst.variant < |Constructors(def)| && Constructors(def)[v.inst.variant] == path
  }

  function Both(a: Option<Env>, b: Option<Env>): Option<Env> {
    if a.Some? && b.Some? then Some(a.value + b.value) else None
  }

  function MatchPat(def: Definition, p: Pattern, v: Value): Option<Env>
    decreases p
  {
    match p
    case AnyPat => Some(map[])
    case BindPat(name, byRef) => Some(map[name := if byRef then RefTo(v) else v])
    case RefPat(inner) => if v.RefTo? then MatchPat(def, inner, v.target) else None
    case TuplePat(items) => if v.Tup? then MatchAll(def, items, v.items) else None
    case NonePat => if v.NoneValue? then Some(map[]) else None
    case SomePat(inner) => if v.SomeValue? then MatchPat(def, inner, v.inner) else None
    case EqualPat => if v == Order(Equal) then Some(map[]) else None
    case IntPat(n) => if v == Int(n) then Some(map[]) else None
    case UnitPat(path) => if IsVariant(def, v, path) then Some(map[]) else None
    case NamedTuplePat(path, items) =>
      if IsVariant(def, v, path) then MatchAll(def, items, Parts(v.inst.fields)) else None
    case StructPat(path, entries) =>
      if IsVariant(def, v, path) then
        MatchEntries(def, entries, FieldNames(ShapeOf(def, v.inst.variant)), Parts(v.inst.fields))
      else None
  }

  function MatchAll(def: Definition, ps: seq<Pattern>, vs: seq<Value>): Option<Env>
    decreases ps
  {
    if ps == [] && vs == [] then Some(map[])
    else if ps == [] || vs == [] then None
    else Both(MatchPat(def, ps[0], vs[0]), MatchAll(def, ps[1..], vs[1..]))
  }

  function MatchEntries(def: Definition, es: seq<Entry>, names: seq<string>, vs: seq<Value>): Option<Env>
    decreases es
  {
    if es == [] then Some(map[])
    else
      var k := Position(names, es[0].field);
      if k < |vs| then Both(MatchPat(def, es[0].pat, vs[k]), MatchEntries(def, es[1..], names, vs)) else None
  }

  function CompareInts(a: int, b: int): Ordering {
    if a < b then Less else if a == b then Equal else Greater
  }

  function OptionOrdering(o: Option<Ordering>): Value {
    match o
    case None => NoneValue
    case Some(x) => SomeValue(Order(x))
  }

  function Tokens(ts: seq<nat>): seq<Event> {
    seq(|ts|, i requires 0 <= i < |ts| => Data(ts[i]))
  }

  function Log(w: World, es: seq<Event>): World {
    w.(log := w.log + es)
  }

  function Build(def: Definition, path: string, vs: seq<Value>): Outcome {
    var k := Position(Constructors(def), path);
    if k < |Constructors(def)| && |vs| == |FieldNames(ShapeOf(def, k))| && (forall i :: 0 <= i < |vs| ==> vs[i].Part?) then
      Done(Whole(Instance(k, Datums(vs))))
    else Stuck
  }

  /** Values given by name, in the order of the declaration. */
  function Arrange(declared: seq<string>, names: seq<string>, vs: seq<Value>): seq<Value>
    requires |names| == |vs|
  {
    seq(|declared|, i requires 0 <= i < |declared| =>
      var k := Position(names, declared[i]); if k < |vs| then vs[k] else UNIT)
  }

  function BuildNamed(def: Definition, path: string, names: seq<string>, vs: seq<Value>): Outcome {
    var k := Position(Constructors(def), path);
    if k < |Constructors(def)| && |names| == |vs| then
      Build(def, path, Arrange(FieldNames(ShapeOf(def, k)), names, vs))
    else Stuck
  }

  function Apply(c: Context, fn: Function, vs: seq<Value>, w: World): Run {
    match fn
    case NotEqual =>
      if |vs| == 2 && Strip(vs[0]).Part? && Strip(vs[1]).Part? then
        Run(Done(Bool(c.im.ne(Strip(vs[0]).datum, Strip(vs[1]).datum))), w)
      else Run(Stuck, w)
    case PartialCmp =>
      if !(|vs| == 2 && vs[0].RefTo? && vs[1].RefTo?) then Run(Stuck, w)
      else if Strip(vs[0]).Part? && Strip(vs[1]).Part? then
        Run(Done(OptionOrdering(c.im.partialCmp(Strip(vs[0]).datum, Strip(vs[1]).datum))), w)
      else if Strip(vs[0]).Int? && Strip(vs[1]).Int? then
        Run(Done(SomeValue(Order(CompareInts(Strip(vs[0]).n, Strip(vs[1]).n)))), w)
      else Run(Stuck, w)
    case Cmp =>
      if !(|vs| == 2 && vs[0].RefTo? && vs[1].RefTo?) then Run(Stuck, w)
      else if Strip(vs[0]).Part? && Strip(vs[1]).Part? then
        Run(Done(Order(c.im.cmp(Strip(vs[0]).datum, Strip(vs[1]).datum))), w)
      else if Strip(vs[0]).Int? && Strip(vs[1]).Int? then
        Run(Done(Order(CompareInts(Strip(vs[0]).n, Strip(vs[1]).n))), w)
      else Run(Stuck, w)
    case DiscriminantValue =>
      if |vs| == 1 && vs[0].RefTo? && vs[0].target.Whole? && c.def.Enum? && vs[0].target.inst.variant < |c.def.variants| then
        Run(Done(Int(c.def.variants[vs[0].target.inst.variant].discriminant)), w)
      else Run(Stuck, w)
    case Hash =>
      if !(|vs| == 1 && vs[0].RefTo?) then Run(Stuck, w)
      else if Strip(vs[0]).Part? then Run(Done(UNIT), Log(w, Tokens(c.im.hash(Strip(vs[0]).datum))))
      else if Strip(vs[0]).Int? then Run(Done(UNIT), Log(w, [HashedIndex(Strip(vs[0]).n)]))
      else Run(Stuck, w)
    case Encode =>
      if |vs| == 1 && vs[0].RefTo? && Strip(vs[0]).Part? then
        var e := c.im.encode(Strip(vs[0]).datum);
        Run(Done(if e.ok then OkValue(UNIT) else ErrValue("field")), Log(w, e.events))
      else Run(Stuck, w)
    case Decode(ty) =>
      (match c.im.decode(ty, w.input)
       case None => Run(Done(ErrValue("field")), w)
       case Some(d) => Run(Done(OkValue(Part(d.val))), w.(input := d.rest)))
    case SomeOf => Run(if |vs| == 1 then Done(SomeValue(vs[0])) else Stuck, w)
    case OkOf => Run(if |vs| == 1 then Done(OkValue(vs[0])) else Stuck, w)
    case ErrOf(msg) => Run(Done(ErrValue(msg)), w)
    case Construct(path) => Run(Build(c.def, path, vs), w)
  }

  /** The end of a function or closure: `return` and `?` go no further. */
  function Caught(r: Run): Run {
    if r.out.Returned? then Run(Done(r.out.val), r.w) else r
  }

  /** `self.f` looks through references. */
  function GetField(def: Definition, v: Value, field: string): Outcome {
    var u := Strip(v);
    if u.Whole? && u.inst.variant < |Constructors(def)| then
      var k := Position(FieldNames(ShapeOf(def, u.inst.variant)), field);
      if k < |u.inst.fields| then Done(Part(u.inst.fields[k])) else Stuck
    else Stuck
  }

  /** The call that was written looks like this one. */
  predicate NextIs(w: World, call: Call) {
    w.input != [] && w.input[0].Called? && Wire(w.input[0].call) == Wire(call)
  }

  function Advance(w: World): World
    requires w.input != []
  {
    w.(input := w.input[1..])
  }

  /** The index that the decoder hands on for a variant that was written with this call. */
  function VariantIndex(c: Context, names: seq<string>, call: Call): nat
    requires call.OfVariant?
  {
    if c.byName then Position(names, call.name) else call.idx
  }

  function Eval(c: Context, e: Expr, env: Env, w: World): Run
    decreases e
  {
    match e
    case Name(x) => Run(if x in env then Done(env[x]) else Stuck, w)
    case BoolLit(b) => Run(Done(Bool(b)), w)
    case IntLit(n) => Run(Done(Int(n)), w)
    case NoneLit => Run(Done(NoneValue), w)
    case EqualLit => Run(Done(Order(Equal)), w)
    case UnitPath(path) => Run(Build(c.def, path, []), w)
    case FieldOf(obj, field) =>
      var r := Eval(c, obj, env, w);
      if r.out.Done? then Run(GetField(c.def, r.out.val, field), r.w) else r
    case RefOf(inner) =>
      var r := Eval(c, inner, env, w);
      if r.out.Done? then Run(Done(RefTo(r.out.val)), r.w) else r
    case TupleOf(items) =>
      (match EvalAll(c, items, env, w)
       case AllDone(vs, w1) => Run(Done(Tup(vs)), w1)
       case Stopped(out, w1) => Run(out, w1))
    case CallPath(fn, args) =>
      (match EvalAll(c, args, env, w)
       case AllDone(vs, w1) => Apply(c, fn, vs, w1)
       case Stopped(out, w1) => Run(out, w1))
    case If(cond, body) =>
      var r := Eval(c, cond, env, w);
      if !r.out.Done? then r
      else if r.out.val == Bool(true) then Eval(c, body, env, r.w)
      else Run(if r.out.val == Bool(false) then Done(UNIT) else Stuck, r.w)
    case Return(val) =>
      var r := Eval(c, val, env, w);
      if r.out.Done? then Run(Returned(r.out.val), r.w) else r
    case Match(val, arms) =>
      var r := Eval(c, val, env, w);
      if r.out.Done? then EvalArms(c, arms, r.out.val, env, r.w) else r
    case Block(nodes) => EvalBlock(c, nodes, env, w)
    case Question(inner) =>
      var r := Eval(c, inner, env, w);
      if !r.out.Done? then r
      else if r.out.val.OkValue? then Run(Done(r.out.val.inner), r.w)
      else Run(if r.out.val.ErrValue? then Returned(r.out.val) else Stuck, r.w)
    case StructLiteral(path, names, vals) =>
      (match EvalAll(c, vals, env, w)
       case AllDone(vs, w1) => Run(BuildNamed(c.def, path, names, vs), w1)
       case Stopped(out, w1) => Run(out, w1))
    case Emit(call, body) => Caught(Eval(c, body, env, Log(w, [Called(call)])))
    case Read(call, body) =>
      if NextIs(w, call) then Caught(Eval(c, body, env, Advance(w)))
      else Run(Done(ErrValue("read")), w)
    case ReadVariant(names, body) =>
      if w.input != [] && w.input[0].Called? && Wire(w.input[0].call).OfVariant? then
        var k := VariantIndex(c, names, Wire(w.input[0].call));
        if c.byName && k == |names| then Run(Done(ErrValue("read")), w)
        else Caught(Eval(c, body, env["idx" := Int(k)], Advance(w)))
      else Run(Done(ErrValue("read")), w)
  }

  function EvalAll(c: Context, es: seq<Expr>, env: Env, w: World): RunAll
    decreases es
  {
    if es == [] then AllDone([], w)
    else
      var r := Eval(c, es[0], env, w);
      if !r.out.Done? then Stopped(r.out, r.w)
      else
        match EvalAll(c, es[1..], env, r.w)
        case AllDone(vs, w1) => AllDone([r.out.val] + vs, w1)
        case Stopped(out, w1) => Stopped(out, w1)
  }

  /** The value of a block is that of its last node. */
  function EvalBlock(c: Context, es: seq<Expr>, env: Env, w: World): Run
    decreases es
  {
    if es == [] then Run(Done(UNIT), w)
    else
      var r := Eval(c, es[0], env, w);
      if |es| == 1 || !r.out.Done? then r else EvalBlock(c, es[1..], env, r.w)
  }

  function EvalArms(c: Context, arms: seq<Arm>, v: Value, env: Env, w: World): Run
    decreases arms
  {
    if arms == [] then Run(Stuck, w)
    else
      assert arms[0].body < arms[0];
      match MatchPat(c.def, arms[0].pat, v)
      case Some(bound) => Eval(c, arms[0].body, env + bound, w)
      case None => EvalArms(c, arms[1..], v, env, w)
  }

  /** A call of the generated method, whose body holds one node. */
  function CallMethod(c: Context, node: Expr, env: Env, w: World): Run {
    Caught(Eval(c, Block([node]), env, w))
  }

  lemma OneNode(c: Context, node: Expr, env: Env, w: World)
    ensures CallMethod(c, node, env, w) == Caught(Eval(c, node, env, w))
  {
    assert Block([node]).nodes == [node];
    assert EvalBlock(c, [node], env, w) == Eval(c, node, env, w);
  }

  // ----- patterns that bind every field by reference

  function Prefixed(prefix: string, names: seq<string>): seq<string> {
    seq(|names|, i requires 0 <= i < |names| => prefix + names[i])
  }

  function Binds(prefix: string, names: seq<string>): seq<Pattern> {
    seq(|names|, i requires 0 <= i < |names| => BindPat(prefix + names[i], true))
  }

  function Entries(names: seq<string>, pats: seq<Pattern>): seq<Entry>
    requires |names| == |pats|
  {
    seq(|names|, i requires 0 <= i < |names| => Entry(names[i], pats[i]))
  }

  function VariantPat(path: string, shape: Shape, prefix: string): Pattern {
    match shape
    case NoFields => UnitPat(path)
    case TupleFields(_) => NamedTuplePat(path, Binds(prefix, FieldNames(shape)))
    case NamedFields(_) => StructPat(path, Entries(FieldNames(shape), Binds(prefix, FieldNames(shape))))
  }

  /** The bindings `prefix`+name are there, one for each value, and no others. */
  predicate Bound(m: Env, prefix: string, names: seq<string>, vs: seq<Value>) {
    && |names| == |vs|
    && (forall i :: 0 <= i < |names| ==> prefix + names[i] in m && m[prefix + names[i]] == RefTo(vs[i]))
    && (forall x :: x in m ==> x in Prefixed(prefix, names))
  }

  lemma HeadUnbound(m: Env, prefix: string, names: seq<string>, vs: seq<Value>)
    requires names != [] && |names| == |vs| && Distinct(names)
    requires Bound(m, prefix, names[1..], vs[1..])
    ensures prefix + names[0] !in m
  {
    var tail := names[1..];
    if prefix + names[0] in m {
      var k :| 0 <= k < |tail| && Prefixed(prefix, tail)[k] == prefix + names[0];
      SamePrefix(prefix, names[k + 1], names[0]);
    }
  }

  lemma BoundCons(m: Env, prefix: string, names: seq<string>, vs: seq<Value>)
    requires names != [] && |names| == |vs| && Distinct(names)
    requires Bound(m, prefix, names[1..], vs[1..])
    ensures Bound(map[prefix + names[0] := RefTo(vs[0])] + m, prefix, names, vs)
  {
    var all := map[prefix + names[0] := RefTo(vs[0])] + m;
    var tail := names[1..];
    HeadUnbound(m, prefix, names, vs);
    forall i | 0 <= i < |names|
      ensures prefix + names[i] in all && all[prefix + names[i]] == RefTo(vs[i])
    {
      if i > 0 {
        assert tail[i - 1] == names[i] && vs[1..][i - 1] == vs[i];
      }
    }
    forall x | x in all
      ensures x in Prefixed(prefix, names)
    {
      if x in m {
        var k :| 0 <= k < |tail| && Prefixed(prefix, tail)[k] == x;
        assert Prefixed(prefix, names)[k + 1] == x;
      } else {
        assert Prefixed(prefix, names)[0] == x;
      }
    }
  }

  lemma SamePrefix(p: string, a: string, b: string)
    requires p + a == p + b
    ensures a == b
  {
    assert a == (p + a)[|p|..] && b == (p + b)[|p|..];
  }

  function BindingsOf(o: Option<Env>): Env {
    if o.Some? then o.value else map[]
  }

  lemma {:induction false} BindsMatch(def: Definition, prefix: string, names: seq<string>, vs: seq<Value>)
    requires |names| == |vs| && Distinct(names)
    ensures
      var m := MatchAll(def, Binds(prefix, names), vs);
      m.Some? && Bound(BindingsOf(m), prefix, names, vs)
    decreases |names|
  {
    var ps := Binds(prefix, names);
    if names != [] {
      assert ps[1..] == Binds(prefix, names[1..]);
      BindsMatch(def, prefix, names[1..], vs[1..]);
      BoundCons(MatchAll(def, ps[1..], vs[1..]).value, prefix, names, vs);
    }
  }

  lemma PositionOf(names: seq<string>, k: nat)
    requires Distinct(names) && k < |names|
    ensures Position(names, names[k]) == k
  {
  }

  lemma EntryStep(def: Definition, prefix: string, names: seq<string>, vs: seq<Value>, n: nat, rest: seq<Entry>)
    requires |names| == |vs| && Distinct(names) && n < |names|
    ensures MatchEntries(def, [Entry(names[n], BindPat(prefix + names[n], true))] + rest, names, vs)
         == Both(Some(map[prefix + names[n] := RefTo(vs[n])]), MatchEntries(def, rest, names, vs))
  {
    PositionOf(names, n);
    var es := [Entry(names[n], BindPat(prefix + names[n], true))] + rest;
    assert es[1..] == rest;
  }

  lemma {:induction false} EntriesMatch(def: Definition, prefix: string, names: seq<string>, vs: seq<Value>, n: nat)
    requires |names| == |vs| && Distinct(names) && n <= |names|
    ensures
      var m := MatchEntries(def, Entries(names[n..], Binds(prefix, names[n..])), names, vs);
      m.Some? && Bound(BindingsOf(m), prefix, names[n..], vs[n..])
    decreases |names| - n
  {
    if n < |names| {
      var tail, next := names[n..], names[n + 1..];
      var rest := Entries(next, Binds(prefix, next));
      EntriesMatch(def, prefix, names, vs, n + 1);
      EntryStep(def, prefix, names, vs, n, rest);
      assert tail[1..] == next && vs[n..][1..] == vs[n + 1..];
      assert Entries(tail, Binds(prefix, tail)) == [Entry(names[n], BindPat(prefix + names[n], true))] + rest;
      BoundCons(MatchEntries(def, rest, names, vs).value, prefix, tail, vs[n..]);
    }
  }

  lemma WhichVariant(def: Definition, k: nat, v: Instance)
    requires Legal(def) && def.Enum? && k < |def.variants| && Fits(def, v)
    ensures IsVariant(def, Whole(v), def.variants[k].name) <==> v.variant == k
    ensures ShapeOf(def, k) == def.variants[k].shape
    ensures Distinct(FieldNames(def.variants[k].shape))
    ensures v.variant == k ==> |v.fields| == |FieldNames(def.variants[k].shape)|
  {
    assert Constructors(def)[k] == def.variants[k].name && Constructors(def)[v.variant] == def.variants[v.variant].name;
    assert Distinct(FieldNames(ShapeOf(def, k)));
  }

  /** The pattern of a variant matches the values of that variant, and binds their fields. */
  lemma VariantMatches(def: Definition, prefix: string, k: nat, v: Instance)
    requires Legal(def) && def.Enum? && k < |def.variants| && Fits(def, v)
    ensures
      var shape := def.variants[k].shape;
      var m := MatchPat(def, VariantPat(def.variants[k].name, shape, prefix), Whole(v));
      && (m.Some? <==> v.variant == k)
      && (v.variant == k ==> Bound(BindingsOf(m), prefix, FieldNames(shape), Parts(v.fields)))
  {
    WhichVariant(def, k, v);
    FieldsMatch(def, prefix, def.variants[k].name, def.variants[k].shape, v);
  }

  lemma FieldsMatch(def: Definition, prefix: string, path: string, shape: Shape, v: Instance)
    requires IsVariant(def, Whole(v), path) ==>
      Distinct(FieldNames(shape)) && |v.fields| == |FieldNames(shape)| && ShapeOf(def, v.variant) == shape
    ensures
      var m := MatchPat(def, VariantPat(path, shape, prefix), Whole(v));
      && (m.Some? <==> IsVariant(def, Whole(v), path))
      && (m.Some? ==> Bound(BindingsOf(m), prefix, FieldNames(shape), Parts(v.fields)))
  {
    var names, vs := FieldNames(shape), Parts(v.fields);
    if IsVariant(def, Whole(v), path) {
      BindsMatch(def, prefix, names, vs);
      EntriesMatch(def, prefix, names, vs, 0);
      assert names[0..] == names && vs[0..] == vs;
    }
    VariantPatMatch(def, prefix, path, shape, v);
  }

  lemma VariantPatMatch(def: Definition, prefix: string, path: string, shape: Shape, v: Instance)
    requires IsVariant(def, Whole(v), path) ==> ShapeOf(def, v.variant) == shape
    ensures
      var names := FieldNames(shape);
      MatchPat(def, VariantPat(path, shape, prefix), Whole(v)) ==
        if !IsVariant(def, Whole(v), path) then None
        else if shape.NoFields? then Some(map[])
        else if shape.TupleFields? then MatchAll(def, Binds(prefix, names), Parts(v.fields))
        else MatchEntries(def, Entries(names, Binds(prefix, names)), names, Parts(v.fields))
  {
  }

  /** The other names that generated code makes use of. */
  const ARGUMENTS: set<string> := {"self", "v", "res", "s", "d", "state", "idx", "f"}

  /** Bindings of the two sides never meet: `a` and `b` come first, and what follows tells the fields apart. */
  lemma BindingsNeverCollide(names: seq<string>, i: nat, j: nat)
    requires Distinct(names) && i < |names| && j < |names|
    ensures "a" + names[i] != "b" + names[j]
    ensures "a" + names[i] == "a" + names[j] <==> i == j
    ensures "b" + names[i] == "b" + names[j] <==> i == j
    ensures forall x | x in ARGUMENTS :: "a" + names[i] != x && "b" + names[i] != x
  {
    assert ("a" + names[i])[0] == 'a' && ("b" + names[j])[0] == 'b' && ("b" + names[i])[0] == 'b';
    if "a" + names[i] == "a" + names[j] {
      SamePrefix("a", names[i], names[j]);
    }
    if "b" + names[i] == "b" + names[j] {
      SamePrefix("b", names[i], names[j]);
    }
  }

  lemma {:induction false} ArmSelected(c: Context, arms: seq<Arm>, k: nat, v: Value, env: Env, w: World)
    requires k < |arms| && MatchPat(c.def, arms[k].pat, v).Some?
    requires forall j :: 0 <= j < k ==> MatchPat(c.def, arms[j].pat, v).None?
    ensures EvalArms(c, arms, v, env, w) == Eval(c, arms[k].body, env + MatchPat(c.def, arms[k].pat, v).value, w)
  {
    if k > 0 {
      assert MatchPat(c.def, arms[0].pat, v).None?;
      ArmSelected(c, arms[1..], k - 1, v, env, w);
    }
  }

  // ----- how the patterns and the nodes are made

  /** One binding and one node for each field, in order. */
  method MakeRefpatA(names: seq<string>, cb: (nat, Expr) -> Expr) returns (patsA: seq<Pattern>, nodes: seq<Expr>)
    ensures patsA == Binds("a", names)
    ensures nodes == seq(|names|, i requires 0 <= i < |names| => cb(i, Name("a" + names[i])))
  {
    patsA, nodes := [], [];
    for idx := 0 to |names|
      invariant patsA == Binds("a", names)[..idx]
      invariant nodes == seq(|names|, i requires 0 <= i < |names| => cb(i, Name("a" + names[i])))[..idx]
    {
      var nameA := "a" + names[idx];
      patsA := patsA + [BindPat(nameA, true)];
      nodes := nodes + [cb(idx, Name(nameA))];
    }
  }

  method MakeRefpatAB(names: seq<string>, cb: (nat, Expr, Expr) -> Expr)
      returns (patsA: seq<Pattern>, patsB: seq<Pattern>, nodes: seq<Expr>)
    ensures patsA == Binds("a", names) && patsB == Binds("b", names)
    ensures nodes == seq(|names|, i requires 0 <= i < |names| => cb(i, Name("a" + names[i]), Name("b" + names[i])))
  {
    patsA, patsB, nodes := [], [], [];
    for idx := 0 to |names|
      invariant patsA == Binds("a", names)[..idx] && patsB == Binds("b", names)[..idx]
      invariant nodes == seq(|names|, i requires 0 <= i < |names| => cb(i, Name("a" + names[i]), Name("b" + names[i])))[..idx]
    {
      var nameA, nameB := "a" + names[idx], "b" + names[idx];
      patsA := patsA + [BindPat(nameA, true)];
      patsB := patsB + [BindPat(nameB, true)];
      nodes := nodes + [cb(idx, Name(nameA), Name(nameB))];
    }
  }
}
