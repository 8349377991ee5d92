/** `#[derive(RustcEncodable, RustcDecodable)]`: the generated encoding and decoding, and that they are inverse. */
module DeriveSerial {
  import opened Sequences
  import opened Wrappers
  import opened DeriveCode
  import opened DeriveCompare
  import opened DeriveHash
  import Decimal

  // ----- the generated encoding

  function OkUnit(): Expr {
    CallPath(OkOf, [TupleOf([])])
  }

  function EncodeDirect(val: Expr): Expr {
    CallPath(Encode, [val])
  }

  /** The call for a field, inside that for the value. */
  function FieldCall(ofVariant: bool, shape: Shape, i: nat): Call
    requires i < |FieldNames(shape)|
  {
    var name := FieldNames(shape)[i];
    if ofVariant then if shape.NamedFields? then OfStructVariantField(name, i) else OfVariantArg(i)
    else if shape.NamedFields? then OfStructField(name, i)
    else OfTupleStructArg(i)
  }

  function FieldCalls(ofVariant: bool, shape: Shape): seq<Call> {
    seq(|FieldNames(shape)|, i requires 0 <= i < |FieldNames(shape)| => FieldCall(ofVariant, shape, i))
  }

  function StructCall(name: string, shape: Shape): Call {
    var len := |FieldNames(shape)|;
    if shape.NamedFields? then OfStruct(name, len) else OfTupleStruct(name, len)
  }

  function VariantCall(v: Variant, k: nat): Call {
    var len := |FieldNames(v.shape)|;
    if v.shape.NamedFields? then OfStructVariant(v.name, k, len) else OfVariant(v.name, k, len)
  }

  function EncodeFields(calls: seq<Call>, vals: seq<Expr>): seq<Expr>
    requires |calls| == |vals|
  {
    seq(|calls|, i requires 0 <= i < |calls| => Emit(calls[i], EncodeDirect(vals[i])))
  }

  function StructEncoding(name: string, shape: Shape): Expr {
    if shape.NoFields? then OkUnit()
    else
      Emit(StructCall(name, shape),
           Block(EncodeFields(FieldCalls(false, shape), Refs(Accesses("self", FieldNames(shape)))) + [OkUnit()]))
  }

  function EncodeArm(v: Variant, k: nat): Arm {
    var body :=
      if v.shape.NoFields? then OkUnit()
      else Block(EncodeFields(FieldCalls(true, v.shape), Variables("a", FieldNames(v.shape))) + [OkUnit()]);
    Arm(RefPat(VariantPat(v.name, v.shape, "a")), Emit(VariantCall(v, k), body))
  }

  function EncodeArms(variants: seq<Variant>): seq<Arm> {
    seq(|variants|, k requires 0 <= k < |variants| => EncodeArm(variants[k], k))
  }

  function Encoding(def: Definition): Expr {
    match def
    case Struct(name, shape) => StructEncoding(name, shape)
    case Enum(name, variants) => Emit(OfEnum(name), Match(Name("self"), EncodeArms(variants)))
  }

  method EncodeStruct(name: string, shape: Shape) returns (node: Expr)
    ensures node == StructEncoding(name, shape)
  {
    var names := FieldNames(shape);
    var nodes: seq<Expr> := [];
    ghost var calls, vals := FieldCalls(false, shape), Refs(Accesses("self", names));
    for i := 0 to |names|
      invariant nodes == EncodeFields(calls, vals)[..i]
    {
      var val := EncodeDirect(RefOf(FieldOf(Name("self"), names[i])));
      assert calls[i] == FieldCall(false, shape, i) && EncodeDirect(vals[i]) == val;
      assert EncodeFields(calls, vals)[i] == Emit(calls[i], EncodeDirect(vals[i]));
      nodes := nodes + [Emit(if shape.NamedFields? then OfStructField(names[i], i) else OfTupleStructArg(i), val)];
    }
    assert EncodeFields(calls, vals)[..|names|] == EncodeFields(calls, vals);
    nodes := nodes + [OkUnit()];
    match shape {
      case NoFields => node := OkUnit();
      case NamedFields(items) => node := Emit(OfStruct(name, |items|), Block(nodes));
      case TupleFields(types) => node := Emit(OfTupleStruct(name, |types|), Block(nodes));
    }
  }

  method EncodeEnum(name: string, variants: seq<Variant>) returns (node: Expr)
    ensures node == Encoding(Enum(name, variants))
  {
    var arms: seq<Arm> := [];
    for k := 0 to |variants|
      invariant arms == EncodeArms(variants)[..k]
    {
      var v := variants[k];
      var code, patA;
      var names := FieldNames(v.shape);
      var named := v.shape.NamedFields?;
      var patsA, nodes := MakeRefpatA(names, (idx: nat, a: Expr) =>
        Emit(if named && idx < |names| then OfStructVariantField(names[idx], idx) else OfVariantArg(idx), EncodeDirect(a)));
      assert nodes == EncodeFields(FieldCalls(true, v.shape), Variables("a", names));
      nodes := nodes + [OkUnit()];
      match v.shape {
        case NoFields =>
          code, patA := Emit(OfVariant(v.name, k, 0), OkUnit()), UnitPat(v.name);
        case TupleFields(types) =>
          code, patA := Emit(OfVariant(v.name, k, |types|), Block(nodes)), NamedTuplePat(v.name, patsA);
        case NamedFields(items) =>
          code, patA := Emit(OfStructVariant(v.name, k, |items|), Block(nodes)), StructPat(v.name, Entries(names, patsA));
      }
      var arm := Arm(RefPat(patA), code);
      assert arm == EncodeArm(v, k) == EncodeArms(variants)[k];
      arms := arms + [arm];
    }
    assert EncodeArms(variants)[..|variants|] == EncodeArms(variants);
    node := Emit(OfEnum(name), Match(Name("self"), arms));
  }

  // ----- the generated decoding

  function DecodeFields(calls: seq<Call>, types: seq<string>): seq<Expr>
    requires |calls| == |types|
  {
    seq(|calls|, i requires 0 <= i < |calls| => Question(Read(calls[i], CallPath(Decode(types[i]), []))))
  }

  /** The value, built of its decoded fields. */
  function Rebuild(ofVariant: bool, path: string, shape: Shape): Expr {
    var vals := DecodeFields(FieldCalls(ofVariant, shape), FieldTypes(shape));
    match shape
    case NoFields => UnitPath(path)
    case TupleFields(_) => CallPath(Construct(path), vals)
    case NamedFields(_) => StructLiteral(path, FieldNames(shape), vals)
  }

  function Ok(val: Expr): Expr {
    CallPath(OkOf, [val])
  }

  function StructDecoding(name: string, shape: Shape): Expr {
    var body := Ok(Rebuild(false, name, shape));
    if shape.NoFields? then body else Read(StructCall(name, shape), body)
  }

  function DecodeArms(variants: seq<Variant>): seq<Arm> {
    seq(|variants|, k requires 0 <= k < |variants| => Arm(IntPat(k), Ok(Rebuild(true, variants[k].name, variants[k].shape))))
  }

  function UnknownArm(): Arm {
    Arm(AnyPat, CallPath(ErrOf("enum value unknown"), []))
  }

  function VariantNames(variants: seq<Variant>): seq<string> {
    seq(|variants|, i requires 0 <= i < |variants| => variants[i].name)
  }

  function Decoding(def: Definition): Expr {
    match def
    case Struct(name, shape) => StructDecoding(name, shape)
    case Enum(name, variants) =>
      Read(OfEnum(name), ReadVariant(VariantNames(variants), Match(Name("idx"), DecodeArms(variants) + [UnknownArm()])))
  }

  method DecodeShape(ofVariant: bool, path: string, shape: Shape) returns (node: Expr)
    ensures node == Rebuild(ofVariant, path, shape)
  {
    var names, types := FieldNames(shape), FieldTypes(shape);
    var vals: seq<Expr> := [];
    for i := 0 to |names|
      invariant vals == DecodeFields(FieldCalls(ofVariant, shape), types)[..i]
    {
      var call := FieldCall(ofVariant, shape, i);
      assert FieldCalls(ofVariant, shape)[i] == call;
      vals := vals + [Question(Read(call, CallPath(Decode(types[i]), [])))];
    }
    match shape {
      case NoFields => node := UnitPath(path);
      case TupleFields(_) => node := CallPath(Construct(path), vals);
      case NamedFields(_) => node := StructLiteral(path, names, vals);
    }
  }

  method DecodeStruct(name: string, shape: Shape) returns (node: Expr)
    ensures node == StructDecoding(name, shape)
  {
    var value := DecodeShape(false, name, shape);
    match shape {
      case NoFields => node := Ok(UnitPath(name));
      case NamedFields(items) => node := Read(OfStruct(name, |items|), Ok(value));
      case TupleFields(types) => node := Read(OfTupleStruct(name, |types|), Ok(value));
    }
  }

  method DecodeEnum(name: string, variants: seq<Variant>) returns (node: Expr)
    ensures node == Decoding(Enum(name, variants))
  {
    var arms: seq<Arm> := [];
    var names: seq<string> := [];
    for k := 0 to |variants|
      invariant arms == DecodeArms(variants)[..k] && names == VariantNames(variants)[..k]
    {
      var code := DecodeShape(true, variants[k].name, variants[k].shape);
      arms := arms + [Arm(IntPat(k), Ok(code))];
      names := names + [variants[k].name];
    }
    assert names == VariantNames(variants) && arms == DecodeArms(variants);
    arms := arms + [Arm(AnyPat, CallPath(ErrOf("enum value unknown"), []))];
    node := Read(OfEnum(name), ReadVariant(names, Match(Name("idx"), arms)));
  }

  // ----- what is encoded

  function FieldEvents(im: Impls, calls: seq<Call>, xs: seq<Datum>): seq<Event>
    requires |calls| == |xs|
  {
    if calls == [] then [] else [Called(calls[0])] + im.encode(xs[0]).events + FieldEvents(im, calls[1..], xs[1..])
  }

  function EncodedOf(def: Definition, im: Impls, v: Instance): seq<Event>
    requires Fits(def, v)
  {
    match def
    case Struct(name, shape) =>
      if shape.NoFields? then []
      else [Called(StructCall(name, shape))] + FieldEvents(im, FieldCalls(false, ShapeOf(def, v.variant)), v.fields)
    case Enum(name, variants) =>
      [Called(OfEnum(name))] + ([Called(VariantCall(variants[v.variant], v.variant))]
      + FieldEvents(im, FieldCalls(true, ShapeOf(def, v.variant)), v.fields))
  }

  lemma EncodeStep(c: Context, call: Call, e: Expr, env: Env, w: World, x: Datum)
    requires Denotes(c, e, env, x)
    ensures
      var r := Eval(c, Emit(call, EncodeDirect(e)), env, w);
      r.out.Done? && r.w == Log(w, [Called(call)] + c.im.encode(x).events)
  {
    var w1 := Log(w, [Called(call)]);
    OneArg(c, e, env, w1);
    StripRef(Part(x));
    assert EvalAll(c, [e], env, w1) == AllDone([RefTo(Part(x))], w1);
    LogLog(w, [Called(call)], c.im.encode(x).events);
  }

  lemma DoneStep(c: Context, e: Expr, es: seq<Expr>, env: Env, w: World)
    requires es != [] && Eval(c, e, env, w).out.Done?
    ensures EvalBlock(c, [e] + es, env, w) == EvalBlock(c, es, env, Eval(c, e, env, w).w)
  {
    assert ([e] + es)[1..] == es;
  }

  lemma OkUnitMeans(c: Context, env: Env, w: World)
    ensures Eval(c, OkUnit(), env, w) == Run(Done(OkValue(UNIT)), w)
  {
    OneArg(c, TupleOf([]), env, w);
    assert Eval(c, TupleOf([]), env, w) == Run(Done(UNIT), w);
  }

  lemma SplitFields(calls: seq<Call>, es: seq<Expr>)
    requires |calls| == |es| > 0
    ensures EncodeFields(calls, es) + [OkUnit()]
         == [Emit(calls[0], EncodeDirect(es[0]))] + (EncodeFields(calls[1..], es[1..]) + [OkUnit()])
  {
    assert EncodeFields(calls, es) == [Emit(calls[0], EncodeDirect(es[0]))] + EncodeFields(calls[1..], es[1..]);
  }

  lemma {:induction false} FieldsEncoded(c: Context, calls: seq<Call>, es: seq<Expr>, env: Env, w: World, xs: seq<Datum>)
    requires |calls| == |es| == |xs| && forall i :: 0 <= i < |es| ==> Denotes(c, es[i], env, xs[i])
    ensures EvalBlock(c, EncodeFields(calls, es) + [OkUnit()], env, w)
         == Run(Done(OkValue(UNIT)), Log(w, FieldEvents(c.im, calls, xs)))
    decreases |calls|
  {
    if calls == [] {
      OkUnitMeans(c, env, w);
      LogLog(w, [], []);
      assert EncodeFields(calls, es) + [OkUnit()] == [OkUnit()];
    } else {
      var head := [Called(calls[0])] + c.im.encode(xs[0]).events;
      EncodeStep(c, calls[0], es[0], env, w, xs[0]);
      FieldsEncoded(c, calls[1..], es[1..], env, Log(w, head), xs[1..]);
      SplitFields(calls, es);
      DoneStep(c, Emit(calls[0], EncodeDirect(es[0])), EncodeFields(calls[1..], es[1..]) + [OkUnit()], env, w);
      LogLog(w, head, FieldEvents(c.im, calls[1..], xs[1..]));
    }
  }

  lemma EmitStep(c: Context, call: Call, body: Expr, env: Env, w: World, es: seq<Event>)
    requires Eval(c, body, env, Log(w, [Called(call)])) == Run(Done(OkValue(UNIT)), Log(Log(w, [Called(call)]), es))
    ensures Eval(c, Emit(call, body), env, w) == Run(Done(OkValue(UNIT)), Log(w, [Called(call)] + es))
  {
    LogLog(w, [Called(call)], es);
  }

  lemma StructEncoded(c: Context, v: Instance, env: Env, w: World)
    requires Legal(c.def) && c.def.Struct? && Fits(c.def, v) && "self" in env && env["self"] == RefTo(Whole(v))
    ensures Eval(c, StructEncoding(c.def.name, c.def.shape), env, w)
         == Run(Done(OkValue(UNIT)), Log(w, EncodedOf(c.def, c.im, v)))
  {
    var shape := c.def.shape;
    var calls, es := FieldCalls(false, shape), Refs(Accesses("self", FieldNames(shape)));
    assert v.variant == 0 && ShapeOf(c.def, 0) == shape;
    if shape.NoFields? {
      OkUnitMeans(c, env, w);
      LogLog(w, [], []);
    } else {
      forall i | 0 <= i < |es|
        ensures Denotes(c, es[i], env, v.fields[i])
      {
        AccessDenotes(c, v, env, i);
      }
      var call := StructCall(c.def.name, shape);
      FieldsEncoded(c, calls, es, env, Log(w, [Called(call)]), v.fields);
      EmitStep(c, call, Block(EncodeFields(calls, es) + [OkUnit()]), env, w, FieldEvents(c.im, calls, v.fields));
    }
  }

  lemma ArmEncoded(c: Context, v: Instance, m: Env, env: Env, w: World)
    requires c.def.Enum? && Fits(c.def, v)
    requires Bound(m, "a", FieldNames(c.def.variants[v.variant].shape), Parts(v.fields))
    ensures
      var k := v.variant;
      var calls := FieldCalls(true, ShapeOf(c.def, k));
      Eval(c, EncodeArm(c.def.variants[k], k).body, env + m, w)
      == Run(Done(OkValue(UNIT)), Log(w, [Called(VariantCall(c.def.variants[k], k))] + FieldEvents(c.im, calls, v.fields)))
  {
    var k := v.variant;
    var variant := c.def.variants[k];
    var calls, es := FieldCalls(true, variant.shape), Variables("a", FieldNames(variant.shape));
    var call := VariantCall(variant, k);
    var w1 := Log(w, [Called(call)]);
    if variant.shape.NoFields? {
      OkUnitMeans(c, env + m, w1);
      LogLog(w1, [], []);
      EmitStep(c, call, OkUnit(), env + m, w, []);
    } else {
      forall i | 0 <= i < |es|
        ensures Denotes(c, es[i], env + m, v.fields[i])
      {
        BoundDenotes(c, "a", FieldNames(variant.shape), v.fields, m, env, i);
      }
      FieldsEncoded(c, calls, es, env + m, w1, v.fields);
      EmitStep(c, call, Block(EncodeFields(calls, es) + [OkUnit()]), env + m, w, FieldEvents(c.im, calls, v.fields));
    }
  }

  lemma EnumEncoded(c: Context, v: Instance, env: Env, w: World)
    requires Legal(c.def) && c.def.Enum? && Fits(c.def, v) && "self" in env && env["self"] == RefTo(Whole(v))
    ensures Eval(c, Encoding(c.def), env, w) == Run(Done(OkValue(UNIT)), Log(w, EncodedOf(c.def, c.im, v)))
  {
    var k := v.variant;
    var arms := EncodeArms(c.def.variants);
    forall j | 0 <= j < k
      ensures MatchPat(c.def, arms[j].pat, RefTo(Whole(v))).None?
    {
      OwnArm(c.def, v, j);
    }
    OwnArm(c.def, v, k);
    var w1 := Log(w, [Called(OfEnum(c.def.name))]);
    ArmSelected(c, arms, k, RefTo(Whole(v)), env, w1);
    MatchStep(c, Name("self"), arms, RefTo(Whole(v)), env, w1);
    ArmEncoded(c, v, MatchPat(c.def, arms[k].pat, RefTo(Whole(v))).value, env, w1);
    EmitStep(c, OfEnum(c.def.name), Match(Name("self"), arms), env, w,
      [Called(VariantCall(c.def.variants[k], k))] + FieldEvents(c.im, FieldCalls(true, ShapeOf(c.def, k)), v.fields));
  }

  /** The generated method, for every definition and all of its values.  The answer is `Ok` even if encoding a field
      was not: the answers for the fields are dropped. */
  lemma EncodingMeans(c: Context, v: Instance, env: Env, w: World)
    requires Legal(c.def) && Fits(c.def, v) && "self" in env && env["self"] == RefTo(Whole(v))
    ensures CallMethod(c, Encoding(c.def), env, w) == Run(Done(OkValue(UNIT)), Log(w, EncodedOf(c.def, c.im, v)))
  {
    OneNode(c, Encoding(c.def), env, w);
    if c.def.Enum? {
      EnumEncoded(c, v, env, w);
    } else {
      StructEncoded(c, v, env, w);
    }
  }

  predicate AllEncoded(im: Impls, v: Instance) {
    forall i :: 0 <= i < |v.fields| ==> im.encode(v.fields[i]).ok
  }

  /** So the answer is that of the fields, exactly if encoding every field succeeds. */
  lemma AnswerOfFields(c: Context, v: Instance, env: Env, w: World)
    requires Legal(c.def) && Fits(c.def, v) && "self" in env && env["self"] == RefTo(Whole(v))
    ensures
      var answer := if AllEncoded(c.im, v) then OkValue(UNIT) else ErrValue("field");
      CallMethod(c, Encoding(c.def), env, w).out == Done(answer) <==> AllEncoded(c.im, v)
  {
    EncodingMeans(c, v, env, w);
  }

  /** Implementations under which no field can be encoded. */
  function FailingImpls(): Impls {
    Impls((x, y) => x != y, (x: Datum, y: Datum) => CompareInts(x.id, y.id), (x, y) => None, x => [], x => Encoded([], false), (ty, t) => None)
  }

  /** A struct with one field, whose encoding fails: the answer is `Ok`. */
  lemma FailureHidden()
    ensures
      var def, v := Struct("S", NamedFields([Item("f", "T")])), Instance(0, [Datum("T", 0)]);
      var c, env := Context(def, FailingImpls(), false), map["self" := RefTo(Whole(v))];
      && Legal(def) && Fits(def, v) && !AllEncoded(c.im, v)
      && CallMethod(c, Encoding(def), env, World([], [])).out == Done(OkValue(UNIT))
  {
    var def, v := Struct("S", NamedFields([Item("f", "T")])), Instance(0, [Datum("T", 0)]);
    var c, env := Context(def, FailingImpls(), false), map["self" := RefTo(Whole(v))];
    assert ShapeOf(def, 0) == def.shape && FieldNames(def.shape) == ["f"] && FieldTypes(def.shape) == ["T"];
    EncodingMeans(c, v, env, World([], []));
    assert !c.im.encode(v.fields[0]).ok;
  }

  // ----- what is decoded

  ghost predicate FieldsInvert(im: Impls) {
    forall x: Datum, rest: seq<Event> :: im.decode(x.ty, im.encode(x).events + rest) == Some(Decoded(x, rest))
  }

  lemma NoArgs(c: Context, env: Env, w: World)
    ensures EvalAll(c, [], env, w) == AllDone([], w)
  {
  }

  lemma DecodeStep(c: Context, call: Call, env: Env, w: World, x: Datum, rest: seq<Event>)
    requires FieldsInvert(c.im) && w.input == [Called(call)] + c.im.encode(x).events + rest
    ensures Eval(c, Question(Read(call, CallPath(Decode(x.ty), []))), env, w) == Run(Done(Part(x)), w.(input := rest))
  {
    var events := c.im.encode(x).events + rest;
    var w1 := Advance(w);
    assert w1.input == events;
    NoArgs(c, env, w1);
    assert c.im.decode(x.ty, events) == Some(Decoded(x, rest));
    assert Apply(c, Decode(x.ty), [], w1) == Run(Done(OkValue(Part(x))), w.(input := rest));
    assert Eval(c, CallPath(Decode(x.ty), []), env, w1) == Run(Done(OkValue(Part(x))), w.(input := rest));
    assert Eval(c, Read(call, CallPath(Decode(x.ty), [])), env, w) == Run(Done(OkValue(Part(x))), w.(input := rest));
  }

  lemma AllStep(c: Context, e: Expr, es: seq<Expr>, env: Env, w: World, v: Value, w1: World, vs: seq<Value>, w2: World)
    requires Eval(c, e, env, w) == Run(Done(v), w1) && EvalAll(c, es, env, w1) == AllDone(vs, w2)
    ensures EvalAll(c, [e] + es, env, w) == AllDone([v] + vs, w2)
  {
    assert ([e] + es)[1..] == es;
  }

  lemma SplitEvents(im: Impls, calls: seq<Call>, xs: seq<Datum>, rest: seq<Event>)
    requires |calls| == |xs| > 0
    ensures FieldEvents(im, calls, xs) + rest
         == [Called(calls[0])] + im.encode(xs[0]).events + (FieldEvents(im, calls[1..], xs[1..]) + rest)
  {
  }

  lemma {:induction false} FieldsDecoded(c: Context, calls: seq<Call>, types: seq<string>, env: Env, w: World,
                                         xs: seq<Datum>, rest: seq<Event>)
    requires FieldsInvert(c.im) && |calls| == |types| && HasTypes(xs, types)
    requires w.input == FieldEvents(c.im, calls, xs) + rest
    ensures EvalAll(c, DecodeFields(calls, types), env, w) == AllDone(Parts(xs), w.(input := rest))
    decreases |calls|
  {
    if calls == [] {
      assert w.input == rest;
    } else {
      SplitEvents(c.im, calls, xs, rest);
      var rest1 := FieldEvents(c.im, calls[1..], xs[1..]) + rest;
      var w1 := w.(input := rest1);
      DecodeStep(c, calls[0], env, w, xs[0], rest1);
      FieldsDecoded(c, calls[1..], types[1..], env, w1, xs[1..], rest);
      var e := Question(Read(calls[0], CallPath(Decode(types[0]), [])));
      AllStep(c, e, DecodeFields(calls[1..], types[1..]), env, w, Part(xs[0]), w1, Parts(xs[1..]), w.(input := rest));
      assert DecodeFields(calls, types) == [e] + DecodeFields(calls[1..], types[1..]);
      assert Parts(xs) == [Part(xs[0])] + Parts(xs[1..]);
    }
  }

  lemma Built(def: Definition, k: nat, xs: seq<Datum>)
    requires Legal(def) && k < |Constructors(def)| && |xs| == |FieldNames(ShapeOf(def, k))|
    ensures Build(def, Constructors(def)[k], Parts(xs)) == Done(Whole(Instance(k, xs)))
    ensures BuildNamed(def, Constructors(def)[k], FieldNames(ShapeOf(def, k)), Parts(xs)) == Done(Whole(Instance(k, xs)))
  {
    var names := FieldNames(ShapeOf(def, k));
    assert Position(Constructors(def), Constructors(def)[k]) == k;
    assert Datums(Parts(xs)) == xs;
    forall i | 0 <= i < |names|
      ensures Position(names, names[i]) == i
    {
      assert Distinct(names);
    }
    assert Arrange(names, names, Parts(xs)) == Parts(xs);
  }

  lemma RebuildMeans(c: Context, ofVariant: bool, path: string, shape: Shape, env: Env, w: World, w1: World,
                     vs: seq<Value>, out: Outcome)
    requires EvalAll(c, DecodeFields(FieldCalls(ofVariant, shape), FieldTypes(shape)), env, w) == AllDone(vs, w1)
    requires Build(c.def, path, vs) == out && BuildNamed(c.def, path, FieldNames(shape), vs) == out
    requires shape.NoFields? ==> vs == [] && w1 == w
    ensures Eval(c, Rebuild(ofVariant, path, shape), env, w) == Run(out, w1)
  {
  }

  lemma Rebuilt(c: Context, ofVariant: bool, k: nat, env: Env, w: World, xs: seq<Datum>, rest: seq<Event>)
    requires FieldsInvert(c.im) && Legal(c.def) && k < |Constructors(c.def)|
    requires HasTypes(xs, FieldTypes(ShapeOf(c.def, k)))
    requires w.input == FieldEvents(c.im, FieldCalls(ofVariant, ShapeOf(c.def, k)), xs) + rest
    ensures Eval(c, Ok(Rebuild(ofVariant, Constructors(c.def)[k], ShapeOf(c.def, k))), env, w)
         == Run(Done(OkValue(Whole(Instance(k, xs)))), w.(input := rest))
  {
    var path, shape := Constructors(c.def)[k], ShapeOf(c.def, k);
    FieldsDecoded(c, FieldCalls(ofVariant, shape), FieldTypes(shape), env, w, xs, rest);
    Built(c.def, k, xs);
    RebuildMeans(c, ofVariant, path, shape, env, w, w.(input := rest), Parts(xs), Done(Whole(Instance(k, xs))));
    OneArg(c, Rebuild(ofVariant, path, shape), env, w);
  }

  lemma ReadStep(c: Context, call: Call, body: Expr, env: Env, w: World, v: Value, rest: seq<Event>)
    requires NextIs(w, call) && Eval(c, body, env, Advance(w)) == Run(Done(v), w.(input := rest))
    ensures Eval(c, Read(call, body), env, w) == Run(Done(v), w.(input := rest))
  {
  }

  lemma StructDecoded(c: Context, v: Instance, env: Env, w: World, rest: seq<Event>)
    requires FieldsInvert(c.im) && Legal(c.def) && c.def.Struct? && Fits(c.def, v)
    requires w.input == EncodedOf(c.def, c.im, v) + rest
    ensures Eval(c, StructDecoding(c.def.name, c.def.shape), env, w) == Run(Done(OkValue(Whole(v))), w.(input := rest))
  {
    var shape := c.def.shape;
    assert v.variant == 0 && ShapeOf(c.def, 0) == shape && Constructors(c.def)[0] == c.def.name;
    if shape.NoFields? {
      Rebuilt(c, false, 0, env, w, v.fields, rest);
    } else {
      var call := StructCall(c.def.name, shape);
      assert Advance(w).input == FieldEvents(c.im, FieldCalls(false, shape), v.fields) + rest;
      Rebuilt(c, false, 0, env, Advance(w), v.fields, rest);
      ReadStep(c, call, Ok(Rebuild(false, c.def.name, shape)), env, w, OkValue(Whole(v)), rest);
    }
  }

  lemma VariantFound(c: Context, k: nat)
    requires Legal(c.def) && c.def.Enum? && k < |c.def.variants|
    ensures
      var call := OfVariant(c.def.variants[k].name, k, |FieldNames(c.def.variants[k].shape)|);
      && Wire(VariantCall(c.def.variants[k], k)) == call
      && VariantIndex(c, VariantNames(c.def.variants), call) == k
  {
    assert VariantNames(c.def.variants) == Constructors(c.def);
    assert Position(Constructors(c.def), Constructors(c.def)[k]) == k;
  }

  lemma ReadVariantStep(c: Context, names: seq<string>, body: Expr, env: Env, w: World, call: Call, k: nat)
    requires w.input != [] && w.input[0].Called? && Wire(w.input[0].call) == call && call.OfVariant?
    requires VariantIndex(c, names, call) == k && (c.byName ==> k < |names|)
    ensures Eval(c, ReadVariant(names, body), env, w) == Caught(Eval(c, body, env["idx" := Int(k)], Advance(w)))
  {
  }

  lemma KnownIndex(c: Context, variants: seq<Variant>, k: nat, env: Env, w: World)
    requires k < |variants|
    ensures
      var env1 := env["idx" := Int(k)];
      Eval(c, Match(Name("idx"), DecodeArms(variants) + [UnknownArm()]), env1, w)
      == Eval(c, Ok(Rebuild(true, variants[k].name, variants[k].shape)), env1, w)
  {
    var arms := DecodeArms(variants) + [UnknownArm()];
    var env1 := env["idx" := Int(k)];
    MatchStep(c, Name("idx"), arms, Int(k), env1, w);
    IndexArm(c, arms, k, k, Ok(Rebuild(true, variants[k].name, variants[k].shape)), env1, w);
  }

  lemma UnknownIndex(c: Context, variants: seq<Variant>, k: nat, env: Env, w: World)
    requires k >= |variants|
    ensures Eval(c, Match(Name("idx"), DecodeArms(variants) + [UnknownArm()]), env["idx" := Int(k)], w)
         == Run(Done(ErrValue("enum value unknown")), w)
  {
    var arms := DecodeArms(variants) + [UnknownArm()];
    var env1 := env["idx" := Int(k)];
    MatchStep(c, Name("idx"), arms, Int(k), env1, w);
    IndexArm(c, arms, |variants|, k, UnknownArm().body, env1, w);
    UnknownAnswer(c, env1, w);
  }

  lemma UnknownAnswer(c: Context, env: Env, w: World)
    ensures Eval(c, UnknownArm().body, env, w) == Run(Done(ErrValue("enum value unknown")), w)
  {
    NoArgs(c, env, w);
  }

  /** The first arm for the index, or for any, is taken. */
  lemma IndexArm(c: Context, arms: seq<Arm>, i: nat, k: nat, body: Expr, env: Env, w: World)
    requires i < |arms| && (arms[i] == Arm(IntPat(k), body) || arms[i] == Arm(AnyPat, body))
    requires forall j :: 0 <= j < i ==> arms[j].pat == IntPat(j) && j != k
    ensures EvalArms(c, arms, Int(k), env, w) == Eval(c, body, env, w)
  {
    assert env + map[] == env;
    forall j | 0 <= j < i
      ensures MatchPat(c.def, arms[j].pat, Int(k)).None?
    {
      assert arms[j].pat == IntPat(j);
    }
    ArmSelected(c, arms, i, Int(k), env, w);
  }

  lemma EnumDecoded(c: Context, v: Instance, env: Env, w: World, rest: seq<Event>)
    requires FieldsInvert(c.im) && Legal(c.def) && c.def.Enum? && Fits(c.def, v)
    requires w.input == EncodedOf(c.def, c.im, v) + rest
    ensures Eval(c, Decoding(c.def), env, w) == Run(Done(OkValue(Whole(v))), w.(input := rest))
  {
    var k, variants := v.variant, c.def.variants;
    var w1 := Advance(w);
    var w2 := Advance(w1);
    var body := Match(Name("idx"), DecodeArms(variants) + [UnknownArm()]);
    var env1 := env["idx" := Int(k)];
    VariantFound(c, k);
    assert w2.input == FieldEvents(c.im, FieldCalls(true, ShapeOf(c.def, k)), v.fields) + rest;
    Rebuilt(c, true, k, env1, w2, v.fields, rest);
    KnownIndex(c, variants, k, env, w2);
    ReadVariantStep(c, VariantNames(variants), body, env, w1,
      OfVariant(variants[k].name, k, |FieldNames(variants[k].shape)|), k);
    ReadStep(c, OfEnum(c.def.name), ReadVariant(VariantNames(variants), body), env, w, OkValue(Whole(v)), rest);
  }

  /** Decoding what was encoded gives the value back and leaves the rest, for every definition and value, whether
      variants are told by their names or by their indexes. */
  lemma DecodingMeans(c: Context, v: Instance, env: Env, w: World, rest: seq<Event>)
    requires FieldsInvert(c.im) && Legal(c.def) && Fits(c.def, v)
    requires w.input == EncodedOf(c.def, c.im, v) + rest
    ensures CallMethod(c, Decoding(c.def), env, w) == Run(Done(OkValue(Whole(v))), w.(input := rest))
  {
    OneNode(c, Decoding(c.def), env, w);
    if c.def.Enum? {
      EnumDecoded(c, v, env, w, rest);
    } else {
      StructDecoded(c, v, env, w, rest);
    }
  }

  /** The two generated methods, one after the other. */
  lemma RoundTrip(c: Context, v: Instance, rest: seq<Event>)
    requires FieldsInvert(c.im) && Legal(c.def) && Fits(c.def, v)
    ensures
      var encoded := CallMethod(c, Encoding(c.def), map["self" := RefTo(Whole(v))], World([], []));
      var decoded := CallMethod(c, Decoding(c.def), map[], World([], encoded.w.log + rest));
      encoded.out == Done(OkValue(UNIT)) && decoded == Run(Done(OkValue(Whole(v))), World([], rest))
  {
    EncodingMeans(c, v, map["self" := RefTo(Whole(v))], World([], []));
    assert [] + EncodedOf(c.def, c.im, v) == EncodedOf(c.def, c.im, v);
    DecodingMeans(c, v, map[], World([], EncodedOf(c.def, c.im, v) + rest), rest);
  }

  /** An index that no variant has is answered with an error, and nothing after it is read. */
  lemma UnknownIndexRefused(c: Context, name: string, k: nat, len: nat, rest: seq<Event>)
    requires c.def.Enum? && !c.byName && k >= |c.def.variants|
    ensures CallMethod(c, Decoding(c.def), map[], World([], [Called(OfEnum(c.def.name)), Called(OfVariant(name, k, len))] + rest))
         == Run(Done(ErrValue("enum value unknown")), World([], rest))
  {
    var variants := c.def.variants;
    var w := World([], [Called(OfEnum(c.def.name)), Called(OfVariant(name, k, len))] + rest);
    var body := Match(Name("idx"), DecodeArms(variants) + [UnknownArm()]);
    var w1 := Advance(w);
    assert Advance(w1).input == rest;
    OneNode(c, Decoding(c.def), map[], w);
    UnknownIndex(c, variants, k, map[], Advance(w1));
    ReadVariantStep(c, VariantNames(variants), body, map[], w1, OfVariant(name, k, len), k);
    ReadStep(c, OfEnum(c.def.name), ReadVariant(VariantNames(variants), body), map[], w,
      ErrValue("enum value unknown"), rest);
  }

  // ----- spelled out, in terms of the definition alone

  /** Each field after the call that announces it. */
  function Marked(calls: seq<Call>, im: Impls, xs: seq<Datum>): seq<Event>
    requires |calls| == |xs|
  {
    if calls == [] then [] else [Called(calls[0])] + im.encode(xs[0]).events + Marked(calls[1..], im, xs[1..])
  }

  ghost predicate LogOf(def: Definition, im: Impls, v: Instance, log: seq<Event>)
    requires Fits(def, v)
  {
    match def
    case Struct(name, NoFields) => log == []
    case Struct(name, TupleFields(types)) =>
      var calls := seq(|types|, i requires 0 <= i < |types| => OfTupleStructArg(i));
      |calls| == |v.fields| && log == [Called(OfTupleStruct(name, |types|))] + Marked(calls, im, v.fields)
    case Struct(name, NamedFields(items)) =>
      var calls := seq(|items|, i requires 0 <= i < |items| => OfStructField(items[i].name, i));
      |calls| == |v.fields| && log == [Called(OfStruct(name, |items|))] + Marked(calls, im, v.fields)
    case Enum(name, variants) =>
      var k := v.variant;
      match variants[k]
      case Variant(variant, NoFields, _) => log == [Called(OfEnum(name)), Called(OfVariant(variant, k, 0))]
      case Variant(variant, TupleFields(types), _) =>
        var calls := seq(|types|, i requires 0 <= i < |types| => OfVariantArg(i));
        && |calls| == |v.fields|
        && log == [Called(OfEnum(name)), Called(OfVariant(variant, k, |types|))] + Marked(calls, im, v.fields)
      case Variant(variant, NamedFields(items), _) =>
        var calls := seq(|items|, i requires 0 <= i < |items| => OfStructVariantField(items[i].name, i));
        && |calls| == |v.fields|
        && log == [Called(OfEnum(name)), Called(OfStructVariant(variant, k, |items|))] + Marked(calls, im, v.fields)
  }

  lemma {:induction false} FieldsMarked(im: Impls, calls: seq<Call>, xs: seq<Datum>)
    requires |calls| == |xs|
    ensures FieldEvents(im, calls, xs) == Marked(calls, im, xs)
  {
    if calls != [] {
      FieldsMarked(im, calls[1..], xs[1..]);
    }
  }

  lemma SameCalls(a: seq<Call>, b: seq<Call>, im: Impls, xs: seq<Datum>)
    requires a == b && |a| == |xs|
    ensures FieldEvents(im, a, xs) == Marked(b, im, xs)
  {
    FieldsMarked(im, a, xs);
  }

  lemma StructLogged(def: Definition, im: Impls, v: Instance)
    requires def.Struct? && Fits(def, v)
    ensures LogOf(def, im, v, EncodedOf(def, im, v))
  {
    assert ShapeOf(def, v.variant) == def.shape && v.variant == 0;
    match def.shape {
      case NoFields =>
      case TupleFields(types) =>
        SameCalls(FieldCalls(false, def.shape), seq(|types|, i requires 0 <= i < |types| => OfTupleStructArg(i)), im, v.fields);
      case NamedFields(items) =>
        SameCalls(FieldCalls(false, def.shape), seq(|items|, i requires 0 <= i < |items| => OfStructField(items[i].name, i)), im, v.fields);
    }
  }

  lemma EnumLogged(def: Definition, im: Impls, v: Instance)
    requires def.Enum? && Fits(def, v)
    ensures LogOf(def, im, v, EncodedOf(def, im, v))
  {
    var k := v.variant;
    var shape := def.variants[k].shape;
    assert ShapeOf(def, k) == shape;
    var calls := FieldCalls(true, shape);
    var head, call := Called(OfEnum(def.name)), Called(VariantCall(def.variants[k], k));
    assert [head] + ([call] + FieldEvents(im, calls, v.fields)) == [head, call] + FieldEvents(im, calls, v.fields);
    match shape {
      case NoFields =>
        assert [head, call] + [] == [head, call];
      case TupleFields(types) =>
        SameCalls(calls, seq(|types|, i requires 0 <= i < |types| => OfVariantArg(i)), im, v.fields);
      case NamedFields(items) =>
        SameCalls(calls, seq(|items|, i requires 0 <= i < |items| => OfStructVariantField(items[i].name, i)), im, v.fields);
    }
  }

  /** What the generated `encode` says to its encoder, call by call with names, indexes and lengths. */
  lemma EncodedLog(c: Context, v: Instance, env: Env)
    requires Legal(c.def) && Fits(c.def, v) && "self" in env && env["self"] == RefTo(Whole(v))
    ensures LogOf(c.def, c.im, v, CallMethod(c, Encoding(c.def), env, World([], [])).w.log)
  {
    EncodingMeans(c, v, env, World([], []));
    assert [] + EncodedOf(c.def, c.im, v) == EncodedOf(c.def, c.im, v);
    if c.def.Enum? {
      EnumLogged(c.def, c.im, v);
    } else {
      StructLogged(c.def, c.im, v);
    }
  }

  /** Whatever is written like that, the generated `decode` gives the value back. */
  lemma LogDecoded(c: Context, v: Instance, log: seq<Event>, rest: seq<Event>)
    requires FieldsInvert(c.im) && Legal(c.def) && Fits(c.def, v) && LogOf(c.def, c.im, v, log)
    ensures CallMethod(c, Decoding(c.def), map[], World([], log + rest)) == Run(Done(OkValue(Whole(v))), World([], rest))
  {
    if c.def.Enum? {
      EnumLogged(c.def, c.im, v);
    } else {
      StructLogged(c.def, c.im, v);
    }
    assert log == EncodedOf(c.def, c.im, v);
    DecodingMeans(c, v, map[], World([], log + rest), rest);
  }

  /** The generated code for structs, node by node. */
  lemma StructsSpelled(name: string, items: seq<Item>, types: seq<string>)
    ensures Encoding(Struct(name, NoFields)) == CallPath(OkOf, [TupleOf([])])
    ensures Encoding(Struct(name, NamedFields(items))) ==
      Emit(OfStruct(name, |items|),
           Block(seq(|items|, i requires 0 <= i < |items| =>
                     Emit(OfStructField(items[i].name, i), CallPath(Encode, [RefOf(FieldOf(Name("self"), items[i].name))])))
                 + [CallPath(OkOf, [TupleOf([])])]))
    ensures Encoding(Struct(name, TupleFields(types))) ==
      Emit(OfTupleStruct(name, |types|),
           Block(seq(|types|, i requires 0 <= i < |types| =>
                     Emit(OfTupleStructArg(i), CallPath(Encode, [RefOf(FieldOf(Name("self"), Decimal.Render(i)))])))
                 + [CallPath(OkOf, [TupleOf([])])]))
    ensures Decoding(Struct(name, NoFields)) == CallPath(OkOf, [UnitPath(name)])
    ensures Decoding(Struct(name, NamedFields(items))) ==
      Read(OfStruct(name, |items|),
           CallPath(OkOf, [StructLiteral(name, seq(|items|, i requires 0 <= i < |items| => items[i].name),
             seq(|items|, i requires 0 <= i < |items| =>
                 Question(Read(OfStructField(items[i].name, i), CallPath(Decode(items[i].ty), [])))))]))
    ensures Decoding(Struct(name, TupleFields(types))) ==
      Read(OfTupleStruct(name, |types|),
           CallPath(OkOf, [CallPath(Construct(name),
             seq(|types|, i requires 0 <= i < |types| => Question(Read(OfTupleStructArg(i), CallPath(Decode(types[i]), [])))))]))
  {
    var named, tuple := NamedFields(items), TupleFields(types);
    assert EncodeFields(FieldCalls(false, named), Refs(Accesses("self", FieldNames(named))))
        == seq(|items|, i requires 0 <= i < |items| =>
               Emit(OfStructField(items[i].name, i), CallPath(Encode, [RefOf(FieldOf(Name("self"), items[i].name))])));
    assert EncodeFields(FieldCalls(false, tuple), Refs(Accesses("self", FieldNames(tuple))))
        == seq(|types|, i requires 0 <= i < |types| =>
               Emit(OfTupleStructArg(i), CallPath(Encode, [RefOf(FieldOf(Name("self"), Decimal.Render(i)))])));
    assert DecodeFields(FieldCalls(false, named), FieldTypes(named))
        == seq(|items|, i requires 0 <= i < |items| =>
               Question(Read(OfStructField(items[i].name, i), CallPath(Decode(items[i].ty), []))));
    assert DecodeFields(FieldCalls(false, tuple), FieldTypes(tuple))
        == seq(|types|, i requires 0 <= i < |types| => Question(Read(OfTupleStructArg(i), CallPath(Decode(types[i]), []))));
  }

  /** The arms of `encode` for the kinds of variant, node by node. */
  lemma EncodeArmsSpelled(name: string, items: seq<Item>, types: seq<string>, d: int, k: nat)
    ensures EncodeArm(Variant(name, NoFields, d), k) ==
      Arm(RefPat(UnitPat(name)), Emit(OfVariant(name, k, 0), CallPath(OkOf, [TupleOf([])])))
    ensures EncodeArm(Variant(name, TupleFields(types), d), k) ==
      Arm(RefPat(NamedTuplePat(name, seq(|types|, i requires 0 <= i < |types| => BindPat("a" + Decimal.Render(i), true)))),
          Emit(OfVariant(name, k, |types|),
               Block(seq(|types|, i requires 0 <= i < |types| =>
                         Emit(OfVariantArg(i), CallPath(Encode, [Name("a" + Decimal.Render(i))])))
                     + [CallPath(OkOf, [TupleOf([])])])))
    ensures EncodeArm(Variant(name, NamedFields(items), d), k) ==
      Arm(RefPat(StructPat(name, seq(|items|, i requires 0 <= i < |items| =>
                                     Entry(items[i].name, BindPat("a" + items[i].name, true))))),
          Emit(OfStructVariant(name, k, |items|),
               Block(seq(|items|, i requires 0 <= i < |items| =>
                         Emit(OfStructVariantField(items[i].name, i), CallPath(Encode, [Name("a" + items[i].name)])))
                     + [CallPath(OkOf, [TupleOf([])])])))
  {
    var named, tuple := NamedFields(items), TupleFields(types);
    assert EncodeFields(FieldCalls(true, named), Variables("a", FieldNames(named)))
        == seq(|items|, i requires 0 <= i < |items| =>
               Emit(OfStructVariantField(items[i].name, i), CallPath(Encode, [Name("a" + items[i].name)])));
    assert EncodeFields(FieldCalls(true, tuple), Variables("a", FieldNames(tuple)))
        == seq(|types|, i requires 0 <= i < |types| =>
               Emit(OfVariantArg(i), CallPath(Encode, [Name("a" + Decimal.Render(i))])));
    assert Binds("a", FieldNames(tuple)) == seq(|types|, i requires 0 <= i < |types| => BindPat("a" + Decimal.Render(i), true));
    assert Entries(FieldNames(named), Binds("a", FieldNames(named)))
        == seq(|items|, i requires 0 <= i < |items| => Entry(items[i].name, BindPat("a" + items[i].name, true)));
  }

  /** The values that the arms of `decode` build, node by node. */
  lemma VariantsSpelled(name: string, items: seq<Item>, types: seq<string>)
    ensures Rebuild(true, name, NoFields) == UnitPath(name)
    ensures Rebuild(true, name, TupleFields(types)) ==
      CallPath(Construct(name),
               seq(|types|, i requires 0 <= i < |types| => Question(Read(OfVariantArg(i), CallPath(Decode(types[i]), [])))))
    ensures Rebuild(true, name, NamedFields(items)) ==
      StructLiteral(name, seq(|items|, i requires 0 <= i < |items| => items[i].name),
                    seq(|items|, i requires 0 <= i < |items| =>
                        Question(Read(OfStructVariantField(items[i].name, i), CallPath(Decode(items[i].ty), [])))))
  {
    var named, tuple := NamedFields(items), TupleFields(types);
    assert DecodeFields(FieldCalls(true, named), FieldTypes(named))
        == seq(|items|, i requires 0 <= i < |items| =>
               Question(Read(OfStructVariantField(items[i].name, i), CallPath(Decode(items[i].ty), []))));
    assert DecodeFields(FieldCalls(true, tuple), FieldTypes(tuple))
        == seq(|types|, i requires 0 <= i < |types| => Question(Read(OfVariantArg(i), CallPath(Decode(types[i]), []))));
  }

  /** The generated code for an enum, around its arms. */
  lemma EnumsSpelled(name: string, variants: seq<Variant>)
    ensures Encoding(Enum(name, variants)) ==
      Emit(OfEnum(name), Match(Name("self"), seq(|variants|, k requires 0 <= k < |variants| => EncodeArm(variants[k], k))))
    ensures Decoding(Enum(name, variants)) ==
      Read(OfEnum(name),
           ReadVariant(seq(|variants|, k requires 0 <= k < |variants| => variants[k].name),
             Match(Name("idx"),
                   seq(|variants|, k requires 0 <= k < |variants| =>
                       Arm(IntPat(k), CallPath(OkOf, [Rebuild(true, variants[k].name, variants[k].shape)])))
                   + [Arm(AnyPat, CallPath(ErrOf("enum value unknown"), []))])))
  {
    assert EncodeArms(variants) == seq(|variants|, k requires 0 <= k < |variants| => EncodeArm(variants[k], k));
    assert DecodeArms(variants) == seq(|variants|, k requires 0 <= k < |variants| =>
      Arm(IntPat(k), CallPath(OkOf, [Rebuild(true, variants[k].name, variants[k].shape)])));
    assert VariantNames(variants) == seq(|variants|, k requires 0 <= k < |variants| => variants[k].name);
  }
}
