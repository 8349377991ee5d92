/** What expressions mean: a big-step evaluator for the whole AST, the sugar included.

    The machine state is two stacks of bindings (names of the program, names made up by the
    compiler) and the history of calls to the outside world.  The outside world is an arbitrary
    function of that history, so two runs with equal histories made the same calls, with the
    same arguments, in the same order.

    Going round a loop and entering a closure use up fuel; nothing else does. */
module Semantics {
  import opened Ast
  import opened Sequences
  import opened Wrappers
  import Decimal

  datatype Event = Call(f: string, args: seq<Value>) | Next(it: Value)

  /** The outside world: what a called function returns, and what an iterator keep and becomes. */
  datatype Host = Host(
    call: (string, seq<Value>, seq<Event>) -> Value,
    next: (Value, seq<Event>) -> (Option<Value>, Value)
  )

  datatype Fn = Fn(params: seq<Pat>, code: Expr)

  /** `legacy` selects the library interface of Rust 1.39 and before. */
  datatype Ctx = Ctx(host: Host, code: map<nat, Fn>, legacy: bool)

  datatype State = State(user: seq<Binding>, gen: seq<Binding>, trace: seq<Event>)

  /** How an expression ends.  `Residual` is a failure on its way to the enclosing `try` block or function. */
  datatype Outcome =
    | Val(v: Value)
    | Broke(target: Label, v: Value)
    | Continued(target: Label)
    | Returned(v: Value)
    | Residual(v: Value)

  datatype Res =
    | Timeout
    | Stuck
    | Done(o: Outcome, s: State)

  datatype ListRes = Vals(vs: seq<Value>, s: State) | Abort(r: Res)

  datatype FieldsRes = FieldVals(fs: seq<FieldValue>, s: State) | FieldsAbort(r: Res)

  datatype CondRes = Matched(s: State) | NoMatch(s: State) | CondAbort(r: Res)

  datatype Root = RVar(x: Ident) | RDeref(a: Value)

  datatype Proj = PrField(name: string) | PrIndex(i: Value)

  datatype PlaceRes = Place(root: Root, path: seq<Proj>, s: State) | PlaceAbort(r: Res)

  // ----- bindings

  /** The innermost binding of a name. */
  function Lookup(x: Ident, env: seq<Binding>): Option<Value> {
    if env == [] then None
    else if env[|env| - 1].name == x then Some(env[|env| - 1].val)
    else Lookup(x, env[..|env| - 1])
  }

  function Update(x: Ident, v: Value, env: seq<Binding>): (r: Option<seq<Binding>>)
    ensures r.Some? ==> |r.value| == |env|
    ensures r.Some? <==> Lookup(x, env).Some?
  {
    if env == [] then None
    else if env[|env| - 1].name == x then Some(env[..|env| - 1] + [Binding(x, v)])
    else
      match Update(x, v, env[..|env| - 1])
      case None => None
      case Some(r) => Some(r + [env[|env| - 1]])
  }

  function LookupIn(x: Ident, s: State): Option<Value> {
    if x.User? then Lookup(x, s.user) else Lookup(x, s.gen)
  }

  function UpdateIn(x: Ident, v: Value, s: State): (r: Option<State>)
    ensures r.Some? ==> SameShape(s, r.value)
  {
    if x.User? then
      match Update(x, v, s.user)
      case None => None
      case Some(e) => Some(s.(user := e))
    else
      match Update(x, v, s.gen)
      case None => None
      case Some(e) => Some(s.(gen := e))
  }

  function Bind(bs: seq<Binding>, s: State): (r: State)
    ensures |s.user| <= |r.user| && |s.gen| <= |r.gen|
  {
    if bs == [] then s
    else
      var b := bs[0];
      Bind(bs[1..], if b.name.User? then s.(user := s.user + [b]) else s.(gen := s.gen + [b]))
  }

  predicate SameShape(s0: State, s1: State) {
    |s0.user| == |s1.user| && |s0.gen| == |s1.gen|
  }

  predicate Grown(s0: State, s1: State) {
    |s0.user| <= |s1.user| && |s0.gen| <= |s1.gen|
  }

  /** Leaving a scope that was entered in state `s0`. */
  function Leave(s0: State, s1: State): (r: State)
    requires Grown(s0, s1)
    ensures SameShape(s0, r)
  {
    State(s1.user[..|s0.user|], s1.gen[..|s0.gen|], s1.trace)
  }

  predicate GrownRes(s0: State, r: Res) {
    r.Done? ==> Grown(s0, r.s)
  }

  predicate SameShapeRes(s0: State, r: Res) {
    r.Done? ==> SameShape(s0, r.s)
  }

  function LeaveRes(s0: State, r: Res): (r': Res)
    requires GrownRes(s0, r)
    ensures SameShapeRes(s0, r')
  {
    if r.Done? then Done(r.o, Leave(s0, r.s)) else r
  }

  // ----- patterns

  function FieldOf(name: string, fs: seq<FieldValue>): Option<Value>
  {
    if fs == [] then None
    else if fs[0].name == name then Some(fs[0].val)
    else FieldOf(name, fs[1..])
  }

  /** No field is left unmentioned. */
  predicate AllListed(fs: seq<FieldValue>, names: seq<string>) {
    forall i :: 0 <= i < |fs| ==> fs[i].name in names
  }

  function PatNames(fs: seq<FieldPat>): (r: seq<string>)
    ensures |r| == |fs|
  {
    seq(|fs|, i requires 0 <= i < |fs| => fs[i].name)
  }

  function ExprNames(fs: seq<FieldExpr>): (r: seq<string>)
    ensures |r| == |fs|
  {
    seq(|fs|, i requires 0 <= i < |fs| => fs[i].name)
  }

  /** The bindings that matching a value against a pattern makes, left to right. */
  function MatchPat(p: Pat, v: Value): Option<seq<Binding>>
    decreases p
  {
    match p
    case PAny => Some([])
    case PBind(x) => Some([Binding(x, v)])
    case PLit(c) => if v == c then Some([]) else None
    case PTuple(start, rest, end) =>
      if !v.Tup? || |v.vs| < |start| + |end| || (!rest && |v.vs| != |start| + |end|) then None
      else Join(MatchAll(start, v.vs[..|start|]), MatchAll(end, v.vs[|v.vs| - |end|..]))
    case PSlice(ps) =>
      if !v.Arr? || |v.vs| != |ps| then None else MatchAll(ps, v.vs)
    case PCon(path, ps) =>
      if !v.Con? || v.path != path || |v.vs| != |ps| then None else MatchAll(ps, v.vs)
    case PStruct(path, fs, exhaustive) =>
      if !v.Rec? || v.path != path
         || (exhaustive && !AllListed(v.fs, PatNames(fs))) then None
      else MatchFields(fs, v.fs)
  }

  function Join(a: Option<seq<Binding>>, b: Option<seq<Binding>>): Option<seq<Binding>> {
    if a.Some? && b.Some? then Some(a.value + b.value) else None
  }

  function MatchAll(ps: seq<Pat>, vs: seq<Value>): Option<seq<Binding>>
    requires |ps| == |vs|
    decreases ps
  {
    if ps == [] then Some([])
    else Join(MatchPat(ps[0], vs[0]), MatchAll(ps[1..], vs[1..]))
  }

  function MatchFields(fs: seq<FieldPat>, vs: seq<FieldValue>): Option<seq<Binding>>
    decreases fs
  {
    if fs == [] then Some([])
    else
      match FieldOf(fs[0].name, vs)
      case None => None
      case Some(v) => Join(MatchPat(fs[0].pat, v), MatchFields(fs[1..], vs))
  }

  // ----- projections and places

  /** The position that a name such as `0` stands for in a tuple or tuple struct of `n` elements. */
  function ElementAt(name: string, n: nat): (k: nat)
    ensures k <= n
  {
    Position(seq(n, i requires 0 <= i < n => Decimal.Render(i)), name)
  }

  /** Element `k` is reached by the field named `k`, and no other field is touched by writing it. */
  lemma ElementsByName(v: Value, k: nat, j: nat, w: Value)
    requires (v.Tup? || v.Con?) && k < |v.vs| && j < |v.vs|
    ensures Project(v, PrField(Decimal.Render(k))) == Some(v.vs[k])
    ensures
      var r := Replace(v, PrField(Decimal.Render(k)), w);
      r.Some? && Project(r.value, PrField(Decimal.Render(j))) == Some(if j == k then w else v.vs[j])
  {
    ElementNamed(|v.vs|, k);
    ElementNamed(|v.vs|, j);
  }

  lemma ElementNamed(n: nat, k: nat)
    requires k < n
    ensures ElementAt(Decimal.Render(k), n) == k
  {
    var i := ElementAt(Decimal.Render(k), n);
    assert seq(n, i requires 0 <= i < n => Decimal.Render(i))[k] == Decimal.Render(k);
    Decimal.RenderInjective(i, k);
  }

  function Project(v: Value, p: Proj): Option<Value> {
    match p
    case PrField(name) =>
      if v.Rec? then FieldOf(name, v.fs)
      else if (v.Tup? || v.Con?) && ElementAt(name, |v.vs|) < |v.vs| then Some(v.vs[ElementAt(name, |v.vs|)])
      else None
    case PrIndex(i) =>
      if v.Arr? && i.Int? && 0 <= i.i < |v.vs| then Some(v.vs[i.i]) else None
  }

  function Replace(v: Value, p: Proj, w: Value): Option<Value> {
    match p
    case PrField(name) =>
      if v.Rec? && FieldOf(name, v.fs).Some? then Some(v.(fs := ReplaceField(name, v.fs, w)))
      else if (v.Tup? || v.Con?) && ElementAt(name, |v.vs|) < |v.vs| then Some(v.(vs := v.vs[ElementAt(name, |v.vs|) := w]))
      else None
    case PrIndex(i) =>
      if v.Arr? && i.Int? && 0 <= i.i < |v.vs| then Some(Arr(v.vs[i.i := w])) else None
  }

  function ReplaceField(name: string, fs: seq<FieldValue>, w: Value): seq<FieldValue> {
    if fs == [] then []
    else if fs[0].name == name then [FieldValue(name, w)] + fs[1..]
    else [fs[0]] + ReplaceField(name, fs[1..], w)
  }

  function ReplaceAt(v: Value, path: seq<Proj>, w: Value): Option<Value>
    decreases path
  {
    if path == [] then Some(w)
    else
      match Project(v, path[0])
      case None => None
      case Some(inner) =>
        match ReplaceAt(inner, path[1..], w)
        case None => None
        case Some(inner') => Replace(v, path[0], inner')
  }

  /** One call to the outside world. */
  function CallHost(c: Ctx, f: string, args: seq<Value>, s: State): (r: (Value, State))
    ensures SameShape(s, r.1)
  {
    (c.host.call(f, args, s.trace), s.(trace := s.trace + [Call(f, args)]))
  }

  function CallRes(c: Ctx, f: string, args: seq<Value>, s: State): (r: Res)
    ensures SameShapeRes(s, r)
  {
    var (v, s') := CallHost(c, f, args, s);
    Done(Val(v), s')
  }

  function WritePlace(c: Ctx, root: Root, path: seq<Proj>, w: Value, s: State): (r: Res)
    ensures SameShapeRes(s, r)
    ensures r.Done? && r.o.Val? ==> r.o.v == UNIT
  {
    match root
    case RVar(x) =>
      (match LookupIn(x, s)
       case None => Stuck
       case Some(v) =>
         match ReplaceAt(v, path, w)
         case None => Stuck
         case Some(v') =>
           match UpdateIn(x, v', s)
           case None => Stuck
           case Some(s') => Done(Val(UNIT), s'))
    case RDeref(a) =>
      var (v, s1) := CallHost(c, "*load", [a], s);
      match ReplaceAt(v, path, w)
      case None => Stuck
      case Some(v') =>
        var (_, s2) := CallHost(c, "*store", [a, v'], s1);
        Done(Val(UNIT), s2)
  }

  // ----- assignees

  predicate IsPlace(e: Expr) {
    e.Var? || e.Field? || e.Index? || e.Deref?
  }

  /** Position of the `..` in the elements of an assignee tuple, or their number if there is none. */
  function RestAt(es: seq<Expr>): (k: nat)
    ensures k <= |es|
    ensures k < |es| ==> es[k].Rest?
    ensures forall i :: 0 <= i < k ==> !es[i].Rest?
  {
    if es == [] then 0
    else if es[0].Rest? then 0
    else 1 + RestAt(es[1..])
  }

  /** What may stand left of `=`: a place, `_`, or a tuple, array or struct of such. */
  predicate IsAssignee(e: Expr)
    decreases e
  {
    match e
    case Wildcard => true
    case Tuple(es) =>
      var k := RestAt(es);
      if k == |es| then AreAssignees(es) else AreAssignees(es[..k]) && AreAssignees(es[k + 1..])
    case Array(es) => AreAssignees(es)
    case StructLit(_, fs) => AreFieldAssignees(fs)
    case StructLitPat(_, fs) => AreFieldAssignees(fs)
    case _ => e.Var? || e.Field? || e.Index? || e.Deref?
  }

  predicate AreAssignees(es: seq<Expr>)
    decreases es
  {
    es == [] || (IsAssignee(es[0]) && AreAssignees(es[1..]))
  }

  predicate AreFieldAssignees(fs: seq<FieldExpr>)
    decreases fs
  {
    fs == [] || (IsAssignee(fs[0].val) && AreFieldAssignees(fs[1..]))
  }

  /** Whether a value has the shape that an assignee takes apart. */
  predicate Fits(e: Expr, v: Value)
    decreases e
  {
    match e
    case Tuple(es) =>
      var k := RestAt(es);
      if k == |es| then v.Tup? && |v.vs| == |es| && AllFit(es, v.vs)
      else
        var after := es[k + 1..];
        && v.Tup? && |v.vs| >= k + |after|
        && AllFit(es[..k], v.vs[..k])
        && AllFit(after, v.vs[|v.vs| - |after|..])
    case Array(es) => v.Arr? && |v.vs| == |es| && AllFit(es, v.vs)
    case StructLit(path, fs) =>
      v.Rec? && v.path == path && AllListed(v.fs, ExprNames(fs)) && FieldsFit(fs, v.fs)
    case StructLitPat(path, fs) => v.Rec? && v.path == path && FieldsFit(fs, v.fs)
    case _ => true
  }

  predicate AllFit(es: seq<Expr>, vs: seq<Value>)
    requires |es| == |vs|
    decreases es
  {
    es == [] || (Fits(es[0], vs[0]) && AllFit(es[1..], vs[1..]))
  }

  predicate FieldsFit(fs: seq<FieldExpr>, vs: seq<FieldValue>)
    decreases fs
  {
    fs == [] || (FieldOf(fs[0].name, vs).Some? && Fits(fs[0].val, FieldOf(fs[0].name, vs).value) && FieldsFit(fs[1..], vs))
  }

  // ----- evaluation

  /** Whether an unlabelled `break` or `continue` stops at a loop: the loops of `try` blocks let it through. */
  predicate Catches(loop: Label, target: Label) {
    if target.NoLabel? then !loop.Try? else target == loop
  }

  function Eval(c: Ctx, e: Expr, s: State, fuel: nat): (r: Res)
    ensures SameShapeRes(s, r)
    decreases fuel, e, 2
  {
    match e
    case Lit(v) => Done(Val(v), s)
    case Var(x) => Lifted(LookupIn(x, s), s)
    case Tuple(es) =>
      (match EvalList(c, es, s, fuel) case Abort(r) => r case Vals(vs, s1) => Done(Val(Tup(vs)), s1))
    case Array(es) =>
      (match EvalList(c, es, s, fuel) case Abort(r) => r case Vals(vs, s1) => Done(Val(Arr(vs)), s1))
    case StructLit(path, fs) =>
      (match EvalFields(c, fs, s, fuel) case FieldsAbort(r) => r case FieldVals(vs, s1) => Done(Val(Rec(path, vs)), s1))
    case StructLitPat(_, _) => Stuck
    case Wildcard => Stuck
    case Rest => Stuck
    case Field(_, _) => EvalField(c, e, s, fuel)
    case Index(_, _) => EvalIndex(c, e, s, fuel)
    case Deref(_) => EvalDeref(c, e, s, fuel)
    case CallPath(f, args) =>
      (match EvalList(c, args, s, fuel) case Abort(r) => r case Vals(vs, s1) => CallRes(c, f, vs, s1))
    case CallObject(_, _) => EvalCallObject(c, e, s, fuel)
    case Closure(id, _, _) => Done(Val(Clo(id, s.user)), s)
    case Block(lbl, nodes, keep) =>
      CatchBlock(lbl, LeaveRes(s, EvalNodes(c, nodes, keep, s, fuel)))
    case Let(_, _) => Stuck
    case Assign(_, _) => EvalAssign(c, e, s, fuel)
    case Flow(_, _, _) => EvalFlow(c, e, s, fuel)
    case Loop(_, _) => EvalLoop(c, e, s, fuel)
    case For(_, _, _, _) => EvalForEntry(c, e, s, fuel)
    case WhileLet(_, _, _) => EvalWhile(c, e, s, fuel)
    case Match(_, _) => EvalMatch(c, e, s, fuel)
    case If(_, _, _) => EvalIf(c, e, s, fuel)
    case IfLetChain(_, _, _) => EvalIfLet(c, e, s, fuel)
    case TryBlock(_) => EvalTry(c, e, s, fuel)
    case QMark(_) => EvalQMark(c, e, s, fuel)
    case NextOf(x) => EvalNext(c, x, s)
  }

  function EvalField(c: Ctx, e: Expr, s: State, fuel: nat): (r: Res)
    requires e.Field?
    ensures SameShapeRes(s, r)
    decreases fuel, e, 0
  {
    match Eval(c, e.obj, s, fuel)
    case Done(Val(v), s1) => Lifted(Project(v, PrField(e.name)), s1)
    case r => r
  }

  function EvalIndex(c: Ctx, e: Expr, s: State, fuel: nat): (r: Res)
    requires e.Index?
    ensures SameShapeRes(s, r)
    decreases fuel, e, 0
  {
    match Eval(c, e.obj, s, fuel)
    case Done(Val(v), s1) =>
      (match Eval(c, e.idx, s1, fuel)
       case Done(Val(i), s2) => Lifted(Project(v, PrIndex(i)), s2)
       case r => r)
    case r => r
  }

  function EvalDeref(c: Ctx, e: Expr, s: State, fuel: nat): (r: Res)
    requires e.Deref?
    ensures SameShapeRes(s, r)
    decreases fuel, e, 0
  {
    match Eval(c, e.obj, s, fuel)
    case Done(Val(a), s1) => CallRes(c, "*load", [a], s1)
    case r => r
  }

  function EvalCallObject(c: Ctx, e: Expr, s: State, fuel: nat): (r: Res)
    requires e.CallObject?
    ensures SameShapeRes(s, r)
    decreases fuel, e, 0
  {
    match Eval(c, e.callee, s, fuel)
    case Done(Val(f), s1) =>
      (match EvalList(c, e.args, s1, fuel)
       case Abort(r) => r
       case Vals(vs, s2) => if fuel == 0 then Timeout else Enter(c, f, vs, s2, fuel - 1))
    case r => r
  }

  function EvalAssign(c: Ctx, e: Expr, s: State, fuel: nat): (r: Res)
    requires e.Assign?
    ensures SameShapeRes(s, r)
    decreases fuel, e, 0
  {
    match Eval(c, e.val, s, fuel)
    case Done(Val(v), s1) =>
      if IsAssignee(e.slot) && Fits(e.slot, v) then AssignTo(c, e.slot, v, s1, fuel) else Stuck
    case r => r
  }

  function EvalFlow(c: Ctx, e: Expr, s: State, fuel: nat): (r: Res)
    requires e.Flow?
    ensures SameShapeRes(s, r)
    decreases fuel, e, 0
  {
    match if e.opt.Some? then Eval(c, e.opt.value, s, fuel) else Done(Val(UNIT), s)
    case Done(Val(v), s1) => Leap(c, e.kind, e.target, v, s1)
    case r => r
  }

  function EvalForEntry(c: Ctx, e: Expr, s: State, fuel: nat): (r: Res)
    requires e.For?
    ensures SameShapeRes(s, r)
    decreases fuel, e, 1
  {
    match Eval(c, e.iter, s, fuel)
    case Done(Val(v), s1) =>
      var (it, s2) := CallHost(c, "IntoIterator::into_iter", [v], s1);
      EvalFor(c, e, it, s2, fuel)
    case r => r
  }

  function EvalMatch(c: Ctx, e: Expr, s: State, fuel: nat): (r: Res)
    requires e.Match?
    ensures SameShapeRes(s, r)
    decreases fuel, e, 0
  {
    match Eval(c, e.val, s, fuel)
    case Done(Val(v), s1) => EvalArms(c, e.arms, v, s1, fuel)
    case r => r
  }

  /** The first arm whose pattern matches is run. */
  function EvalArms(c: Ctx, arms: seq<Arm>, v: Value, s: State, fuel: nat): (r: Res)
    ensures SameShapeRes(s, r)
    decreases fuel, arms, 0
  {
    if arms == [] then Stuck
    else
      assert arms[0].code < arms[0];
      match MatchPat(arms[0].pat, v)
      case Some(bs) => LeaveRes(s, Eval(c, arms[0].code, Bind(bs, s), fuel))
      case None => EvalArms(c, arms[1..], v, s, fuel)
  }

  function EvalIf(c: Ctx, e: Expr, s: State, fuel: nat): (r: Res)
    requires e.If?
    ensures SameShapeRes(s, r)
    decreases fuel, e, 0
  {
    match Eval(c, e.cond, s, fuel)
    case Done(Val(v), s1) =>
      if v == Bool(true) then Eval(c, e.thn, s1, fuel)
      else if v == Bool(false) then EvalElse(c, e.els, s1, fuel)
      else Stuck
    case r => r
  }

  function EvalElse(c: Ctx, els: Option<Expr>, s: State, fuel: nat): (r: Res)
    ensures SameShapeRes(s, r)
    decreases fuel, els, 0
  {
    match els
    case Some(e) => Eval(c, e, s, fuel)
    case None => Done(Val(UNIT), s)
  }

  /** The bindings of the conditions are visible in the later conditions and in the first body only. */
  function EvalIfLet(c: Ctx, e: Expr, s: State, fuel: nat): (r: Res)
    requires e.IfLetChain?
    ensures SameShapeRes(s, r)
    decreases fuel, e, 0
  {
    match EvalConds(c, e.conds, s, fuel)
    case CondAbort(r) => LeaveRes(s, r)
    case Matched(s1) => LeaveRes(s, Eval(c, e.thn, s1, fuel))
    case NoMatch(s1) => EvalElse(c, e.els, Leave(s, s1), fuel)
  }

  function EvalTry(c: Ctx, e: Expr, s: State, fuel: nat): (r: Res)
    requires e.TryBlock?
    ensures SameShapeRes(s, r)
    decreases fuel, e, 0
  {
    match Eval(c, e.inner, s, fuel)
    case Done(Val(v), s1) => if c.legacy then CallRes(c, "Result::Ok", [v], s1) else CallRes(c, "Try::from_output", [v], s1)
    case Done(Residual(v), s1) => Done(Val(v), s1)
    case r => r
  }

  function EvalQMark(c: Ctx, e: Expr, s: State, fuel: nat): (r: Res)
    requires e.QMark?
    ensures SameShapeRes(s, r)
    decreases fuel, e, 0
  {
    match Eval(c, e.inner, s, fuel)
    case Done(Val(v), s1) => Question(c, v, s1)
    case r => r
  }

  function EvalNext(c: Ctx, x: Ident, s: State): (r: Res)
    ensures SameShapeRes(s, r)
  {
    match LookupIn(x, s)
    case None => Stuck
    case Some(it) =>
      var (item, it') := c.host.next(it, s.trace);
      match UpdateIn(x, it', s.(trace := s.trace + [Next(it)]))
      case None => Stuck
      case Some(s1) => Done(Val(OptionValue(item)), s1)
  }

  function Lifted(v: Option<Value>, s: State): (r: Res)
    ensures SameShapeRes(s, r)
  {
    if v.Some? then Done(Val(v.value), s) else Stuck
  }

  function OptionValue(v: Option<Value>): Value {
    if v.Some? then Con("Option::Some", [v.value]) else Con("Option::None", [])
  }

  /** `?` on a value: carry on with what it holds, or leave with the residual. */
  function Question(c: Ctx, v: Value, s: State): (r: Res)
    ensures SameShapeRes(s, r)
  {
    var (b, s1) := CallHost(c, if c.legacy then "Try::into_result" else "Try::branch", [v], s);
    Branched(c, b, s1)
  }

  function Branched(c: Ctx, b: Value, s: State): (r: Res)
    ensures SameShapeRes(s, r)
  {
    if !b.Con? || |b.vs| != 1 then Stuck
    else if b.path == (if c.legacy then "Result::Ok" else "ControlFlow::Continue") then Done(Val(b.vs[0]), s)
    else if b.path == (if c.legacy then "Result::Err" else "ControlFlow::Break") then Residue(c, b.vs[0], s)
    else Stuck
  }

  function Residue(c: Ctx, v: Value, s: State): (r: Res)
    ensures SameShapeRes(s, r)
  {
    if c.legacy then
      var (w, s1) := CallHost(c, "From::from", [v], s);
      var (x, s2) := CallHost(c, "Try::from_error", [w], s1);
      Done(Residual(x), s2)
    else
      var (x, s1) := CallHost(c, "FromResidual::from_residual", [v], s);
      Done(Residual(x), s1)
  }

  function Leap(c: Ctx, kind: FlowKind, target: Label, v: Value, s: State): (r: Res)
    ensures SameShapeRes(s, r)
  {
    match kind
    case Return => Done(Returned(v), s)
    case Break => Done(Broke(target, v), s)
    case Continue => Done(Continued(target), s)
    case Yeet =>
      var (w, s1) := CallHost(c, "ops::Yeet", [v], s);
      var (x, s2) := CallHost(c, "FromResidual::from_residual", [w], s1);
      Done(Residual(x), s2)
  }

  function CatchBlock(lbl: Label, r: Res): (r': Res) {
    if r.Done? && r.o.Broke? && !lbl.NoLabel? && r.o.target == lbl then Done(Val(r.o.v), r.s) else r
  }

  /** Running a closure: only what it captured and its arguments are in scope, and nothing but a
      value, a `return` or a residual leaves it. */
  function Enter(c: Ctx, f: Value, args: seq<Value>, s: State, fuel: nat): (r: Res)
    ensures SameShapeRes(s, r)
    decreases fuel
  {
    if !f.Clo? || f.id !in c.code || |c.code[f.id].params| != |args| then Stuck
    else
      match MatchAll(c.code[f.id].params, args)
      case None => Stuck
      case Some(bs) =>
        match Eval(c, c.code[f.id].code, Bind(bs, State(f.env, [], s.trace)), fuel)
        case Done(Val(v), s1) => Done(Val(v), s.(trace := s1.trace))
        case Done(Returned(v), s1) => Done(Val(v), s.(trace := s1.trace))
        case Done(Residual(v), s1) => Done(Val(v), s.(trace := s1.trace))
        case Done(_, _) => Stuck
        case r => r
  }

  function EvalList(c: Ctx, es: seq<Expr>, s: State, fuel: nat): (r: ListRes)
    ensures r.Vals? ==> SameShape(s, r.s) && |r.vs| == |es|
    ensures r.Abort? ==> SameShapeRes(s, r.r)
    decreases fuel, es, 0
  {
    if es == [] then Vals([], s)
    else
      match Eval(c, es[0], s, fuel)
      case Done(Val(v), s1) =>
        (match EvalList(c, es[1..], s1, fuel)
         case Vals(vs, s2) => Vals([v] + vs, s2)
         case Abort(r) => Abort(r))
      case r => Abort(r)
  }

  function EvalFields(c: Ctx, fs: seq<FieldExpr>, s: State, fuel: nat): (r: FieldsRes)
    ensures r.FieldVals? ==> SameShape(s, r.s)
    ensures r.FieldsAbort? ==> SameShapeRes(s, r.r)
    decreases fuel, fs, 0
  {
    if fs == [] then FieldVals([], s)
    else
      match Eval(c, fs[0].val, s, fuel)
      case Done(Val(v), s1) =>
        (match EvalFields(c, fs[1..], s1, fuel)
         case FieldVals(vs, s2) => FieldVals([FieldValue(fs[0].name, v)] + vs, s2)
         case FieldsAbort(r) => FieldsAbort(r))
      case r => FieldsAbort(r)
  }

  /** The nodes of a block, one after the other; a `let` stays in scope until the block is left. */
  function EvalNodes(c: Ctx, nodes: seq<Expr>, keep: bool, s: State, fuel: nat): (r: Res)
    ensures GrownRes(s, r)
    decreases fuel, nodes, 0
  {
    if nodes == [] then Done(Val(UNIT), s)
    else
      match EvalNode(c, nodes[0], s, fuel)
      case Done(Val(v), s1) =>
        if |nodes| == 1 then Done(Val(if keep then v else UNIT), s1)
        else EvalNodes(c, nodes[1..], keep, s1, fuel)
      case r => r
  }

  function EvalNode(c: Ctx, node: Expr, s: State, fuel: nat): (r: Res)
    ensures GrownRes(s, r)
    decreases fuel, node, 3
  {
    if node.Let? then
      match Eval(c, node.val, s, fuel)
      case Done(Val(v), s1) =>
        (match MatchPat(node.pat, v)
         case None => Stuck
         case Some(bs) => Done(Val(UNIT), Bind(bs, s1)))
      case r => r
    else Eval(c, node, s, fuel)
  }

  /** Whether a condition holds of its value, and the scope it opens. */
  function Test(pat: Option<Pat>, v: Value, s: State): (r: Option<State>)
    ensures r.Some? ==> Grown(s, r.value)
  {
    match pat
    case None => if v == Bool(true) then Some(s) else None
    case Some(p) =>
      match MatchPat(p, v)
      case None => None
      case Some(bs) => Some(Bind(bs, s))
  }

  /** The conditions of a chain, left to right, up to the first that fails. */
  function EvalConds(c: Ctx, conds: seq<Cond>, s: State, fuel: nat): (r: CondRes)
    ensures r.CondAbort? ==> GrownRes(s, r.r) && (r.r.Done? ==> !r.r.o.Val?)
    ensures !r.CondAbort? ==> Grown(s, r.s)
    decreases fuel, conds, 0
  {
    if conds == [] then Matched(s)
    else
      assert conds[0].val < conds[0];
      match Eval(c, conds[0].val, s, fuel)
      case Done(Val(v), s1) =>
        if conds[0].pat.None? && !v.Bool? then CondAbort(Stuck)
        else
          (match Test(conds[0].pat, v, s1)
           case None => NoMatch(s1)
           case Some(s2) => EvalConds(c, conds[1..], s2, fuel))
      case r => CondAbort(r)
  }

  function EvalLoop(c: Ctx, e: Expr, s: State, fuel: nat): (r: Res)
    requires e.Loop?
    ensures SameShapeRes(s, r)
    decreases fuel, e, 0
  {
    match GoRound(e.lbl, Eval(c, e.code, s, fuel))
    case Exit(r) => r
    case Again(s1) => if fuel == 0 then Timeout else EvalLoop(c, e, s1, fuel - 1)
  }

  datatype Turn = Exit(r: Res) | Again(s: State)

  /** What one run of a loop body leads to. */
  function GoRound(lbl: Label, r: Res): (t: Turn) {
    match r
    case Done(Val(_), s) => Again(s)
    case Done(Continued(l), s) => if Catches(lbl, l) then Again(s) else Exit(r)
    case Done(Broke(l, v), s) => if Catches(lbl, l) then Exit(Done(Val(v), s)) else Exit(r)
    case _ => Exit(r)
  }

  function EvalFor(c: Ctx, e: Expr, it: Value, s: State, fuel: nat): (r: Res)
    requires e.For?
    ensures SameShapeRes(s, r)
    decreases fuel, e, 0
  {
    var (item, it') := c.host.next(it, s.trace);
    var s1 := s.(trace := s.trace + [Next(it)]);
    match item
    case None => Done(Val(UNIT), s1)
    case Some(v) =>
      match MatchPat(e.pat, v)
      case None => Stuck
      case Some(bs) =>
        match GoRound(e.lbl, LeaveRes(s1, Eval(c, e.code, Bind(bs, s1), fuel)))
        case Exit(r) => r
        case Again(s2) => if fuel == 0 then Timeout else EvalFor(c, e, it', s2, fuel - 1)
  }

  function EvalWhile(c: Ctx, e: Expr, s: State, fuel: nat): (r: Res)
    requires e.WhileLet?
    ensures SameShapeRes(s, r)
    decreases fuel, e, 0
  {
    match EvalConds(c, e.conds, s, fuel)
    case NoMatch(s1) => Done(Val(UNIT), Leave(s, s1))
    case Matched(s1) =>
      (match GoRound(e.lbl, LeaveRes(s, Eval(c, e.code, s1, fuel)))
       case Exit(r) => r
       case Again(s2) => if fuel == 0 then Timeout else EvalWhile(c, e, s2, fuel - 1))
    case CondAbort(r) =>
      match GoRound(e.lbl, LeaveRes(s, r))
      case Exit(r') => r'
      case Again(s2) => if fuel == 0 then Timeout else EvalWhile(c, e, s2, fuel - 1)
  }

  /** The place that an expression denotes; the index expressions are run on the way. */
  function EvalPlace(c: Ctx, e: Expr, s: State, fuel: nat): (r: PlaceRes)
    ensures r.Place? ==> SameShape(s, r.s)
    ensures r.PlaceAbort? ==> SameShapeRes(s, r.r) && (r.r.Done? ==> !r.r.o.Val?)
    decreases fuel, e, 0
  {
    match e
    case Var(x) => Place(RVar(x), [], s)
    case Field(obj, name) =>
      (match EvalPlace(c, obj, s, fuel)
       case Place(root, path, s1) => Place(root, path + [PrField(name)], s1)
       case PlaceAbort(r) => PlaceAbort(r))
    case Index(obj, idx) =>
      (match EvalPlace(c, obj, s, fuel)
       case Place(root, path, s1) =>
         (match Eval(c, idx, s1, fuel)
          case Done(Val(i), s2) => Place(root, path + [PrIndex(i)], s2)
          case r => PlaceAbort(r))
       case PlaceAbort(r) => PlaceAbort(r))
    case Deref(obj) =>
      (match Eval(c, obj, s, fuel)
       case Done(Val(a), s1) => Place(RDeref(a), [], s1)
       case r => PlaceAbort(r))
    case _ => PlaceAbort(Stuck)
  }

  /** Storing a value that fits into an assignee: its places are run and written one after the other,
      left to right.  The value was taken apart before the first write. */
  function AssignTo(c: Ctx, slot: Expr, v: Value, s: State, fuel: nat): (r: Res)
    requires Fits(slot, v)
    ensures SameShapeRes(s, r)
    ensures r.Done? && r.o.Val? ==> r.o.v == UNIT
    decreases fuel, slot, 1
  {
    match slot
    case Wildcard => Done(Val(UNIT), s)
    case Tuple(es) =>
      var k := RestAt(es);
      if k == |es| then AssignAll(c, es, v.vs, s, fuel)
      else
        var after := es[k + 1..];
        (match AssignAll(c, es[..k], v.vs[..k], s, fuel)
         case Done(Val(_), s1) => AssignAll(c, after, v.vs[|v.vs| - |after|..], s1, fuel)
         case r => r)
    case Array(es) => AssignAll(c, es, v.vs, s, fuel)
    case StructLit(_, fs) => AssignFields(c, fs, v.fs, s, fuel)
    case StructLitPat(_, fs) => AssignFields(c, fs, v.fs, s, fuel)
    case _ =>
      match EvalPlace(c, slot, s, fuel)
      case Place(root, path, s1) => WritePlace(c, root, path, v, s1)
      case PlaceAbort(r) => r
  }

  function AssignAll(c: Ctx, es: seq<Expr>, vs: seq<Value>, s: State, fuel: nat): (r: Res)
    requires |es| == |vs| && AllFit(es, vs)
    ensures SameShapeRes(s, r)
    ensures r.Done? && r.o.Val? ==> r.o.v == UNIT
    decreases fuel, es, 0
  {
    if es == [] then Done(Val(UNIT), s)
    else
      match AssignTo(c, es[0], vs[0], s, fuel)
      case Done(Val(_), s1) => AssignAll(c, es[1..], vs[1..], s1, fuel)
      case r => r
  }

  function AssignFields(c: Ctx, fs: seq<FieldExpr>, vs: seq<FieldValue>, s: State, fuel: nat): (r: Res)
    requires FieldsFit(fs, vs)
    ensures SameShapeRes(s, r)
    ensures r.Done? && r.o.Val? ==> r.o.v == UNIT
    decreases fuel, fs, 0
  {
    if fs == [] then Done(Val(UNIT), s)
    else
      match AssignTo(c, fs[0].val, FieldOf(fs[0].name, vs).value, s, fuel)
      case Done(Val(_), s1) => AssignFields(c, fs[1..], vs, s1, fuel)
      case r => r
  }
}
