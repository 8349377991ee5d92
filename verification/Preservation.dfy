/** Lowering preserves meaning: at every fuel, the lowered expression does what the source
    expression does, with a residual turned into the `break` or `return` that carries it. */
module Preservation {
  import opened Ast
  import opened Wrappers
  import opened Semantics
  import opened Lowering
  import opened Assignment

  // ----- programs as the parser delivers them

  predicate UserPat(p: Pat)
    decreases p
  {
    match p
    case PAny => true
    case PBind(x) => x.User?
    case PLit(_) => true
    case PTuple(start, _, end) => UserPats(start) && UserPats(end)
    case PSlice(ps) => UserPats(ps)
    case PCon(_, ps) => UserPats(ps)
    case PStruct(_, fs, _) => UserFieldPats(fs)
  }

  predicate UserPats(ps: seq<Pat>)
    decreases ps
  {
    ps == [] || (UserPat(ps[0]) && UserPats(ps[1..]))
  }

  predicate UserFieldPats(fs: seq<FieldPat>)
    decreases fs
  {
    fs == [] || (UserPat(fs[0].pat) && UserFieldPats(fs[1..]))
  }

  predicate SourceLabel(l: Label) {
    l.NoLabel? || l.Named?
  }

  /** No made-up names, labels or nodes. */
  predicate Source(e: Expr)
    decreases e, 1
  {
    match e
    case Lit(_) => true
    case Var(x) => x.User?
    case Wildcard => true
    case Rest => true
    case NextOf(_) => false
    case Tuple(es) => Sources(es)
    case Array(es) => Sources(es)
    case StructLit(_, fs) => SourceFields(fs)
    case StructLitPat(_, fs) => SourceFields(fs)
    case Field(obj, _) => Source(obj)
    case Index(obj, idx) => Source(obj) && Source(idx)
    case Deref(obj) => Source(obj)
    case CallPath(_, args) => Sources(args)
    case CallObject(callee, args) => Source(callee) && Sources(args)
    case Closure(_, params, code) => UserPats(params) && Source(code)
    case Block(lbl, nodes, _) => SourceLabel(lbl) && Sources(nodes)
    case Let(pat, val) => UserPat(pat) && Source(val)
    case Assign(slot, val) => Source(slot) && Source(val)
    case Flow(kind, target, opt) => SourceLabel(target) && SourceOpt(opt) && (kind.Yeet? ==> opt.Some?)
    case Loop(lbl, code) => SourceLabel(lbl) && Source(code)
    case For(lbl, pat, iter, code) => SourceLabel(lbl) && UserPat(pat) && Source(iter) && Source(code)
    case WhileLet(lbl, conds, code) => SourceLabel(lbl) && SourceConds(conds) && Source(code)
    case Match(val, arms) => Source(val) && SourceArms(arms)
    case If(cond, thn, els) => Source(cond) && Source(thn) && SourceOpt(els)
    case IfLetChain(conds, thn, els) => SourceConds(conds) && Source(thn) && SourceOpt(els)
    case TryBlock(inner) => Source(inner)
    case QMark(inner) => Source(inner)
  }

  predicate Sources(es: seq<Expr>)
    decreases es, 0
  {
    es == [] || (Source(es[0]) && Sources(es[1..]))
  }

  predicate SourceFields(fs: seq<FieldExpr>)
    decreases fs, 0
  {
    fs == [] || (Source(fs[0].val) && SourceFields(fs[1..]))
  }

  predicate SourceConds(cs: seq<Cond>)
    decreases cs, 0
  {
    cs == [] || (
      assert cs[0].val < cs[0];
      Source(cs[0].val) && (cs[0].pat.Some? ==> UserPat(cs[0].pat.value)) && SourceConds(cs[1..]))
  }

  predicate SourceArms(arms: seq<Arm>)
    decreases arms, 0
  {
    arms == [] || (
      assert arms[0].code < arms[0];
      UserPat(arms[0].pat) && Source(arms[0].code) && SourceArms(arms[1..]))
  }

  predicate SourceOpt(opt: Option<Expr>)
    decreases opt, 0
  {
    opt.Some? ==> Source(opt.value) && !opt.value.Let?
  }

  // ----- the relation between the two runs

  /** The closures of the one program are the lowered closures of the other, each lowered outside of any `try` block. */
  ghost predicate Related(c: Ctx, d: Ctx) {
    && SameWorld(c, d)
    && c.code.Keys == d.code.Keys
    && forall id :: id in c.code ==> LoweredFn(c.code[id], d.code[id], c.legacy)
  }

  ghost predicate LoweredFn(f: Fn, f': Fn, legacy: bool) {
    && f'.params == f.params && UserPats(f.params) && Source(f.code)
    && exists n: nat :: f'.code == Lower(f.code, [], n, legacy).e
  }

  function TrOutcome(ts: seq<nat>, o: Outcome): Outcome {
    if !o.Residual? then o
    else if ts == [] then Returned(o.v)
    else Broke(Try(ts[|ts| - 1]), o.v)
  }

  /** The result that the lowered expression has, run below the made-up bindings `g`. */
  function Tr(ts: seq<nat>, g: seq<Binding>, r: Res): Res {
    if r.Done? then Done(TrOutcome(ts, r.o), r.s.(gen := g)) else r
  }

  /** No jump to a made-up label is under way. */
  predicate Plain(r: Res) {
    && (r.Done? && r.o.Broke? ==> SourceLabel(r.o.target))
    && (r.Done? && r.o.Continued? ==> SourceLabel(r.o.target))
  }

  predicate UserOnly(bs: seq<Binding>) {
    forall i :: 0 <= i < |bs| ==> bs[i].name.User?
  }

  lemma {:induction false} BindUser(bs: seq<Binding>, s: State)
    requires UserOnly(bs)
    ensures Bind(bs, s) == s.(user := s.user + bs)
    decreases bs
  {
    if bs == [] {
      assert s.user + bs == s.user;
    } else {
      BindUser(bs[1..], s.(user := s.user + [bs[0]]));
      assert s.user + [bs[0]] + bs[1..] == s.user + bs;
    }
  }

  lemma MatchUser(p: Pat, v: Value)
    requires UserPat(p) && MatchPat(p, v).Some?
    ensures UserOnly(MatchPat(p, v).value)
    decreases p
  {
    match p
    case PTuple(start, rest, end) =>
      MatchAllUser(start, v.vs[..|start|]);
      MatchAllUser(end, v.vs[|v.vs| - |end|..]);
    case PSlice(ps) => MatchAllUser(ps, v.vs);
    case PCon(_, ps) => MatchAllUser(ps, v.vs);
    case PStruct(_, fs, _) => MatchFieldsUser(fs, v.fs);
    case _ =>
  }

  lemma MatchAllUser(ps: seq<Pat>, vs: seq<Value>)
    requires |ps| == |vs| && UserPats(ps) && MatchAll(ps, vs).Some?
    ensures UserOnly(MatchAll(ps, vs).value)
    decreases ps
  {
    if ps != [] {
      MatchUser(ps[0], vs[0]);
      MatchAllUser(ps[1..], vs[1..]);
    }
  }

  lemma MatchFieldsUser(fs: seq<FieldPat>, vs: seq<FieldValue>)
    requires UserFieldPats(fs) && MatchFields(fs, vs).Some?
    ensures UserOnly(MatchFields(fs, vs).value)
    decreases fs
  {
    if fs != [] {
      MatchUser(fs[0].pat, FieldOf(fs[0].name, vs).value);
      MatchFieldsUser(fs[1..], vs);
    }
  }

  // ----- one lemma for each form; `Sim` puts them together

  /** An expression and its replacement, run from the same program bindings and the same history. */
  ghost predicate Agree(c: Ctx, d: Ctx, e: Expr, low: Expr, ts: seq<nat>, s: State, g: seq<Binding>, fuel: nat) {
    && Eval(d, low, s.(gen := g), fuel) == Tr(ts, g, Eval(c, e, s, fuel))
    && Plain(Eval(c, e, s, fuel))
  }

  ghost predicate Same(c: Ctx, d: Ctx, e: Expr, ts: seq<nat>, n: nat, s: State, g: seq<Binding>, fuel: nat) {
    Agree(c, d, e, Lower(e, ts, n, c.legacy).e, ts, s, g, fuel)
  }

  ghost predicate SameWorld(c: Ctx, d: Ctx) {
    c.host == d.host && c.legacy == d.legacy
  }

  /** The value that an expression has, if it has one. */
  predicate HasValue(c: Ctx, e: Expr, s: State, fuel: nat) {
    Eval(c, e, s, fuel).Done? && Eval(c, e, s, fuel).o.Val?
  }

  ghost predicate Start(c: Ctx, d: Ctx, s: State) {
    Related(c, d) && s.gen == []
  }

  function TrList(ts: seq<nat>, g: seq<Binding>, r: ListRes): ListRes {
    match r
    case Vals(vs, s) => Vals(vs, s.(gen := g))
    case Abort(r') => Abort(Tr(ts, g, r'))
  }

  predicate PlainList(r: ListRes) {
    r.Abort? ==> Plain(r.r)
  }

  lemma SimList(c: Ctx, d: Ctx, es: seq<Expr>, ts: seq<nat>, n: nat, s: State, g: seq<Binding>, fuel: nat)
    requires Start(c, d, s) && Sources(es)
    ensures ListAgrees(c, d, es, LowerList(es, ts, n, c.legacy).es, ts, s, g, fuel)
    decreases fuel, es, 0
  {
    if es != [] {
      Sim(c, d, es[0], ts, n, s, g, fuel);
      var l := Lower(es[0], ts, n, c.legacy);
      var tail := LowerList(es[1..], ts, l.n, c.legacy).es;
      if HasValue(c, es[0], s, fuel) {
        SimList(c, d, es[1..], ts, l.n, Eval(c, es[0], s, fuel).s, g, fuel);
      }
      ListCons(c, d, es, l.e, tail, ts, s, g, fuel);
    }
  }

  lemma ListCons(c: Ctx, d: Ctx, es: seq<Expr>, head: Expr, tail: seq<Expr>, ts: seq<nat>, s: State, g: seq<Binding>, fuel: nat)
    requires es != [] && Agree(c, d, es[0], head, ts, s, g, fuel)
    requires HasValue(c, es[0], s, fuel) ==> ListAgrees(c, d, es[1..], tail, ts, Eval(c, es[0], s, fuel).s, g, fuel)
    ensures ListAgrees(c, d, es, [head] + tail, ts, s, g, fuel)
  {
    assert ([head] + tail)[1..] == tail;
  }

  function TrFields(ts: seq<nat>, g: seq<Binding>, r: FieldsRes): FieldsRes {
    match r
    case FieldVals(fs, s) => FieldVals(fs, s.(gen := g))
    case FieldsAbort(r') => FieldsAbort(Tr(ts, g, r'))
  }

  ghost predicate FieldsAgree(c: Ctx, d: Ctx, fs: seq<FieldExpr>, low: seq<FieldExpr>, ts: seq<nat>, s: State, g: seq<Binding>, fuel: nat) {
    && EvalFields(d, low, s.(gen := g), fuel) == TrFields(ts, g, EvalFields(c, fs, s, fuel))
    && (EvalFields(c, fs, s, fuel).FieldsAbort? ==> Plain(EvalFields(c, fs, s, fuel).r))
  }

  lemma SimFields(c: Ctx, d: Ctx, fs: seq<FieldExpr>, ts: seq<nat>, n: nat, s: State, g: seq<Binding>, fuel: nat)
    requires Start(c, d, s) && SourceFields(fs)
    ensures FieldsAgree(c, d, fs, LowerFields(fs, ts, n, c.legacy).fs, ts, s, g, fuel)
    decreases fuel, fs, 0
  {
    if fs != [] {
      Sim(c, d, fs[0].val, ts, n, s, g, fuel);
      var l := Lower(fs[0].val, ts, n, c.legacy);
      var tail := LowerFields(fs[1..], ts, l.n, c.legacy).fs;
      if HasValue(c, fs[0].val, s, fuel) {
        SimFields(c, d, fs[1..], ts, l.n, Eval(c, fs[0].val, s, fuel).s, g, fuel);
      }
      FieldsCons(c, d, fs, l.e, tail, ts, s, g, fuel);
    }
  }

  lemma FieldsCons(c: Ctx, d: Ctx, fs: seq<FieldExpr>, head: Expr, tail: seq<FieldExpr>, ts: seq<nat>, s: State, g: seq<Binding>, fuel: nat)
    requires fs != [] && Agree(c, d, fs[0].val, head, ts, s, g, fuel)
    requires HasValue(c, fs[0].val, s, fuel) ==> FieldsAgree(c, d, fs[1..], tail, ts, Eval(c, fs[0].val, s, fuel).s, g, fuel)
    ensures FieldsAgree(c, d, fs, [FieldExpr(fs[0].name, head)] + tail, ts, s, g, fuel)
  {
    assert ([FieldExpr(fs[0].name, head)] + tail)[1..] == tail;
  }

  lemma SimField(c: Ctx, d: Ctx, e: Expr, ts: seq<nat>, n: nat, s: State, g: seq<Binding>, fuel: nat)
    requires Start(c, d, s) && Source(e) && e.Field?
    ensures Same(c, d, e, ts, n, s, g, fuel)
    decreases fuel, e, 1
  {
    Sim(c, d, e.obj, ts, n, s, g, fuel);
  }

  lemma IndexAgrees(c: Ctx, d: Ctx, e: Expr, obj: Expr, idx: Expr, ts: seq<nat>, s: State, g: seq<Binding>, fuel: nat)
    requires e.Index? && Agree(c, d, e.obj, obj, ts, s, g, fuel)
    requires HasValue(c, e.obj, s, fuel) ==> Agree(c, d, e.idx, idx, ts, Eval(c, e.obj, s, fuel).s, g, fuel)
    ensures Agree(c, d, e, Index(obj, idx), ts, s, g, fuel)
  {
  }

  lemma SimIndex(c: Ctx, d: Ctx, e: Expr, ts: seq<nat>, n: nat, s: State, g: seq<Binding>, fuel: nat)
    requires Start(c, d, s) && Source(e) && e.Index?
    ensures Same(c, d, e, ts, n, s, g, fuel)
    decreases fuel, e, 1
  {
    var l := Lower(e.obj, ts, n, c.legacy);
    Sim(c, d, e.obj, ts, n, s, g, fuel);
    if HasValue(c, e.obj, s, fuel) {
      Sim(c, d, e.idx, ts, l.n, Eval(c, e.obj, s, fuel).s, g, fuel);
    }
    IndexAgrees(c, d, e, l.e, Lower(e.idx, ts, l.n, c.legacy).e, ts, s, g, fuel);
  }

  lemma SimDeref(c: Ctx, d: Ctx, e: Expr, ts: seq<nat>, n: nat, s: State, g: seq<Binding>, fuel: nat)
    requires Start(c, d, s) && Source(e) && e.Deref?
    ensures Same(c, d, e, ts, n, s, g, fuel)
    decreases fuel, e, 1
  {
    Sim(c, d, e.obj, ts, n, s, g, fuel);
  }

  lemma SimElements(c: Ctx, d: Ctx, e: Expr, ts: seq<nat>, n: nat, s: State, g: seq<Binding>, fuel: nat)
    requires Start(c, d, s) && Source(e) && (e.Tuple? || e.Array?)
    ensures Same(c, d, e, ts, n, s, g, fuel)
    decreases fuel, e, 1
  {
    SimList(c, d, e.es, ts, n, s, g, fuel);
  }

  lemma SimStruct(c: Ctx, d: Ctx, e: Expr, ts: seq<nat>, n: nat, s: State, g: seq<Binding>, fuel: nat)
    requires Start(c, d, s) && Source(e) && (e.StructLit? || e.StructLitPat?)
    ensures Same(c, d, e, ts, n, s, g, fuel)
    decreases fuel, e, 1
  {
    if e.StructLit? {
      SimFields(c, d, e.fs, ts, n, s, g, fuel);
    }
  }

  lemma SimCallPath(c: Ctx, d: Ctx, e: Expr, ts: seq<nat>, n: nat, s: State, g: seq<Binding>, fuel: nat)
    requires Start(c, d, s) && Source(e) && e.CallPath?
    ensures Same(c, d, e, ts, n, s, g, fuel)
    decreases fuel, e, 1
  {
    SimList(c, d, e.args, ts, n, s, g, fuel);
  }

  lemma SimLeaf(c: Ctx, d: Ctx, e: Expr, ts: seq<nat>, n: nat, s: State, g: seq<Binding>, fuel: nat)
    requires Start(c, d, s) && Source(e)
    requires e.Lit? || e.Var? || e.Wildcard? || e.Rest? || e.Closure? || e.Let?
    ensures Same(c, d, e, ts, n, s, g, fuel)
    decreases fuel, e, 1
  {
  }

  lemma SimEnter(c: Ctx, d: Ctx, f: Value, args: seq<Value>, s: State, g: seq<Binding>, fuel: nat)
    requires Start(c, d, s)
    ensures EnterAgrees(c, d, f, args, s, g, fuel)
    decreases fuel
  {
    if f.Clo? && f.id in c.code && |c.code[f.id].params| == |args| {
      var fn, fn' := c.code[f.id], d.code[f.id];
      assert LoweredFn(fn, fn', c.legacy);
      if MatchAll(fn.params, args).Some? {
        var s0 := State(f.env, [], s.trace);
        var bs := MatchAll(fn.params, args).value;
        SimFn(c, d, fn, fn', args, s0, fuel);
        BodyEntered(c, d, f, args, Bind(bs, s0), s, g, fuel);
      }
    }
  }

  lemma SimFn(c: Ctx, d: Ctx, fn: Fn, fn': Fn, args: seq<Value>, s: State, fuel: nat)
    requires Start(c, d, s) && LoweredFn(fn, fn', c.legacy) && |fn.params| == |args| && MatchAll(fn.params, args).Some?
    ensures
      var s1 := Bind(MatchAll(fn.params, args).value, s);
      s1.gen == [] && Agree(c, d, fn.code, fn'.code, [], s1, [], fuel)
    decreases fuel, fn.code, 4
  {
    var m: nat :| fn'.code == Lower(fn.code, [], m, c.legacy).e;
    MatchAllUser(fn.params, args);
    BindUser(MatchAll(fn.params, args).value, s);
    Sim(c, d, fn.code, [], m, Bind(MatchAll(fn.params, args).value, s), [], fuel);
  }

  lemma BodyEntered(c: Ctx, d: Ctx, f: Value, args: seq<Value>, s1: State, s: State, g: seq<Binding>, fuel: nat)
    requires f.Clo? && f.id in c.code && f.id in d.code && |c.code[f.id].params| == |args|
    requires d.code[f.id].params == c.code[f.id].params && MatchAll(c.code[f.id].params, args).Some?
    requires s1 == Bind(MatchAll(c.code[f.id].params, args).value, State(f.env, [], s.trace)) && s1.gen == []
    requires Agree(c, d, c.code[f.id].code, d.code[f.id].code, [], s1, [], fuel)
    ensures EnterAgrees(c, d, f, args, s, g, fuel)
  {
    var r := Eval(c, c.code[f.id].code, s1, fuel);
    assert s1.(gen := []) == s1;
    EnterEnds(c, f, args, s, fuel);
    EnterEnds(d, f, args, s.(gen := g), fuel);
    BodyEnds(r, s, g);
  }

  /** How a closure ends when its body has. */
  function EndOfBody(r: Res, s: State): Res {
    if !r.Done? then r
    else if r.o.Val? || r.o.Returned? || r.o.Residual? then Done(Val(r.o.v), s.(trace := r.s.trace))
    else Stuck
  }

  lemma EnterEnds(c: Ctx, f: Value, args: seq<Value>, s: State, fuel: nat)
    requires f.Clo? && f.id in c.code && |c.code[f.id].params| == |args| && MatchAll(c.code[f.id].params, args).Some?
    ensures
      var bs := MatchAll(c.code[f.id].params, args).value;
      Enter(c, f, args, s, fuel) == EndOfBody(Eval(c, c.code[f.id].code, Bind(bs, State(f.env, [], s.trace)), fuel), s)
  {
  }

  lemma BodyEnds(r: Res, s: State, g: seq<Binding>)
    ensures EndOfBody(Tr([], [], r), s.(gen := g)) == Tr([], g, EndOfBody(r, s))
    ensures EndOfBody(r, s).Done? ==> EndOfBody(r, s).o.Val?
  {
  }

  ghost predicate ListAgrees(c: Ctx, d: Ctx, es: seq<Expr>, low: seq<Expr>, ts: seq<nat>, s: State, g: seq<Binding>, fuel: nat) {
    && EvalList(d, low, s.(gen := g), fuel) == TrList(ts, g, EvalList(c, es, s, fuel))
    && PlainList(EvalList(c, es, s, fuel))
  }

  ghost predicate EnterAgrees(c: Ctx, d: Ctx, f: Value, args: seq<Value>, s: State, g: seq<Binding>, fuel: nat) {
    && Enter(d, f, args, s.(gen := g), fuel) == Tr([], g, Enter(c, f, args, s, fuel))
    && (Enter(c, f, args, s, fuel).Done? ==> Enter(c, f, args, s, fuel).o.Val?)
  }

  /** The arguments of a call, and the call itself. */
  ghost predicate ArgsAgree(c: Ctx, d: Ctx, f: Value, es: seq<Expr>, low: seq<Expr>, ts: seq<nat>, s: State, g: seq<Binding>, fuel: nat) {
    var l := EvalList(c, es, s, fuel);
    && ListAgrees(c, d, es, low, ts, s, g, fuel)
    && (l.Vals? && fuel > 0 ==> EnterAgrees(c, d, f, l.vs, l.s, g, fuel - 1))
  }

  lemma CallAgrees(c: Ctx, d: Ctx, e: Expr, callee: Expr, args: seq<Expr>, ts: seq<nat>, s: State, g: seq<Binding>, fuel: nat)
    requires e.CallObject? && Agree(c, d, e.callee, callee, ts, s, g, fuel)
    requires
      HasValue(c, e.callee, s, fuel) ==>
        var r := Eval(c, e.callee, s, fuel);
        ArgsAgree(c, d, r.o.v, e.args, args, ts, r.s, g, fuel)
    ensures Agree(c, d, e, CallObject(callee, args), ts, s, g, fuel)
  {
  }

  lemma SimArgs(c: Ctx, d: Ctx, f: Value, es: seq<Expr>, ts: seq<nat>, n: nat, s: State, g: seq<Binding>, fuel: nat)
    requires Start(c, d, s) && Sources(es)
    ensures ArgsAgree(c, d, f, es, LowerList(es, ts, n, c.legacy).es, ts, s, g, fuel)
    decreases fuel, es, 1
  {
    SimList(c, d, es, ts, n, s, g, fuel);
    var l := EvalList(c, es, s, fuel);
    if l.Vals? && fuel > 0 {
      EvalListKeepsUser(c, es, s, fuel);
      SimEnter(c, d, f, l.vs, l.s, g, fuel - 1);
    }
  }

  lemma EvalListKeepsUser(c: Ctx, es: seq<Expr>, s: State, fuel: nat)
    requires s.gen == []
    ensures EvalList(c, es, s, fuel).Vals? ==> EvalList(c, es, s, fuel).s.gen == []
  {
  }

  lemma SimCall(c: Ctx, d: Ctx, e: Expr, ts: seq<nat>, n: nat, s: State, g: seq<Binding>, fuel: nat)
    requires Start(c, d, s) && Source(e) && e.CallObject?
    ensures Same(c, d, e, ts, n, s, g, fuel)
    decreases fuel, e, 1
  {
    var k := Lower(e.callee, ts, n, c.legacy);
    Sim(c, d, e.callee, ts, n, s, g, fuel);
    var r := Eval(c, e.callee, s, fuel);
    if HasValue(c, e.callee, s, fuel) {
      SimArgs(c, d, r.o.v, e.args, ts, k.n, r.s, g, fuel);
    }
    CallAgrees(c, d, e, k.e, LowerList(e.args, ts, k.n, c.legacy).es, ts, s, g, fuel);
  }

  lemma SimNode(c: Ctx, d: Ctx, e: Expr, ts: seq<nat>, n: nat, s: State, g: seq<Binding>, fuel: nat)
    requires Start(c, d, s) && Source(e)
    ensures NodeAgrees(c, d, e, Lower(e, ts, n, c.legacy).e, ts, s, g, fuel)
    decreases fuel, e, 4
  {
    if e.Let? {
      var l := Lower(e.val, ts, n, c.legacy);
      Sim(c, d, e.val, ts, n, s, g, fuel);
      LetAgrees(c, d, e, l.e, ts, s, g, fuel);
    } else {
      Sim(c, d, e, ts, n, s, g, fuel);
      LowerKeepsLet(e, ts, n, c.legacy);
    }
  }

  lemma LetAgrees(c: Ctx, d: Ctx, e: Expr, val: Expr, ts: seq<nat>, s: State, g: seq<Binding>, fuel: nat)
    requires e.Let? && UserPat(e.pat) && s.gen == [] && Agree(c, d, e.val, val, ts, s, g, fuel)
    ensures NodeAgrees(c, d, e, Let(e.pat, val), ts, s, g, fuel)
  {
    var r := Eval(c, e.val, s, fuel);
    if r.Done? && r.o.Val? && MatchPat(e.pat, r.o.v).Some? {
      MatchUser(e.pat, r.o.v);
      BindUser(MatchPat(e.pat, r.o.v).value, r.s);
      BindUser(MatchPat(e.pat, r.o.v).value, r.s.(gen := g));
    }
  }

  lemma LowerKeepsLet(e: Expr, ts: seq<nat>, n: nat, legacy: bool)
    ensures Lower(e, ts, n, legacy).e.Let? <==> e.Let?
  {
  }

  ghost predicate NodesAgree(c: Ctx, d: Ctx, es: seq<Expr>, low: seq<Expr>, keep: bool, ts: seq<nat>, s: State, g: seq<Binding>, fuel: nat) {
    var r := EvalNodes(c, es, keep, s, fuel);
    EvalNodes(d, low, keep, s.(gen := g), fuel) == Tr(ts, g, r) && Plain(r) && (r.Done? ==> r.s.gen == [])
  }

  ghost predicate NodeAgrees(c: Ctx, d: Ctx, e: Expr, low: Expr, ts: seq<nat>, s: State, g: seq<Binding>, fuel: nat) {
    var r := EvalNode(c, e, s, fuel);
    EvalNode(d, low, s.(gen := g), fuel) == Tr(ts, g, r) && Plain(r) && (r.Done? ==> r.s.gen == [])
  }

  lemma SimNodes(c: Ctx, d: Ctx, es: seq<Expr>, keep: bool, ts: seq<nat>, n: nat, s: State, g: seq<Binding>, fuel: nat)
    requires Start(c, d, s) && Sources(es)
    ensures NodesAgree(c, d, es, LowerList(es, ts, n, c.legacy).es, keep, ts, s, g, fuel)
    decreases fuel, es, 0
  {
    if es != [] {
      SimNode(c, d, es[0], ts, n, s, g, fuel);
      var l := Lower(es[0], ts, n, c.legacy);
      var tail := LowerList(es[1..], ts, l.n, c.legacy).es;
      var r := EvalNode(c, es[0], s, fuel);
      if HasEnded(r) {
        SimNodes(c, d, es[1..], keep, ts, l.n, r.s, g, fuel);
      }
      NodesCons(c, d, es, l.e, tail, keep, ts, s, g, fuel);
    }
  }

  lemma NodesCons(c: Ctx, d: Ctx, es: seq<Expr>, head: Expr, tail: seq<Expr>, keep: bool, ts: seq<nat>, s: State, g: seq<Binding>, fuel: nat)
    requires |es| == |tail| + 1 && NodeAgrees(c, d, es[0], head, ts, s, g, fuel)
    requires var r := EvalNode(c, es[0], s, fuel); HasEnded(r) ==> NodesAgree(c, d, es[1..], tail, keep, ts, r.s, g, fuel)
    ensures NodesAgree(c, d, es, [head] + tail, keep, ts, s, g, fuel)
  {
    assert ([head] + tail)[1..] == tail;
  }

  lemma SimBlock(c: Ctx, d: Ctx, e: Expr, ts: seq<nat>, n: nat, s: State, g: seq<Binding>, fuel: nat)
    requires Start(c, d, s) && Source(e) && e.Block?
    ensures Same(c, d, e, ts, n, s, g, fuel)
    decreases fuel, e, 1
  {
    SimNodes(c, d, e.nodes, e.keep, ts, n, s, g, fuel);
    var r := EvalNodes(c, e.nodes, e.keep, s, fuel);
    LeaveTr(ts, g, s, r);
  }

  /** Leaving a scope commutes with the translation of results. */
  lemma LeaveTr(ts: seq<nat>, g: seq<Binding>, s: State, r: Res)
    requires s.gen == [] && GrownRes(s, r)
    ensures GrownRes(s.(gen := g), Tr(ts, g, r))
    ensures LeaveRes(s.(gen := g), Tr(ts, g, r)) == Tr(ts, g, LeaveRes(s, r))
  {
    assert g[..|g|] == g;
  }

  /** Any jump but `do yeet` stays what it is. */
  lemma FlowAgrees(c: Ctx, d: Ctx, e: Expr, low: Option<Expr>, ts: seq<nat>, s: State, g: seq<Binding>, fuel: nat)
    requires e.Flow? && !e.kind.Yeet? && SourceLabel(e.target) && (e.opt.Some? <==> low.Some?)
    requires e.opt.Some? ==> Agree(c, d, e.opt.value, low.value, ts, s, g, fuel)
    ensures Agree(c, d, e, Flow(e.kind, e.target, low), ts, s, g, fuel)
  {
  }

  lemma YeetAgrees(c: Ctx, d: Ctx, e: Expr, low: Expr, ts: seq<nat>, s: State, g: seq<Binding>, fuel: nat)
    requires e.Flow? && e.kind.Yeet? && e.opt.Some? && SameWorld(c, d)
    requires Agree(c, d, e.opt.value, low, ts, s, g, fuel)
    ensures Agree(c, d, e, LowerYeet(ts, Some(low)), ts, s, g, fuel)
  {
    YeetSteps(d, low, ts, s.(gen := g), fuel);
  }

  lemma SimFlow(c: Ctx, d: Ctx, e: Expr, ts: seq<nat>, n: nat, s: State, g: seq<Binding>, fuel: nat)
    requires Start(c, d, s) && Source(e) && e.Flow?
    ensures Same(c, d, e, ts, n, s, g, fuel)
    decreases fuel, e, 1
  {
    var low := LowerOpt(e.opt, ts, n, c.legacy).opt;
    if e.opt.Some? {
      Sim(c, d, e.opt.value, ts, n, s, g, fuel);
    }
    if e.kind.Yeet? {
      YeetAgrees(c, d, e, low.value, ts, s, g, fuel);
    } else {
      FlowAgrees(c, d, e, low, ts, s, g, fuel);
    }
  }

  /** The generated `yeet`: build the residual, then leave with it. */
  lemma YeetSteps(d: Ctx, low: Expr, ts: seq<nat>, s: State, fuel: nat)
    ensures Eval(d, LowerYeet(ts, Some(low)), s, fuel) ==
            (match Eval(d, low, s, fuel)
             case Done(Val(v), s1) => Tr(ts, s1.gen, Leap(d, Yeet, NoLabel, v, s1))
             case r => r)
  {
    var inner := CallPath("ops::Yeet", [low]);
    var call := CallPath("FromResidual::from_residual", [inner]);
    SingleArg(d, "ops::Yeet", low, s, fuel);
    SingleArg(d, "FromResidual::from_residual", inner, s, fuel);
    assert LowerYeet(ts, Some(low)) == LeaveWith(ts, call);
  }

  lemma SingleArg(d: Ctx, f: string, arg: Expr, s: State, fuel: nat)
    ensures Eval(d, CallPath(f, [arg]), s, fuel) ==
            (match Eval(d, arg, s, fuel)
             case Done(Val(v), s1) => CallRes(d, f, [v], s1)
             case r => r)
  {
    assert [arg][1..] == [];
    var r := Eval(d, arg, s, fuel);
    if r.Done? && r.o.Val? {
      assert EvalList(d, [], r.s, fuel) == Vals([], r.s);
      assert [r.o.v] + [] == [r.o.v];
      assert EvalList(d, [arg], s, fuel) == Vals([r.o.v], r.s);
    }
  }

  // ----- loops, branches and the sugar made of them

  function TrTurn(ts: seq<nat>, g: seq<Binding>, t: Turn): Turn {
    match t
    case Exit(r) => Exit(Tr(ts, g, r))
    case Again(s) => Again(s.(gen := g))
  }

  /** A residual under way never stops at a loop of the program. */
  lemma GoRoundTr(lbl: Label, ts: seq<nat>, g: seq<Binding>, r: Res)
    requires SourceLabel(lbl) && Plain(r)
    ensures GoRound(lbl, Tr(ts, g, r)) == TrTurn(ts, g, GoRound(lbl, r))
    ensures GoRound(lbl, r).Exit? ==> Plain(GoRound(lbl, r).r)
  {
  }

  lemma SimLoop(c: Ctx, d: Ctx, e: Expr, ts: seq<nat>, n: nat, s: State, g: seq<Binding>, fuel: nat)
    requires Start(c, d, s) && Source(e) && e.Loop?
    ensures EvalLoop(d, Loop(e.lbl, Lower(e.code, ts, n, c.legacy).e), s.(gen := g), fuel) == Tr(ts, g, EvalLoop(c, e, s, fuel))
    ensures Plain(EvalLoop(c, e, s, fuel))
    decreases fuel, e, 1
  {
    Sim(c, d, e.code, ts, n, s, g, fuel);
    var r := Eval(c, e.code, s, fuel);
    GoRoundTr(e.lbl, ts, g, r);
    if GoRound(e.lbl, r).Again? && fuel > 0 {
      SimLoop(c, d, e, ts, n, GoRound(e.lbl, r).s, g, fuel - 1);
    }
  }

  ghost predicate ElseAgrees(c: Ctx, d: Ctx, els: Option<Expr>, low: Option<Expr>, ts: seq<nat>, s: State, g: seq<Binding>, fuel: nat) {
    && EvalElse(d, low, s.(gen := g), fuel) == Tr(ts, g, EvalElse(c, els, s, fuel))
    && Plain(EvalElse(c, els, s, fuel))
  }

  lemma IfAgrees(c: Ctx, d: Ctx, e: Expr, cond: Expr, thn: Expr, els: Option<Expr>, ts: seq<nat>, s: State, g: seq<Binding>, fuel: nat)
    requires e.If? && Agree(c, d, e.cond, cond, ts, s, g, fuel)
    requires
      HasValue(c, e.cond, s, fuel) ==>
        var s1 := Eval(c, e.cond, s, fuel).s;
        Agree(c, d, e.thn, thn, ts, s1, g, fuel) && ElseAgrees(c, d, e.els, els, ts, s1, g, fuel)
    ensures Agree(c, d, e, If(cond, thn, els), ts, s, g, fuel)
  {
  }

  lemma SimIf(c: Ctx, d: Ctx, e: Expr, ts: seq<nat>, n: nat, s: State, g: seq<Binding>, fuel: nat)
    requires Start(c, d, s) && Source(e) && e.If?
    ensures Same(c, d, e, ts, n, s, g, fuel)
    decreases fuel, e, 1
  {
    var l := Lower(e.cond, ts, n, c.legacy);
    var k := Lower(e.thn, ts, l.n, c.legacy);
    Sim(c, d, e.cond, ts, n, s, g, fuel);
    if HasValue(c, e.cond, s, fuel) {
      var s1 := Eval(c, e.cond, s, fuel).s;
      Sim(c, d, e.thn, ts, l.n, s1, g, fuel);
      SimElse(c, d, e.els, ts, k.n, s1, g, fuel);
    }
    IfAgrees(c, d, e, l.e, k.e, LowerOpt(e.els, ts, k.n, c.legacy).opt, ts, s, g, fuel);
  }

  lemma SimElse(c: Ctx, d: Ctx, els: Option<Expr>, ts: seq<nat>, n: nat, s: State, g: seq<Binding>, fuel: nat)
    requires Start(c, d, s) && SourceOpt(els)
    ensures ElseAgrees(c, d, els, LowerOpt(els, ts, n, c.legacy).opt, ts, s, g, fuel)
    decreases fuel, els, 0
  {
    if els.Some? {
      Sim(c, d, els.value, ts, n, s, g, fuel);
    }
  }

  lemma SimMatch(c: Ctx, d: Ctx, e: Expr, ts: seq<nat>, n: nat, s: State, g: seq<Binding>, fuel: nat)
    requires Start(c, d, s) && Source(e) && e.Match?
    ensures Same(c, d, e, ts, n, s, g, fuel)
    decreases fuel, e, 1
  {
    Sim(c, d, e.val, ts, n, s, g, fuel);
    var r := Eval(c, e.val, s, fuel);
    if r.Done? && r.o.Val? {
      SimArms(c, d, e.arms, r.o.v, ts, Lower(e.val, ts, n, c.legacy).n, r.s, g, fuel);
    }
  }

  lemma SimArms(c: Ctx, d: Ctx, arms: seq<Arm>, v: Value, ts: seq<nat>, n: nat, s: State, g: seq<Binding>, fuel: nat)
    requires Start(c, d, s) && SourceArms(arms)
    ensures EvalArms(d, LowerArms(arms, ts, n, c.legacy).arms, v, s.(gen := g), fuel) == Tr(ts, g, EvalArms(c, arms, v, s, fuel))
    ensures Plain(EvalArms(c, arms, v, s, fuel))
    decreases fuel, arms, 0
  {
    if arms != [] {
      assert arms[0].code < arms[0];
      var l := Lower(arms[0].code, ts, n, c.legacy);
      var low := LowerArms(arms, ts, n, c.legacy).arms;
      assert low[0] == Arm(arms[0].pat, l.e) && low[1..] == LowerArms(arms[1..], ts, l.n, c.legacy).arms;
      match MatchPat(arms[0].pat, v)
      case Some(bs) =>
        SimScope(c, d, arms[0].code, bs, arms[0].pat, v, ts, n, s, g, fuel);
      case None => SimArms(c, d, arms[1..], v, ts, l.n, s, g, fuel);
    }
  }

  /** Code run in the scope of a pattern of the program. */
  lemma SimScope(c: Ctx, d: Ctx, code: Expr, bs: seq<Binding>, pat: Pat, v: Value,
                 ts: seq<nat>, n: nat, s: State, g: seq<Binding>, fuel: nat)
    requires Start(c, d, s) && Source(code) && UserPat(pat) && MatchPat(pat, v) == Some(bs)
    ensures LeaveRes(s.(gen := g), Eval(d, Lower(code, ts, n, c.legacy).e, Bind(bs, s.(gen := g)), fuel))
         == Tr(ts, g, LeaveRes(s, Eval(c, code, Bind(bs, s), fuel)))
    ensures Plain(LeaveRes(s, Eval(c, code, Bind(bs, s), fuel)))
    decreases fuel, code, 4
  {
    MatchUser(pat, v);
    BindUser(bs, s);
    BindUser(bs, s.(gen := g));
    Sim(c, d, code, ts, n, Bind(bs, s), g, fuel);
    LeaveTr(ts, g, s, Eval(c, code, Bind(bs, s), fuel));
  }

  /** The generated code for a failed condition does nothing but end in `o`. */
  ghost predicate Passive(d: Ctx, fail: Expr, o: Outcome, fuel: nat) {
    forall s :: Eval(d, fail, s, fuel) == Done(o, s)
  }

  lemma LeaveLeave(s0: State, s1: State, r: Res)
    requires Grown(s0, s1) && GrownRes(s1, r)
    ensures LeaveRes(s0, LeaveRes(s1, r)) == LeaveRes(s0, r)
  {
    if r.Done? {
      assert r.s.user[..|s1.user|][..|s0.user|] == r.s.user[..|s0.user|];
      assert r.s.gen[..|s1.gen|][..|s0.gen|] == r.s.gen[..|s0.gen|];
    }
  }

  predicate GrownConds(s: State, r: CondRes) {
    match r
    case CondAbort(r') => GrownRes(s, r')
    case NoMatch(s1) => Grown(s, s1)
    case Matched(s1) => Grown(s, s1)
  }

  /** What the body does when all conditions hold. */
  function BodyRes(d: Ctx, r: CondRes, body: Expr, g: seq<Binding>, fuel: nat): Res {
    if r.Matched? then Eval(d, body, r.s.(gen := g), fuel) else Stuck
  }

  /** What a chain of matches yields (`t`) when its conditions yield `r` and its body `rb`. */
  predicate ChainSays(r: CondRes, t: Res, rb: Res, o: Outcome, ts: seq<nat>, s: State, g: seq<Binding>)
    requires GrownConds(s, r) && s.gen == []
  {
    match r
    case CondAbort(r') => Plain(r') && t == Tr(ts, g, LeaveRes(s, r'))
    case NoMatch(s1) => t == Done(o, Leave(s, s1).(gen := g))
    case Matched(s1) => s1.gen == [] && GrownRes(s.(gen := g), rb) && t == LeaveRes(s.(gen := g), rb)
  }

  /** The nest of matches built for a chain tries the conditions one by one; the body runs in the scope of
      all their bindings, and the code for failure in none of them. */
  lemma SimChain(c: Ctx, d: Ctx, cs: seq<Cond>, body: Expr, fail: Expr, o: Outcome,
                 ts: seq<nat>, n: nat, s: State, g: seq<Binding>, fuel: nat)
    requires Start(c, d, s) && SourceConds(cs) && Passive(d, fail, o, fuel)
    ensures
      var r := EvalConds(c, cs, s, fuel);
      ChainSays(r, Eval(d, LetChain(LowerConds(cs, ts, n, c.legacy).cs, body, fail), s.(gen := g), fuel),
                BodyRes(d, r, body, g, fuel), o, ts, s, g)
    decreases fuel, cs, 0
  {
    var low := LowerConds(cs, ts, n, c.legacy).cs;
    if cs == [] {
      LeaveSame(s.(gen := g), Eval(d, body, s.(gen := g), fuel));
    } else {
      assert cs[0].val < cs[0];
      Sim(c, d, cs[0].val, ts, n, s, g, fuel);
      var l := Lower(cs[0].val, ts, n, c.legacy);
      assert low[0] == Cond(cs[0].pat, l.e) && low[1..] == LowerConds(cs[1..], ts, l.n, c.legacy).cs;
      var r := Eval(c, cs[0].val, s, fuel);
      if r.Done? && r.o.Val? {
        var next := Test(cs[0].pat, r.o.v, r.s);
        if next.Some? {
          TestUser(cs[0].pat, r.o.v, r.s, g);
          SimChain(c, d, cs[1..], body, fail, o, ts, l.n, next.value, g, fuel);
        }
      }
      ChainCons(c, d, cs, low, body, fail, o, ts, s, g, fuel);
    }
  }

  /** A chain whose first condition, and whose rest, are known to behave. */
  lemma ChainCons(c: Ctx, d: Ctx, cs: seq<Cond>, low: seq<Cond>, body: Expr, fail: Expr, o: Outcome,
                  ts: seq<nat>, s: State, g: seq<Binding>, fuel: nat)
    requires |low| == |cs| > 0 && low[0].pat == cs[0].pat && s.gen == [] && Passive(d, fail, o, fuel)
    requires Eval(d, low[0].val, s.(gen := g), fuel) == Tr(ts, g, Eval(c, cs[0].val, s, fuel))
    requires Plain(Eval(c, cs[0].val, s, fuel))
    requires
      var r := Eval(c, cs[0].val, s, fuel);
      r.Done? && r.o.Val? && Test(cs[0].pat, r.o.v, r.s).Some? ==>
        var s2 := Test(cs[0].pat, r.o.v, r.s).value;
        && s2.gen == [] && Test(cs[0].pat, r.o.v, r.s.(gen := g)) == Some(s2.(gen := g))
        && ChainSays(EvalConds(c, cs[1..], s2, fuel), Eval(d, LetChain(low[1..], body, fail), s2.(gen := g), fuel),
                     BodyRes(d, EvalConds(c, cs[1..], s2, fuel), body, g, fuel), o, ts, s2, g)
    ensures
      var r := EvalConds(c, cs, s, fuel);
      ChainSays(r, Eval(d, LetChain(low, body, fail), s.(gen := g), fuel), BodyRes(d, r, body, g, fuel), o, ts, s, g)
  {
    var r := Eval(c, cs[0].val, s, fuel);
    var rest := LetChain(low[1..], body, fail);
    assert LetChain(low, body, fail) == ChainLevel(low[0], rest, fail);
    if r.Done? && r.o.Val? {
      ChainStep(d, low[0], rest, fail, o, r.o.v, s.(gen := g), r.s.(gen := g), fuel);
      var next := Test(cs[0].pat, r.o.v, r.s);
      if next.Some? {
        var rc := EvalConds(c, cs[1..], next.value, fuel);
        ChainScope(rc, BodyRes(d, rc, body, g, fuel), o, ts, s, r.s, next.value, g, Eval(d, rest, next.value.(gen := g), fuel));
      } else {
        TestFails(cs[0].pat, r.o.v, r.s, g);
        assert Leave(s, r.s) == r.s;
      }
    } else {
      ChainAbort(d, low[0], rest, fail, s.(gen := g), fuel);
      LeaveSame(s, r);
    }
  }

  lemma TestFails(pat: Option<Pat>, v: Value, s: State, g: seq<Binding>)
    ensures Test(pat, v, s).Some? <==> Test(pat, v, s.(gen := g)).Some?
  {
  }

  lemma TestUser(pat: Option<Pat>, v: Value, s: State, g: seq<Binding>)
    requires pat.Some? ==> UserPat(pat.value)
    requires s.gen == [] && Test(pat, v, s).Some?
    ensures Test(pat, v, s).value.gen == []
    ensures Test(pat, v, s.(gen := g)) == Some(Test(pat, v, s).value.(gen := g))
  {
    if pat.Some? {
      var bs := MatchPat(pat.value, v).value;
      MatchUser(pat.value, v);
      BindUser(bs, s);
      BindUser(bs, s.(gen := g));
    }
  }

  lemma LeaveSame(s: State, r: Res)
    requires SameShapeRes(s, r)
    ensures LeaveRes(s, r) == r
  {
    if r.Done? {
      assert r.s.user[..|s.user|] == r.s.user && r.s.gen[..|s.gen|] == r.s.gen;
    }
  }

  /** One level of the nest, once its condition has a value. */
  lemma ChainStep(d: Ctx, cond: Cond, rest: Expr, fail: Expr, o: Outcome, v: Value, s: State, s1: State, fuel: nat)
    requires Eval(d, cond.val, s, fuel) == Done(Val(v), s1) && Passive(d, fail, o, fuel)
    ensures
      Eval(d, ChainLevel(cond, rest, fail), s, fuel) ==
      if cond.pat.None? && !v.Bool? then Stuck
      else
        match Test(cond.pat, v, s1)
        case None => Done(o, s1)
        case Some(s2) => LeaveRes(s1, Eval(d, rest, s2, fuel))
  {
    if cond.pat.Some? {
      var arms := [Arm(cond.pat.value, rest), Arm(PAny, fail)];
      assert arms[1..] == [Arm(PAny, fail)];
      assert Eval(d, Match(cond.val, arms), s, fuel) == EvalArms(d, arms, v, s1, fuel);
      if MatchPat(cond.pat.value, v).None? {
        assert EvalArms(d, arms, v, s1, fuel) == EvalArms(d, [Arm(PAny, fail)], v, s1, fuel);
        assert Bind([], s1) == s1;
        LeaveSame(s1, Done(o, s1));
      }
    } else {
      assert EvalElse(d, Some(fail), s1, fuel) == Eval(d, fail, s1, fuel);
      LeaveSame(s1, Eval(d, rest, s1, fuel));
    }
  }

  lemma ChainAbort(d: Ctx, cond: Cond, rest: Expr, fail: Expr, s: State, fuel: nat)
    requires !(Eval(d, cond.val, s, fuel).Done? && Eval(d, cond.val, s, fuel).o.Val?)
    ensures Eval(d, ChainLevel(cond, rest, fail), s, fuel) == Eval(d, cond.val, s, fuel)
  {
  }

  /** From the scope of one condition of a chain back to where the chain started. */
  lemma ChainScope(r: CondRes, rb: Res, o: Outcome, ts: seq<nat>, s: State, s1: State, s2: State, g: seq<Binding>, t: Res)
    requires SameShape(s, s1) && Grown(s1, s2) && s.gen == [] && s2.gen == []
    requires GrownConds(s2, r) && ChainSays(r, t, rb, o, ts, s2, g)
    ensures GrownConds(s, r) && GrownRes(s1.(gen := g), t)
    ensures ChainSays(r, LeaveRes(s1.(gen := g), t), rb, o, ts, s, g)
  {
    match r
    case CondAbort(r') =>
      LeaveTr(ts, g, s1, LeaveRes(s2, r'));
      LeaveLeave(s1, s2, r');
    case NoMatch(s3) => LeaveNoMatch(s, s1, s2, s3, g);
    case Matched(s3) => LeaveLeave(s1.(gen := g), s2.(gen := g), rb);
  }

  lemma LeaveNoMatch(s: State, s1: State, s2: State, s3: State, g: seq<Binding>)
    requires SameShape(s, s1) && Grown(s1, s2) && Grown(s2, s3) && s.gen == [] && s2.gen == []
    ensures Leave(s1.(gen := g), Leave(s2, s3).(gen := g)) == Leave(s, s3).(gen := g)
  {
    assert s3.user[..|s2.user|][..|s1.user|] == s3.user[..|s.user|];
    assert g[..|g|] == g;
  }

  // ----- `if let`

  lemma EmptyBlockPassive(d: Ctx, fuel: nat)
    ensures Passive(d, Block(NoLabel, [], true), Val(UNIT), fuel)
  {
    forall s ensures Eval(d, Block(NoLabel, [], true), s, fuel) == Done(Val(UNIT), s) {
      LeaveSame(s, Done(Val(UNIT), s));
    }
  }

  /** The block catches the break out of the taken branch, and nothing else. */
  lemma IfLetSteps(d: Ctx, chain: Expr, els: Expr, s: State, fuel: nat)
    requires !chain.Let? && !els.Let?
    ensures
      Eval(d, Block(IfLet, [chain, els], true), s, fuel) ==
      match Eval(d, chain, s, fuel)
      case Done(Val(_), s1) => CatchBlock(IfLet, Eval(d, els, s1, fuel))
      case r => CatchBlock(IfLet, r)
  {
    var nodes := [chain, els];
    assert nodes[1..] == [els];
    var r := Eval(d, chain, s, fuel);
    LeaveSame(s, r);
    if r.Done? && r.o.Val? {
      assert EvalNodes(d, nodes, true, s, fuel) == EvalNodes(d, [els], true, r.s, fuel);
      assert EvalNodes(d, [els], true, r.s, fuel) == Eval(d, els, r.s, fuel);
      LeaveSame(s, Eval(d, els, r.s, fuel));
    } else {
      assert EvalNodes(d, nodes, true, s, fuel) == r;
    }
  }

  lemma LetChainNotLet(cs: seq<Cond>, body: Expr, fail: Expr)
    requires !body.Let?
    ensures !LetChain(cs, body, fail).Let?
  {
  }

  lemma SimIfLet(c: Ctx, d: Ctx, e: Expr, ts: seq<nat>, n: nat, s: State, g: seq<Binding>, fuel: nat)
    requires Start(c, d, s) && Source(e) && e.IfLetChain?
    ensures Eval(d, Lower(e, ts, n, c.legacy).e, s.(gen := g), fuel) == Tr(ts, g, EvalIfLet(c, e, s, fuel))
    ensures Plain(EvalIfLet(c, e, s, fuel))
    decreases fuel, e, 1
  {
    var l := LowerConds(e.conds, ts, n, c.legacy);
    var k := Lower(e.thn, ts, l.n, c.legacy);
    var m := LowerOpt(e.els, ts, k.n, c.legacy);
    assert Lower(e, ts, n, c.legacy).e == IfLetBlock(l.cs, k.e, m.opt);
    EmptyBlockPassive(d, fuel);
    SimChain(c, d, e.conds, Flow(Break, IfLet, Some(k.e)), Block(NoLabel, [], true), Val(UNIT), ts, n, s, g, fuel);
    if e.els.Some? {
      LowerKeepsLet(e.els.value, ts, k.n, c.legacy);
    }
    var r := EvalConds(c, e.conds, s, fuel);
    match r {
      case CondAbort(_) =>
      case NoMatch(s1) => SimElse(c, d, e.els, ts, k.n, Leave(s, s1), g, fuel);
      case Matched(s1) => Sim(c, d, e.thn, ts, l.n, s1, g, fuel);
    }
    IfLetEnds(d, r, l.cs, k.e, m.opt, ts, s, g, EvalIfLet(c, e, s, fuel),
              if r.Matched? then Eval(c, e.thn, r.s, fuel) else Stuck, fuel);
  }

  /** What the conditions yield is `r`, and the branch that is then run yields `want`. */
  ghost predicate BranchSays(d: Ctx, r: CondRes, thn: Expr, opt: Option<Expr>, ts: seq<nat>,
                             s: State, g: seq<Binding>, want: Res, taken: Res, fuel: nat)
    requires GrownConds(s, r)
  {
    match r
    case CondAbort(r') => (r'.Done? ==> !r'.o.Val?) && want == LeaveRes(s, r')
    case NoMatch(s1) => Plain(want) && EvalElse(d, opt, Leave(s, s1).(gen := g), fuel) == Tr(ts, g, want)
    case Matched(s1) =>
      && Plain(taken) && GrownRes(s, taken) && want == LeaveRes(s, taken)
      && Eval(d, thn, s1.(gen := g), fuel) == Tr(ts, g, taken)
  }

  /** The generated block ends as the chain and the branch that is taken say. */
  lemma IfLetEnds(d: Ctx, r: CondRes, cs: seq<Cond>, thn: Expr, opt: Option<Expr>, ts: seq<nat>,
                  s: State, g: seq<Binding>, want: Res, taken: Res, fuel: nat)
    requires GrownConds(s, r) && s.gen == [] && (opt.Some? ==> !opt.value.Let?)
    requires ChainSays(r, Eval(d, LetChain(cs, Flow(Break, IfLet, Some(thn)), Block(NoLabel, [], true)), s.(gen := g), fuel),
                       BodyRes(d, r, Flow(Break, IfLet, Some(thn)), g, fuel), Val(UNIT), ts, s, g)
    requires BranchSays(d, r, thn, opt, ts, s, g, want, taken, fuel)
    ensures Eval(d, IfLetBlock(cs, thn, opt), s.(gen := g), fuel) == Tr(ts, g, want)
    ensures Plain(want)
  {
    var body := Flow(Break, IfLet, Some(thn));
    var chain := LetChain(cs, body, Block(NoLabel, [], true));
    var els := if opt.Some? then opt.value else Tuple([]);
    LetChainNotLet(cs, body, Block(NoLabel, [], true));
    IfLetSteps(d, chain, els, s.(gen := g), fuel);
    match r
    case CondAbort(_) =>
    case NoMatch(s1) => ElseValue(d, opt, Leave(s, s1).(gen := g), fuel);
    case Matched(s1) =>
      LeaveTr(ts, g, s, taken);
      TakenBranch(d, thn, s.(gen := g), s1.(gen := g), fuel);
  }

  lemma ElseValue(d: Ctx, opt: Option<Expr>, s: State, fuel: nat)
    ensures Eval(d, if opt.Some? then opt.value else Tuple([]), s, fuel) == EvalElse(d, opt, s, fuel)
  {
    if opt.None? {
      assert EvalList(d, [], s, fuel) == Vals([], s);
    }
  }

  /** `break '#iflet (body)` carries the value of the body out. */
  lemma TakenBranch(d: Ctx, thn: Expr, s: State, s1: State, fuel: nat)
    requires Grown(s, s1)
    requires var r := Eval(d, thn, s1, fuel); r.Done? && r.o.Broke? ==> !r.o.target.IfLet?
    ensures CatchBlock(IfLet, LeaveRes(s, Eval(d, Flow(Break, IfLet, Some(thn)), s1, fuel)))
         == LeaveRes(s, Eval(d, thn, s1, fuel))
    ensures var r := Eval(d, Flow(Break, IfLet, Some(thn)), s1, fuel); r.Done? ==> !r.o.Val?
  {
  }

  // ----- `while let`

  lemma BreakPassive(d: Ctx, lbl: Label, fuel: nat)
    ensures Passive(d, Flow(Break, lbl, None), Broke(lbl, UNIT), fuel)
  {
  }

  /** What one turn of a `while let` loop leads to. */
  function WhileTurn(c: Ctx, e: Expr, s: State, fuel: nat): Turn
    requires e.WhileLet?
  {
    match EvalConds(c, e.conds, s, fuel)
    case NoMatch(s1) => Exit(Done(Val(UNIT), Leave(s, s1)))
    case Matched(s1) => GoRound(e.lbl, LeaveRes(s, Eval(c, e.code, s1, fuel)))
    case CondAbort(r) => GoRound(e.lbl, LeaveRes(s, r))
  }

  lemma WhileTurnAgrees(c: Ctx, d: Ctx, e: Expr, code: Expr, t: Res, ts: seq<nat>, s: State, g: seq<Binding>, fuel: nat)
    requires e.WhileLet? && SourceLabel(e.lbl) && s.gen == []
    requires ChainSays(EvalConds(c, e.conds, s, fuel), t, BodyRes(d, EvalConds(c, e.conds, s, fuel), code, g, fuel),
                       Broke(e.lbl, UNIT), ts, s, g)
    requires
      EvalConds(c, e.conds, s, fuel).Matched? ==>
        Agree(c, d, e.code, code, ts, EvalConds(c, e.conds, s, fuel).s, g, fuel)
    ensures TurnAgrees(e.lbl, t, WhileTurn(c, e, s, fuel), ts, g)
  {
    match EvalConds(c, e.conds, s, fuel)
    case NoMatch(s1) =>
    case Matched(s1) =>
      LeaveTr(ts, g, s, Eval(c, e.code, s1, fuel));
      GoRoundTr(e.lbl, ts, g, LeaveRes(s, Eval(c, e.code, s1, fuel)));
    case CondAbort(r) => GoRoundTr(e.lbl, ts, g, LeaveRes(s, r));
  }

  lemma SimWhileTurn(c: Ctx, d: Ctx, e: Expr, ts: seq<nat>, n: nat, s: State, g: seq<Binding>, fuel: nat)
    requires Start(c, d, s) && Source(e) && e.WhileLet?
    ensures
      var l := LowerConds(e.conds, ts, n, c.legacy);
      var chain := LetChain(l.cs, Lower(e.code, ts, l.n, c.legacy).e, Flow(Break, e.lbl, None));
      TurnAgrees(e.lbl, Eval(d, chain, s.(gen := g), fuel), WhileTurn(c, e, s, fuel), ts, g)
    decreases fuel, e, 0
  {
    var l := LowerConds(e.conds, ts, n, c.legacy);
    var code := Lower(e.code, ts, l.n, c.legacy).e;
    var fail := Flow(Break, e.lbl, None);
    BreakPassive(d, e.lbl, fuel);
    SimChain(c, d, e.conds, code, fail, Broke(e.lbl, UNIT), ts, n, s, g, fuel);
    var r := EvalConds(c, e.conds, s, fuel);
    if r.Matched? {
      Sim(c, d, e.code, ts, l.n, r.s, g, fuel);
    }
    WhileTurnAgrees(c, d, e, code, Eval(d, LetChain(l.cs, code, fail), s.(gen := g), fuel), ts, s, g, fuel);
  }

  /** The generated loop body leads where the turn of the source loop leads. */
  ghost predicate TurnAgrees(lbl: Label, t: Res, turn: Turn, ts: seq<nat>, g: seq<Binding>) {
    && GoRound(lbl, t) == TrTurn(ts, g, turn)
    && (turn.Exit? ==> Plain(turn.r))
    && (turn.Again? ==> turn.s.gen == [])
  }

  lemma SimWhile(c: Ctx, d: Ctx, e: Expr, ts: seq<nat>, n: nat, s: State, g: seq<Binding>, fuel: nat)
    requires Start(c, d, s) && Source(e) && e.WhileLet?
    ensures WhileAgrees(c, d, e, WhileLoop(e, ts, n, c.legacy), ts, s, g, fuel)
    decreases fuel, e, 1
  {
    SimWhileTurn(c, d, e, ts, n, s, g, fuel);
    var turn := WhileTurn(c, e, s, fuel);
    if turn.Again? && fuel > 0 {
      SimWhile(c, d, e, ts, n, turn.s, g, fuel - 1);
    }
    WhileRound(c, d, e, WhileLoop(e, ts, n, c.legacy), ts, s, g, fuel);
  }

  function WhileLoop(e: Expr, ts: seq<nat>, n: nat, legacy: bool): (r: Expr)
    requires e.WhileLet?
    ensures r == Lower(e, ts, n, legacy).e
  {
    var l := LowerConds(e.conds, ts, n, legacy);
    Loop(e.lbl, LetChain(l.cs, Lower(e.code, ts, l.n, legacy).e, Flow(Break, e.lbl, None)))
  }

  ghost predicate WhileAgrees(c: Ctx, d: Ctx, e: Expr, low: Expr, ts: seq<nat>, s: State, g: seq<Binding>, fuel: nat)
    requires e.WhileLet? && low.Loop?
  {
    EvalLoop(d, low, s.(gen := g), fuel) == Tr(ts, g, EvalWhile(c, e, s, fuel)) && Plain(EvalWhile(c, e, s, fuel))
  }

  lemma WhileRound(c: Ctx, d: Ctx, e: Expr, low: Expr, ts: seq<nat>, s: State, g: seq<Binding>, fuel: nat)
    requires e.WhileLet? && low.Loop? && low.lbl == e.lbl
    requires TurnAgrees(e.lbl, Eval(d, low.code, s.(gen := g), fuel), WhileTurn(c, e, s, fuel), ts, g)
    requires
      var turn := WhileTurn(c, e, s, fuel);
      turn.Again? && fuel > 0 ==> WhileAgrees(c, d, e, low, ts, turn.s, g, fuel - 1)
    ensures WhileAgrees(c, d, e, low, ts, s, g, fuel)
  {
  }

  // ----- `try`, `?`

  lemma TrySteps(d: Ctx, k: nat, low: Expr, s: State, fuel: nat)
    ensures
      Eval(d, TryLoop(k, low, d.legacy), s, fuel) ==
      match Eval(d, low, s, fuel)
      case Done(Val(v), s1) => CallRes(d, OutputPath(d.legacy), [v], s1)
      case r =>
        match GoRound(Try(k), r)
        case Exit(r') => r'
        case Again(s1) => if fuel == 0 then Timeout else EvalLoop(d, TryLoop(k, low, d.legacy), s1, fuel - 1)
  {
    var f := OutputPath(d.legacy);
    SingleArg(d, f, low, s, fuel);
    var body := Flow(Break, Try(k), Some(CallPath(f, [low])));
    assert TryLoop(k, low, d.legacy) == Loop(Try(k), body);
    var r := Eval(d, low, s, fuel);
    if r.Done? && r.o.Val? {
      assert Eval(d, body, s, fuel) == Done(Broke(Try(k), CallRes(d, f, [r.o.v], r.s).o.v), CallRes(d, f, [r.o.v], r.s).s);
    } else {
      assert Eval(d, body, s, fuel) == r;
    }
  }

  lemma TryAgrees(c: Ctx, d: Ctx, e: Expr, low: Expr, k: nat, ts: seq<nat>, s: State, g: seq<Binding>, fuel: nat)
    requires e.TryBlock? && SameWorld(c, d) && Agree(c, d, e.inner, low, ts + [k], s, g, fuel)
    ensures Agree(c, d, e, TryLoop(k, low, c.legacy), ts, s, g, fuel)
  {
    TrySteps(d, k, low, s.(gen := g), fuel);
  }

  lemma SimTry(c: Ctx, d: Ctx, e: Expr, ts: seq<nat>, n: nat, s: State, g: seq<Binding>, fuel: nat)
    requires Start(c, d, s) && Source(e) && e.TryBlock?
    ensures Same(c, d, e, ts, n, s, g, fuel)
    decreases fuel, e, 1
  {
    Sim(c, d, e.inner, ts + [n], n + 1, s, g, fuel);
    TryAgrees(c, d, e, Lower(e.inner, ts + [n], n + 1, c.legacy).e, n, ts, s, g, fuel);
  }

  lemma QuestionAgrees(c: Ctx, d: Ctx, e: Expr, low: Expr, ts: seq<nat>, s: State, g: seq<Binding>, fuel: nat)
    requires e.QMark? && SameWorld(c, d) && Agree(c, d, e.inner, low, ts, s, g, fuel)
    ensures Agree(c, d, e, QuestionMatch(low, ts, c.legacy), ts, s, g, fuel)
  {
    QuestionSteps(d, low, ts, s.(gen := g), fuel);
  }

  lemma SimQMark(c: Ctx, d: Ctx, e: Expr, ts: seq<nat>, n: nat, s: State, g: seq<Binding>, fuel: nat)
    requires Start(c, d, s) && Source(e) && e.QMark?
    ensures Same(c, d, e, ts, n, s, g, fuel)
    decreases fuel, e, 1
  {
    Sim(c, d, e.inner, ts, n, s, g, fuel);
    QuestionAgrees(c, d, e, Lower(e.inner, ts, n, c.legacy).e, ts, s, g, fuel);
  }

  lemma MatchSteps(d: Ctx, val: Expr, arms: seq<Arm>, s: State, fuel: nat)
    ensures
      var r := Eval(d, val, s, fuel);
      Eval(d, Match(val, arms), s, fuel) == if r.Done? && r.o.Val? then EvalArms(d, arms, r.o.v, r.s, fuel) else r
  {
  }

  /** The generated match on `Try::branch` does what `?` does. */
  lemma QuestionSteps(d: Ctx, low: Expr, ts: seq<nat>, s: State, fuel: nat)
    ensures
      Eval(d, QuestionMatch(low, ts, d.legacy), s, fuel) ==
      match Eval(d, low, s, fuel)
      case Done(Val(v), s1) => Tr(ts, s1.gen, Question(d, v, s1))
      case r => r
  {
    var f := if d.legacy then "Try::into_result" else "Try::branch";
    var arms := QuestionMatch(Wildcard, ts, d.legacy).arms;
    assert QuestionMatch(low, ts, d.legacy) == Match(CallPath(f, [low]), arms);
    MatchSteps(d, CallPath(f, [low]), arms, s, fuel);
    SingleArg(d, f, low, s, fuel);
    var r := Eval(d, low, s, fuel);
    if r.Done? && r.o.Val? {
      var (b, s1) := CallHost(d, f, [r.o.v], r.s);
      QuestionArms(d, ts, b, s1, fuel);
    }
  }

  lemma QuestionArms(d: Ctx, ts: seq<nat>, b: Value, s: State, fuel: nat)
    ensures EvalArms(d, QuestionMatch(Wildcard, ts, d.legacy).arms, b, s, fuel) == Tr(ts, s.gen, Branched(d, b, s))
  {
    var arms := QuestionMatch(Wildcard, ts, d.legacy).arms;
    assert arms[1..] == [arms[1]] && [arms[1]][1..] == [];
    var good := if d.legacy then "Result::Ok" else "ControlFlow::Continue";
    var bad := if d.legacy then "Result::Err" else "ControlFlow::Break";
    assert arms[0].pat == PCon(good, [PBind(Gen("v"))]) && arms[1].pat == PCon(bad, [PBind(Gen("r"))]);
    assert EvalArms(d, [], b, s, fuel) == Stuck;
    OneBinding(good, Gen("v"), b);
    OneBinding(bad, Gen("r"), b);
    if b.Con? && |b.vs| == 1 {
      var x := b.vs[0];
      if b.path == good {
        BoundGen("v", x, s);
        assert EvalArms(d, arms, b, s, fuel) == LeaveRes(s, Eval(d, Var(Gen("v")), Bind([Binding(Gen("v"), x)], s), fuel));
      } else if b.path == bad {
        BoundGen("r", x, s);
        var s1 := Bind([Binding(Gen("r"), x)], s);
        assert EvalArms(d, arms, b, s, fuel) == EvalArms(d, [arms[1]], b, s, fuel);
        assert EvalArms(d, [arms[1]], b, s, fuel) == LeaveRes(s, Eval(d, arms[1].code, s1, fuel));
        assert Eval(d, Var(Gen("r")), s1, fuel) == Done(Val(x), s1);
        ResidualSteps(d, ts, x, s, s1, arms[1].code, fuel);
      } else {
        assert EvalArms(d, arms, b, s, fuel) == EvalArms(d, [arms[1]], b, s, fuel);
      }
    } else {
      assert EvalArms(d, arms, b, s, fuel) == EvalArms(d, [arms[1]], b, s, fuel);
    }
  }

  lemma OneBinding(path: string, x: Ident, v: Value)
    ensures MatchPat(PCon(path, [PBind(x)]), v) ==
      if v.Con? && v.path == path && |v.vs| == 1 then Some([Binding(x, v.vs[0])]) else None
  {
    if v.Con? && v.path == path && |v.vs| == 1 {
      var ps := [PBind(x)];
      assert ps[1..] == [] && v.vs[1..] == [];
      assert MatchAll(ps[1..], v.vs[1..]) == Some([]);
      assert MatchPat(ps[0], v.vs[0]) == Some([Binding(x, v.vs[0])]);
      assert [Binding(x, v.vs[0])] + [] == [Binding(x, v.vs[0])];
    }
  }

  /** A made-up binding is found, and is gone once its scope is left. */
  lemma BoundGen(name: string, x: Value, s: State)
    ensures
      var s1 := Bind([Binding(Gen(name), x)], s);
      s1 == s.(gen := s.gen + [Binding(Gen(name), x)]) && LookupIn(Gen(name), s1) == Some(x) && Leave(s, s1) == s
  {
    var b := Binding(Gen(name), x);
    assert [b][1..] == [];
    assert Bind([b], s) == Bind([], s.(gen := s.gen + [b]));
  }

  lemma ResidualSteps(d: Ctx, ts: seq<nat>, x: Value, s: State, s1: State, code: Expr, fuel: nat)
    requires Eval(d, Var(Gen("r")), s1, fuel) == Done(Val(x), s1)
    requires s1 == s.(gen := s.gen + [Binding(Gen("r"), x)])
    requires code == QuestionMatch(Wildcard, ts, d.legacy).arms[1].code
    ensures LeaveRes(s, Eval(d, code, s1, fuel)) == Tr(ts, s.gen, Residue(d, x, s))
  {
    var r := Var(Gen("r"));
    if d.legacy {
      SingleArg(d, "From::from", r, s1, fuel);
      SingleArg(d, "Try::from_error", CallPath("From::from", [r]), s1, fuel);
    } else {
      SingleArg(d, "FromResidual::from_residual", r, s1, fuel);
    }
    assert s1.gen[..|s.gen|] == s.gen;
  }

  // ----- `for`

  /** One turn of the generated loop: take the next item, and run the body on it or leave. */
  lemma ForTurn(d: Ctx, lbl: Label, pat: Pat, code: Expr, it: Value, s: State, g: seq<Binding>, fuel: nat)
    requires s.gen == g + [Binding(Gen("it"), it)]
    ensures
      var (item, it') := d.host.next(it, s.trace);
      var s1 := s.(gen := g + [Binding(Gen("it"), it')], trace := s.trace + [Next(it)]);
      Eval(d, ForBody(lbl, pat, code), s, fuel) ==
      match item
      case None => Done(Broke(lbl, UNIT), s1)
      case Some(v) =>
        match MatchPat(pat, v)
        case None => Stuck
        case Some(bs) => LeaveRes(s1, Eval(d, code, Bind(bs, s1), fuel))
  {
    var (item, it') := d.host.next(it, s.trace);
    var s1 := s.(gen := g + [Binding(Gen("it"), it')], trace := s.trace + [Next(it)]);
    assert s.gen[..|s.gen| - 1] == g;
    assert Eval(d, NextOf(Gen("it")), s, fuel) == Done(Val(OptionValue(item)), s1);
    var m := ForBody(lbl, pat, code);
    var arms := m.arms;
    var v := OptionValue(item);
    assert Eval(d, m, s, fuel) == EvalArms(d, arms, v, s1, fuel);
    assert arms[1..] == [arms[1]] && [arms[1]][1..] == [];
    if item.Some? {
      assert v.vs[1..] == [] && [pat][1..] == [];
      assert MatchAll([pat][1..], v.vs[1..]) == Some([]);
      if MatchPat(pat, v.vs[0]).Some? {
        assert MatchPat(pat, v.vs[0]).value + [] == MatchPat(pat, v.vs[0]).value;
        assert MatchPat(arms[0].pat, v) == MatchPat(pat, v.vs[0]);
      } else {
        assert MatchPat(arms[0].pat, v).None?;
        assert EvalArms(d, arms, v, s1, fuel) == EvalArms(d, [arms[1]], v, s1, fuel);
        assert "Option::None"[8] != "Option::Some"[8];
        assert EvalArms(d, [], v, s1, fuel) == Stuck;
      }
    } else {
      assert EvalArms(d, arms, v, s1, fuel) == EvalArms(d, [arms[1]], v, s1, fuel);
      assert MatchPat(arms[1].pat, v) == Some([]);
      assert Bind([], s1) == s1;
      assert Eval(d, arms[1].code, s1, fuel) == Done(Broke(lbl, UNIT), s1);
      assert EvalArms(d, [arms[1]], v, s1, fuel) == LeaveRes(s1, Eval(d, arms[1].code, s1, fuel));
      LeaveSame(s1, Done(Broke(lbl, UNIT), s1));
    }
  }

  /** The generated loop keeps the iterator in its made-up variable, where the body cannot reach it. */
  lemma SimForLoop(c: Ctx, d: Ctx, e: Expr, it: Value, ts: seq<nat>, n: nat, s: State, g: seq<Binding>, fuel: nat)
    requires Start(c, d, s) && Source(e) && e.For?
    ensures ForAgrees(c, d, e, Lower(e.code, ts, n, c.legacy).e, it, ts, s, g, fuel)
    decreases fuel, e, 0
  {
    var code := Lower(e.code, ts, n, c.legacy).e;
    var (item, it') := c.host.next(it, s.trace);
    var s1 := s.(trace := s.trace + [Next(it)]);
    if item.Some? && MatchPat(e.pat, item.value).Some? {
      var bs := MatchPat(e.pat, item.value).value;
      SimScope(c, d, e.code, bs, e.pat, item.value, ts, n, s1, g + [Binding(Gen("it"), it')], fuel);
      var turn := GoRound(e.lbl, LeaveRes(s1, Eval(c, e.code, Bind(bs, s1), fuel)));
      if turn.Again? && fuel > 0 {
        SimForLoop(c, d, e, it', ts, n, turn.s, g, fuel - 1);
      }
    }
    ForLoopAgrees(c, d, e, code, it, ts, s, g, fuel);
  }

  ghost predicate ForAgrees(c: Ctx, d: Ctx, e: Expr, code: Expr, it: Value, ts: seq<nat>, s: State, g: seq<Binding>, fuel: nat)
    requires e.For?
  {
    var t := EvalLoop(d, Loop(e.lbl, ForBody(e.lbl, e.pat, code)), s.(gen := g + [Binding(Gen("it"), it)]), fuel);
    && GrownRes(s.(gen := g), t)
    && LeaveRes(s.(gen := g), t) == Tr(ts, g, EvalFor(c, e, it, s, fuel))
    && Plain(EvalFor(c, e, it, s, fuel))
  }

  /** One turn of the generated loop, given that its body and the turns after it agree with the source. */
  lemma ForLoopAgrees(c: Ctx, d: Ctx, e: Expr, code: Expr, it: Value, ts: seq<nat>, s: State, g: seq<Binding>, fuel: nat)
    requires e.For? && SourceLabel(e.lbl) && SameWorld(c, d) && s.gen == []
    requires
      var (item, it') := c.host.next(it, s.trace);
      var g1 := g + [Binding(Gen("it"), it')];
      var s1 := s.(trace := s.trace + [Next(it)]);
      item.Some? && MatchPat(e.pat, item.value).Some? ==>
        var bs := MatchPat(e.pat, item.value).value;
        var r := LeaveRes(s1, Eval(c, e.code, Bind(bs, s1), fuel));
        var turn := GoRound(e.lbl, r);
        && LeaveRes(s1.(gen := g1), Eval(d, code, Bind(bs, s1.(gen := g1)), fuel)) == Tr(ts, g1, r)
        && Plain(r)
        && (turn.Again? && fuel > 0 ==> ForAgrees(c, d, e, code, it', ts, turn.s, g, fuel - 1))
    ensures ForAgrees(c, d, e, code, it, ts, s, g, fuel)
  {
    var (item, it') := c.host.next(it, s.trace);
    var g1 := g + [Binding(Gen("it"), it')];
    var s1 := s.(trace := s.trace + [Next(it)]);
    ForTurn(d, e.lbl, e.pat, code, it, s.(gen := g + [Binding(Gen("it"), it)]), g, fuel);
    assert g1[..|g|] == g;
    assert s.user[..|s.user|] == s.user;
    if item.Some? && MatchPat(e.pat, item.value).Some? {
      var r := LeaveRes(s1, Eval(c, e.code, Bind(MatchPat(e.pat, item.value).value, s1), fuel));
      GoRoundTr(e.lbl, ts, g1, r);
      if GoRound(e.lbl, r).Exit? {
        LeaveTrBelow(ts, g, g1, s, GoRound(e.lbl, r).r);
      }
    }
  }

  lemma LeaveTrBelow(ts: seq<nat>, g: seq<Binding>, g1: seq<Binding>, s: State, r: Res)
    requires SameShapeRes(s, r) && |g| <= |g1| && g1[..|g|] == g
    ensures LeaveRes(s.(gen := g), Tr(ts, g1, r)) == Tr(ts, g, r)
  {
    if r.Done? {
      assert r.s.user[..|s.user|] == r.s.user;
    }
  }

  /** The iterator is made once, outside of the generated loop. */
  lemma ForSteps(d: Ctx, lbl: Label, pat: Pat, iter: Expr, code: Expr, v: Value, s: State, s1: State, fuel: nat)
    requires Eval(d, iter, s, fuel) == Done(Val(v), s1)
    ensures
      var (it, s2) := CallHost(d, "IntoIterator::into_iter", [v], s1);
      var t := EvalLoop(d, Loop(lbl, ForBody(lbl, pat, code)), s2.(gen := s2.gen + [Binding(Gen("it"), it)]), fuel);
      GrownRes(s2, t) && Eval(d, ForLoop(lbl, pat, iter, code), s, fuel) == LeaveRes(s2, t)
  {
    var (it, s2) := CallHost(d, "IntoIterator::into_iter", [v], s1);
    var m := ForLoop(lbl, pat, iter, code);
    SingleArg(d, "IntoIterator::into_iter", iter, s, fuel);
    MatchSteps(d, m.val, m.arms, s, fuel);
    BoundGen("it", it, s2);
    var s3 := Bind([Binding(Gen("it"), it)], s2);
    assert EvalArms(d, m.arms, it, s2, fuel) == LeaveRes(s2, Eval(d, m.arms[0].code, s3, fuel));
    assert Eval(d, m.arms[0].code, s3, fuel) == EvalLoop(d, m.arms[0].code, s3, fuel);
  }

  lemma ForAborts(d: Ctx, lbl: Label, pat: Pat, iter: Expr, code: Expr, s: State, fuel: nat)
    requires !(Eval(d, iter, s, fuel).Done? && Eval(d, iter, s, fuel).o.Val?)
    ensures Eval(d, ForLoop(lbl, pat, iter, code), s, fuel) == Eval(d, iter, s, fuel)
  {
    SingleArg(d, "IntoIterator::into_iter", iter, s, fuel);
  }

  lemma SimFor(c: Ctx, d: Ctx, e: Expr, ts: seq<nat>, n: nat, s: State, g: seq<Binding>, fuel: nat)
    requires Start(c, d, s) && Source(e) && e.For?
    ensures Eval(d, Lower(e, ts, n, c.legacy).e, s.(gen := g), fuel) == Tr(ts, g, EvalForEntry(c, e, s, fuel))
    ensures Plain(EvalForEntry(c, e, s, fuel))
    decreases fuel, e, 1
  {
    var l := Lower(e.iter, ts, n, c.legacy);
    var k := Lower(e.code, ts, l.n, c.legacy);
    assert Lower(e, ts, n, c.legacy).e == ForLoop(e.lbl, e.pat, l.e, k.e);
    Sim(c, d, e.iter, ts, n, s, g, fuel);
    var r := Eval(c, e.iter, s, fuel);
    if r.Done? && r.o.Val? {
      var (it, s2) := CallHost(c, "IntoIterator::into_iter", [r.o.v], r.s);
      SimForLoop(c, d, e, it, ts, l.n, s2, g, fuel);
      ForSteps(d, e.lbl, e.pat, l.e, k.e, r.o.v, s.(gen := g), r.s.(gen := g), fuel);
    } else {
      ForAborts(d, e.lbl, e.pat, l.e, k.e, s.(gen := g), fuel);
    }
  }

  // ----- assignment

  lemma {:induction false} LowerListSplit(es: seq<Expr>, k: nat, ts: seq<nat>, n: nat, legacy: bool)
    requires k <= |es|
    ensures
      var a := LowerList(es[..k], ts, n, legacy);
      LowerList(es, ts, n, legacy).es == a.es + LowerList(es[k..], ts, a.n, legacy).es
    decreases k
  {
    if k == 0 {
      assert es[0..] == es;
    } else {
      var l := Lower(es[0], ts, n, legacy);
      LowerListSplit(es[1..], k - 1, ts, l.n, legacy);
      assert es[..k][0] == es[0] && es[..k][1..] == es[1..][..k - 1] && es[k..] == es[1..][k - 1..];
    }
  }

  lemma LowerKeepsRest(e: Expr, ts: seq<nat>, n: nat, legacy: bool)
    ensures Lower(e, ts, n, legacy).e.Rest? <==> e.Rest?
  {
  }

  lemma {:induction false} LowerRestAt(es: seq<Expr>, ts: seq<nat>, n: nat, legacy: bool)
    ensures RestAt(LowerList(es, ts, n, legacy).es) == RestAt(es)
    decreases es
  {
    if es != [] {
      LowerKeepsRest(es[0], ts, n, legacy);
      var l := Lower(es[0], ts, n, legacy);
      LowerRestAt(es[1..], ts, l.n, legacy);
      assert LowerList(es, ts, n, legacy).es[1..] == LowerList(es[1..], ts, l.n, legacy).es;
    }
  }

  /** Lowering the parts of an assignee changes neither what it is nor what it takes. */
  lemma {:induction false} LowerKeepsAssignee(e: Expr, ts: seq<nat>, n: nat, legacy: bool)
    ensures IsAssignee(Lower(e, ts, n, legacy).e) <==> IsAssignee(e)
    decreases e, 1
  {
    match e
    case Tuple(es) => LowerKeepsTuple(es, ts, n, legacy);
    case Array(es) => LowerKeepsAssignees(es, ts, n, legacy);
    case StructLit(_, fs) => LowerKeepsFieldAssignees(fs, ts, n, legacy);
    case StructLitPat(_, fs) => LowerKeepsFieldAssignees(fs, ts, n, legacy);
    case _ => LowerKeepsPlace(e, ts, n, legacy);
  }

  /** Neither a tuple, array or struct literal. */
  predicate IsAtom(e: Expr) {
    !e.Tuple? && !e.Array? && !e.StructLit? && !e.StructLitPat?
  }

  lemma LowerKeepsPlace(e: Expr, ts: seq<nat>, n: nat, legacy: bool)
    requires IsAtom(e)
    ensures var low := Lower(e, ts, n, legacy).e; IsAtom(low) && (IsPlace(low) <==> IsPlace(e)) && (low.Wildcard? <==> e.Wildcard?)
  {
  }

  lemma {:induction false} LowerKeepsTuple(es: seq<Expr>, ts: seq<nat>, n: nat, legacy: bool)
    ensures IsAssignee(Tuple(LowerList(es, ts, n, legacy).es)) <==> IsAssignee(Tuple(es))
    decreases es, 1
  {
    var k := RestAt(es);
    LowerRestAt(es, ts, n, legacy);
    if k == |es| {
      LowerKeepsAssignees(es, ts, n, legacy);
    } else {
      var b := LowerAround(es, k, ts, n, legacy);
      LowerKeepsAssignees(es[..k], ts, n, legacy);
      LowerKeepsAssignees(es[k + 1..], ts, b, legacy);
    }
  }

  /** The elements before and after position `k` are lowered on their own. */
  lemma LowerAround(es: seq<Expr>, k: nat, ts: seq<nat>, n: nat, legacy: bool) returns (b: nat)
    requires k < |es|
    ensures
      var low := LowerList(es, ts, n, legacy).es;
      && low[..k] == LowerList(es[..k], ts, n, legacy).es
      && low[k + 1..] == LowerList(es[k + 1..], ts, b, legacy).es
  {
    LowerListSplit(es, k, ts, n, legacy);
    var a := LowerList(es[..k], ts, n, legacy);
    b := Lower(es[k], ts, a.n, legacy).n;
    assert es[k..][0] == es[k] && es[k..][1..] == es[k + 1..];
    assert LowerList(es[k..], ts, a.n, legacy).es[1..] == LowerList(es[k + 1..], ts, b, legacy).es;
  }

  lemma {:induction false} LowerKeepsAssignees(es: seq<Expr>, ts: seq<nat>, n: nat, legacy: bool)
    ensures AreAssignees(LowerList(es, ts, n, legacy).es) <==> AreAssignees(es)
    decreases es, 0
  {
    if es != [] {
      LowerKeepsAssignee(es[0], ts, n, legacy);
      var l := Lower(es[0], ts, n, legacy);
      LowerKeepsAssignees(es[1..], ts, l.n, legacy);
      assert LowerList(es, ts, n, legacy).es[1..] == LowerList(es[1..], ts, l.n, legacy).es;
    }
  }

  lemma {:induction false} LowerKeepsFieldAssignees(fs: seq<FieldExpr>, ts: seq<nat>, n: nat, legacy: bool)
    ensures AreFieldAssignees(LowerFields(fs, ts, n, legacy).fs) <==> AreFieldAssignees(fs)
    decreases fs, 0
  {
    if fs != [] {
      LowerKeepsAssignee(fs[0].val, ts, n, legacy);
      var l := Lower(fs[0].val, ts, n, legacy);
      LowerKeepsFieldAssignees(fs[1..], ts, l.n, legacy);
      assert LowerFields(fs, ts, n, legacy).fs[1..] == LowerFields(fs[1..], ts, l.n, legacy).fs;
    }
  }

  lemma {:induction false} LowerKeepsFit(e: Expr, v: Value, ts: seq<nat>, n: nat, legacy: bool)
    ensures
      var low := Lower(e, ts, n, legacy).e;
      (Fits(low, v) <==> Fits(e, v)) && (Fits(e, v) ==> Flat(low, v) == Flat(e, v))
    decreases e, 1
  {
    match e
    case Tuple(es) =>
      if RestAt(es) == |es| {
        LowerKeepsWholeFit(es, v, ts, n, legacy);
      } else {
        LowerKeepsSplitFit(es, v, ts, n, legacy);
      }
    case Array(es) =>
      if v.Arr? && |v.vs| == |es| {
        LowerKeepsFits(es, v.vs, ts, n, legacy);
      }
    case StructLit(_, fs) => LowerKeepsStructFit(e, v, ts, n, legacy);
    case StructLitPat(_, fs) => LowerKeepsStructFit(e, v, ts, n, legacy);
    case _ => LowerKeepsPlace(e, ts, n, legacy);
  }

  lemma {:induction false} LowerKeepsStructFit(e: Expr, v: Value, ts: seq<nat>, n: nat, legacy: bool)
    requires e.StructLit? || e.StructLitPat?
    ensures
      var low := Lower(e, ts, n, legacy).e;
      (Fits(low, v) <==> Fits(e, v)) && (Fits(e, v) ==> Flat(low, v) == Flat(e, v))
    decreases e, 0
  {
    LowerKeepsNames(e.fs, ts, n, legacy);
    if v.Rec? {
      LowerKeepsFieldFits(e.fs, v.fs, ts, n, legacy);
    }
  }

  lemma {:induction false} LowerKeepsNames(fs: seq<FieldExpr>, ts: seq<nat>, n: nat, legacy: bool)
    ensures ExprNames(LowerFields(fs, ts, n, legacy).fs) == ExprNames(fs)
    decreases fs
  {
    var low := LowerFields(fs, ts, n, legacy).fs;
    if fs != [] {
      var l := Lower(fs[0].val, ts, n, legacy);
      assert low == [FieldExpr(fs[0].name, l.e)] + LowerFields(fs[1..], ts, l.n, legacy).fs;
      LowerKeepsNames(fs[1..], ts, l.n, legacy);
      forall i | 0 <= i < |fs| ensures low[i].name == fs[i].name {
        if i > 0 {
          assert ExprNames(low[1..])[i - 1] == ExprNames(fs[1..])[i - 1];
        }
      }
    }
  }

  lemma {:induction false} LowerKeepsWholeFit(es: seq<Expr>, v: Value, ts: seq<nat>, n: nat, legacy: bool)
    requires RestAt(es) == |es|
    ensures
      var low := Tuple(LowerList(es, ts, n, legacy).es);
      (Fits(low, v) <==> Fits(Tuple(es), v)) && (Fits(Tuple(es), v) ==> Flat(low, v) == Flat(Tuple(es), v))
    decreases es, 1
  {
    LowerRestAt(es, ts, n, legacy);
    if v.Tup? && |v.vs| == |es| {
      LowerKeepsFits(es, v.vs, ts, n, legacy);
    }
  }

  lemma {:induction false} LowerKeepsSplitFit(es: seq<Expr>, v: Value, ts: seq<nat>, n: nat, legacy: bool)
    requires RestAt(es) < |es|
    ensures
      var low := Tuple(LowerList(es, ts, n, legacy).es);
      (Fits(low, v) <==> Fits(Tuple(es), v)) && (Fits(Tuple(es), v) ==> Flat(low, v) == Flat(Tuple(es), v))
    decreases es, 1
  {
    var k := RestAt(es);
    LowerRestAt(es, ts, n, legacy);
    var b := LowerAround(es, k, ts, n, legacy);
    if v.Tup? && |v.vs| >= |es| - 1 {
      LowerKeepsFits(es[..k], v.vs[..k], ts, n, legacy);
      LowerKeepsFits(es[k + 1..], v.vs[|v.vs| - |es[k + 1..]|..], ts, b, legacy);
      SplitFits(es, k, v);
      SplitFits(LowerList(es, ts, n, legacy).es, k, v);
    }
  }

  lemma {:induction false} LowerKeepsFits(es: seq<Expr>, vs: seq<Value>, ts: seq<nat>, n: nat, legacy: bool)
    requires |es| == |vs|
    ensures
      var low := LowerList(es, ts, n, legacy).es;
      (AllFit(low, vs) <==> AllFit(es, vs)) && (AllFit(es, vs) ==> FlatAll(low, vs) == FlatAll(es, vs))
    decreases es, 0
  {
    if es != [] {
      LowerKeepsFit(es[0], vs[0], ts, n, legacy);
      var l := Lower(es[0], ts, n, legacy);
      LowerKeepsFits(es[1..], vs[1..], ts, l.n, legacy);
      var low := LowerList(es, ts, n, legacy).es;
      assert low[0] == l.e && low[1..] == LowerList(es[1..], ts, l.n, legacy).es;
    }
  }

  lemma {:induction false} LowerKeepsFieldFits(fs: seq<FieldExpr>, vs: seq<FieldValue>, ts: seq<nat>, n: nat, legacy: bool)
    ensures
      var low := LowerFields(fs, ts, n, legacy).fs;
      (FieldsFit(low, vs) <==> FieldsFit(fs, vs)) && (FieldsFit(fs, vs) ==> FlatFields(low, vs) == FlatFields(fs, vs))
    decreases fs, 0
  {
    if fs != [] {
      var l := Lower(fs[0].val, ts, n, legacy);
      if FieldOf(fs[0].name, vs).Some? {
        LowerKeepsFit(fs[0].val, FieldOf(fs[0].name, vs).value, ts, n, legacy);
      }
      LowerKeepsFieldFits(fs[1..], vs, ts, l.n, legacy);
      var low := LowerFields(fs, ts, n, legacy).fs;
      assert low[0] == FieldExpr(fs[0].name, l.e) && low[1..] == LowerFields(fs[1..], ts, l.n, legacy).fs;
    }
  }

  // Places

  function TrPlace(ts: seq<nat>, g: seq<Binding>, p: PlaceRes): PlaceRes {
    match p
    case Place(root, path, s) => Place(root, path, s.(gen := g))
    case PlaceAbort(r) => PlaceAbort(Tr(ts, g, r))
  }

  ghost predicate PlaceAgrees(c: Ctx, d: Ctx, e: Expr, low: Expr, ts: seq<nat>, s: State, g: seq<Binding>, fuel: nat) {
    var p := EvalPlace(c, e, s, fuel);
    && EvalPlace(d, low, s.(gen := g), fuel) == TrPlace(ts, g, p)
    && (p.PlaceAbort? ==> Plain(p.r))
    && (p.Place? && p.root.RVar? ==> p.root.x.User?)
  }

  lemma SimPlace(c: Ctx, d: Ctx, e: Expr, ts: seq<nat>, n: nat, s: State, g: seq<Binding>, fuel: nat)
    requires Start(c, d, s) && Source(e)
    ensures PlaceAgrees(c, d, e, Lower(e, ts, n, c.legacy).e, ts, s, g, fuel)
    decreases fuel, e, 1
  {
    match e
    case Field(obj, name) =>
      SimPlace(c, d, obj, ts, n, s, g, fuel);
      FieldPlaceAgrees(c, d, e, Lower(obj, ts, n, c.legacy).e, ts, s, g, fuel);
    case Index(obj, idx) =>
      var l := Lower(obj, ts, n, c.legacy);
      SimPlace(c, d, obj, ts, n, s, g, fuel);
      var p := EvalPlace(c, obj, s, fuel);
      if p.Place? {
        Sim(c, d, idx, ts, l.n, p.s, g, fuel);
      }
      IndexPlaceAgrees(c, d, e, l.e, Lower(idx, ts, l.n, c.legacy).e, ts, s, g, fuel);
    case Deref(obj) =>
      Sim(c, d, obj, ts, n, s, g, fuel);
      DerefPlaceAgrees(c, d, e, Lower(obj, ts, n, c.legacy).e, ts, s, g, fuel);
    case _ => OtherPlace(c, d, e, ts, n, s, g, fuel);
  }

  lemma FieldPlaceAgrees(c: Ctx, d: Ctx, e: Expr, obj: Expr, ts: seq<nat>, s: State, g: seq<Binding>, fuel: nat)
    requires e.Field? && PlaceAgrees(c, d, e.obj, obj, ts, s, g, fuel)
    ensures PlaceAgrees(c, d, e, Field(obj, e.name), ts, s, g, fuel)
  {
  }

  lemma IndexPlaceAgrees(c: Ctx, d: Ctx, e: Expr, obj: Expr, idx: Expr, ts: seq<nat>, s: State, g: seq<Binding>, fuel: nat)
    requires e.Index? && PlaceAgrees(c, d, e.obj, obj, ts, s, g, fuel)
    requires var p := EvalPlace(c, e.obj, s, fuel); p.Place? ==> Agree(c, d, e.idx, idx, ts, p.s, g, fuel)
    ensures PlaceAgrees(c, d, e, Index(obj, idx), ts, s, g, fuel)
  {
  }

  lemma DerefPlaceAgrees(c: Ctx, d: Ctx, e: Expr, obj: Expr, ts: seq<nat>, s: State, g: seq<Binding>, fuel: nat)
    requires e.Deref? && Agree(c, d, e.obj, obj, ts, s, g, fuel)
    ensures PlaceAgrees(c, d, e, Deref(obj), ts, s, g, fuel)
  {
  }

  lemma OtherPlace(c: Ctx, d: Ctx, e: Expr, ts: seq<nat>, n: nat, s: State, g: seq<Binding>, fuel: nat)
    requires Source(e) && !e.Field? && !e.Index? && !e.Deref?
    ensures PlaceAgrees(c, d, e, Lower(e, ts, n, c.legacy).e, ts, s, g, fuel)
  {
    var low := Lower(e, ts, n, c.legacy).e;
    if e.Var? {
      assert low == e;
    } else {
      if IsAtom(e) {
        LowerKeepsPlace(e, ts, n, c.legacy);
      }
      NotAPlace(d, low, s.(gen := g), fuel);
      NotAPlace(c, e, s, fuel);
    }
  }

  lemma NotAPlace(c: Ctx, e: Expr, s: State, fuel: nat)
    requires !IsPlace(e)
    ensures EvalPlace(c, e, s, fuel) == PlaceAbort(Stuck)
  {
  }

  /** Writing to a variable of the program, or through an address, does not touch the made-up bindings. */
  lemma WriteTr(c: Ctx, d: Ctx, root: Root, path: seq<Proj>, w: Value, ts: seq<nat>, s: State, g: seq<Binding>)
    requires SameWorld(c, d) && (root.RVar? ==> root.x.User?)
    ensures WritePlace(d, root, path, w, s.(gen := g)) == Tr(ts, g, WritePlace(c, root, path, w, s))
    ensures Plain(WritePlace(c, root, path, w, s))
  {
  }

  // Destructuring

  /** Every temporary holds its part of the value. */
  ghost predicate Covers(g: seq<Binding>, k: nat, vs: seq<Value>) {
    forall i :: 0 <= i < |vs| ==> Lookup(SlotName(k + i), g) == Some(vs[i])
  }

  lemma CoversSplit(g: seq<Binding>, k: nat, a: seq<Value>, b: seq<Value>)
    requires Covers(g, k, a + b)
    ensures Covers(g, k, a) && Covers(g, k + |a|, b)
  {
    forall i | 0 <= i < |a| ensures Lookup(SlotName(k + i), g) == Some(a[i]) {
      assert (a + b)[i] == a[i];
    }
    forall i | 0 <= i < |b| ensures Lookup(SlotName(k + |a| + i), g) == Some(b[i]) {
      assert (a + b)[|a| + i] == b[i];
    }
  }

  /** The temporaries of a pattern shadow whatever was bound before, and not each other. */
  lemma {:induction false} TempsCover(g: seq<Binding>, k: nat, vs: seq<Value>)
    ensures Covers(g + Temps(k, vs), k, vs)
    decreases |vs|
  {
    if vs != [] {
      var m := |vs| - 1;
      assert vs == vs[..m] + [vs[m]];
      TempsConcat(k, vs[..m], [vs[m]]);
      assert [vs[m]][1..] == [];
      assert Temps(k + m, [vs[m]]) == [Binding(SlotName(k + m), vs[m])];
      TempsCover(g, k, vs[..m]);
      var h := g + Temps(k, vs[..m]);
      var all := g + Temps(k, vs);
      assert all == h + [Binding(SlotName(k + m), vs[m])];
      assert all[..|all| - 1] == h;
      forall i | 0 <= i < |vs| ensures Lookup(SlotName(k + i), all) == Some(vs[i]) {
        if i < m {
          if SlotName(k + i) == SlotName(k + m) {
            TemporariesDistinct(k + i, k + m);
          }
          assert vs[..m][i] == vs[i];
        }
      }
    }
  }

  lemma {:induction false} StoresConcat(a: seq<Expr>, b: seq<Expr>, k: nat)
    ensures Stores(a + b, k) == Stores(a, k) + Stores(b, k + |a|)
    decreases a
  {
    if a == [] {
      assert a + b == b;
    } else {
      assert (a + b)[1..] == a[1..] + b;
      StoresConcat(a[1..], b, k + 1);
    }
  }

  lemma {:induction false} NodesConcat(d: Ctx, a: seq<Expr>, b: seq<Expr>, s: State, fuel: nat)
    ensures
      EvalNodes(d, a + b, false, s, fuel) ==
      match EvalNodes(d, a, false, s, fuel)
      case Done(Val(_), s1) => EvalNodes(d, b, false, s1, fuel)
      case r => r
    decreases a
  {
    if a == [] {
      assert a + b == b;
    } else {
      assert (a + b)[0] == a[0] && (a + b)[1..] == a[1..] + b;
      var r := EvalNode(d, a[0], s, fuel);
      if r.Done? && r.o.Val? {
        NodesConcat(d, a[1..], b, r.s, fuel);
        if |a| == 1 {
          assert a[1..] == [];
        }
      }
    }
  }

  /** The generated assignments do what storing into the assignee does. */
  ghost predicate StoresAgree(d: Ctx, places: seq<Expr>, k: nat, r: Res, ts: seq<nat>, s: State, g: seq<Binding>, fuel: nat) {
    && EvalNodes(d, Stores(places, k), false, s.(gen := g), fuel) == Tr(ts, g, r)
    && Plain(r)
    && (r.Done? ==> r.s.gen == [])
    && (r.Done? && r.o.Val? ==> r.o.v == UNIT)
  }

  lemma NothingToStore(d: Ctx, k: nat, ts: seq<nat>, s: State, g: seq<Binding>, fuel: nat)
    requires s.gen == []
    ensures StoresAgree(d, [], k, Done(Val(UNIT), s), ts, s, g, fuel)
  {
  }

  /** First one part, then the rest. */
  lemma StoresInTurn(d: Ctx, a: seq<Expr>, b: seq<Expr>, k: nat, ra: Res, rb: Res, ts: seq<nat>, s: State, g: seq<Binding>, fuel: nat)
    requires StoresAgree(d, a, k, ra, ts, s, g, fuel)
    requires ra.Done? && ra.o.Val? ==> StoresAgree(d, b, k + |a|, rb, ts, ra.s, g, fuel)
    ensures StoresAgree(d, a + b, k, if ra.Done? && ra.o.Val? then rb else ra, ts, s, g, fuel)
  {
    StoresConcat(a, b, k);
    NodesConcat(d, Stores(a, k), Stores(b, k + |a|), s.(gen := g), fuel);
  }

  /** Storing into an assignee agrees with the assignments generated for what it is lowered to. */
  ghost predicate Stored(c: Ctx, d: Ctx, e: Expr, low: Expr, v: Value, k: nat, ts: seq<nat>, s: State, g: seq<Binding>, fuel: nat)
    requires Fits(e, v)
  {
    var t := ToPat(low, k);
    && t.Some? && |t.value.places| == |Flat(e, v)|
    && StoresAgree(d, t.value.places, k, AssignTo(c, e, v, s, fuel), ts, s, g, fuel)
  }

  ghost predicate AllStored(c: Ctx, d: Ctx, es: seq<Expr>, low: seq<Expr>, vs: seq<Value>, k: nat, ts: seq<nat>, r: Res, g: seq<Binding>, fuel: nat)
    requires |es| == |vs| && AllFit(es, vs)
  {
    var t := ToPats(low, k);
    && t.Some? && |t.value.places| == |FlatAll(es, vs)|
    && (HasEnded(r) ==> StoresAgree(d, t.value.places, k, AssignAll(c, es, vs, r.s, fuel), ts, r.s, g, fuel))
  }

  ghost predicate FieldsStored(c: Ctx, d: Ctx, fs: seq<FieldExpr>, low: seq<FieldExpr>, vs: seq<FieldValue>, k: nat, ts: seq<nat>, r: Res, g: seq<Binding>, fuel: nat)
    requires FieldsFit(fs, vs)
  {
    var t := ToFieldPats(low, k);
    && t.Some? && |t.value.places| == |FlatFields(fs, vs)|
    && (HasEnded(r) ==> StoresAgree(d, t.value.places, k, AssignFields(c, fs, vs, r.s, fuel), ts, r.s, g, fuel))
  }

  /** Whether what came before ended with a value, so that what follows is run. */
  predicate HasEnded(r: Res) {
    r.Done? && r.o.Val?
  }

  lemma SimStore(c: Ctx, d: Ctx, e: Expr, v: Value, k: nat, ts: seq<nat>, n: nat, s: State, g: seq<Binding>, fuel: nat)
    requires Start(c, d, s) && Source(e) && IsAssignee(e) && Fits(e, v) && Covers(g, k, Flat(e, v))
    ensures Stored(c, d, e, Lower(e, ts, n, c.legacy).e, v, k, ts, s, g, fuel)
    decreases fuel, e, 4
  {
    if IsPlace(e) {
      LowerKeepsPlace(e, ts, n, c.legacy);
      SimPlace(c, d, e, ts, n, s, g, fuel);
      PlaceStored(c, d, e, Lower(e, ts, n, c.legacy).e, v, k, ts, s, g, fuel);
    }
    match e
    case Wildcard => WildcardStored(c, d, v, k, ts, s, g, fuel);
    case Tuple(es) => SimStoreTuple(c, d, e, v, k, ts, n, s, g, fuel);
    case Array(es) =>
      SimStores(c, d, es, v.vs, k, ts, n, Done(Val(UNIT), s), g, fuel);
      ArrayStored(c, d, e, LowerList(es, ts, n, c.legacy).es, v, k, ts, s, g, fuel);
    case StructLit(_, fs) =>
      SimStoreFields(c, d, fs, v.fs, k, ts, n, Done(Val(UNIT), s), g, fuel);
      StructStored(c, d, e, LowerFields(fs, ts, n, c.legacy).fs, v, k, ts, s, g, fuel);
    case StructLitPat(_, fs) =>
      SimStoreFields(c, d, fs, v.fs, k, ts, n, Done(Val(UNIT), s), g, fuel);
      StructStored(c, d, e, LowerFields(fs, ts, n, c.legacy).fs, v, k, ts, s, g, fuel);
    case _ =>
  }

  lemma WildcardStored(c: Ctx, d: Ctx, v: Value, k: nat, ts: seq<nat>, s: State, g: seq<Binding>, fuel: nat)
    requires s.gen == []
    ensures Stored(c, d, Wildcard, Wildcard, v, k, ts, s, g, fuel)
  {
    NothingToStore(d, k, ts, s, g, fuel);
  }

  lemma ArrayStored(c: Ctx, d: Ctx, e: Expr, low: seq<Expr>, v: Value, k: nat, ts: seq<nat>, s: State, g: seq<Binding>, fuel: nat)
    requires e.Array? && Fits(e, v) && AllStored(c, d, e.es, low, v.vs, k, ts, Done(Val(UNIT), s), g, fuel)
    ensures Stored(c, d, e, Array(low), v, k, ts, s, g, fuel)
  {
  }

  lemma StructStored(c: Ctx, d: Ctx, e: Expr, low: seq<FieldExpr>, v: Value, k: nat, ts: seq<nat>, s: State, g: seq<Binding>, fuel: nat)
    requires (e.StructLit? || e.StructLitPat?) && Fits(e, v)
    requires FieldsStored(c, d, e.fs, low, v.fs, k, ts, Done(Val(UNIT), s), g, fuel)
    ensures Stored(c, d, e, e.(fs := low), v, k, ts, s, g, fuel)
  {
  }

  lemma PlaceStored(c: Ctx, d: Ctx, e: Expr, low: Expr, v: Value, k: nat, ts: seq<nat>, s: State, g: seq<Binding>, fuel: nat)
    requires IsPlace(e) && IsPlace(low) && SameWorld(c, d) && s.gen == [] && Covers(g, k, Flat(e, v))
    requires PlaceAgrees(c, d, e, low, ts, s, g, fuel)
    ensures Stored(c, d, e, low, v, k, ts, s, g, fuel)
  {
    assert Flat(e, v)[0] == v && k + 0 == k;
    OneStore(c, d, e, low, v, k, ts, s, g, fuel);
  }

  lemma OneStore(c: Ctx, d: Ctx, e: Expr, low: Expr, v: Value, k: nat, ts: seq<nat>, s: State, g: seq<Binding>, fuel: nat)
    requires IsPlace(e) && IsPlace(low) && SameWorld(c, d) && s.gen == []
    requires PlaceAgrees(c, d, e, low, ts, s, g, fuel) && Lookup(SlotName(k), g) == Some(v)
    ensures StoresAgree(d, [low], k, AssignTo(c, e, v, s, fuel), ts, s, g, fuel)
  {
    PlaceAssigned(c, d, e, low, v, ts, s, g, fuel);
    StoreSteps(d, low, v, k, s.(gen := g), fuel);
  }

  lemma StoreSteps(d: Ctx, low: Expr, v: Value, k: nat, s: State, fuel: nat)
    requires IsPlace(low) && Lookup(SlotName(k), s.gen) == Some(v)
    ensures EvalNodes(d, Stores([low], k), false, s, fuel) == AssignTo(d, low, v, s, fuel)
  {
    var a := Assign(low, Var(SlotName(k)));
    assert [low][1..] == [];
    assert Stores([low], k) == [a];
    assert Eval(d, Var(SlotName(k)), s, fuel) == Done(Val(v), s);
    assert Eval(d, a, s, fuel) == AssignTo(d, low, v, s, fuel);
    assert EvalNode(d, a, s, fuel) == Eval(d, a, s, fuel);
  }

  lemma PlaceAssigned(c: Ctx, d: Ctx, e: Expr, low: Expr, v: Value, ts: seq<nat>, s: State, g: seq<Binding>, fuel: nat)
    requires IsPlace(e) && IsPlace(low) && SameWorld(c, d) && PlaceAgrees(c, d, e, low, ts, s, g, fuel)
    ensures AssignTo(d, low, v, s.(gen := g), fuel) == Tr(ts, g, AssignTo(c, e, v, s, fuel))
    ensures Plain(AssignTo(c, e, v, s, fuel))
  {
    var p := EvalPlace(c, e, s, fuel);
    if p.Place? {
      WriteTr(c, d, p.root, p.path, v, ts, p.s, g);
    }
  }

  lemma SimStores(c: Ctx, d: Ctx, es: seq<Expr>, vs: seq<Value>, k: nat, ts: seq<nat>, n: nat, r: Res, g: seq<Binding>, fuel: nat)
    requires Related(c, d) && (r.Done? ==> r.s.gen == []) && PartReady(es, vs, k, g)
    ensures AllStored(c, d, es, LowerList(es, ts, n, c.legacy).es, vs, k, ts, r, g, fuel)
    decreases fuel, es, 0
  {
    if es == [] {
      if HasEnded(r) {
        NothingToStore(d, k, ts, r.s, g, fuel);
      }
    } else {
      var l := Lower(es[0], ts, n, c.legacy);
      var s := if r.Done? then r.s else State([], [], []);
      HeadReady(es, vs, k, g);
      SimStore(c, d, es[0], vs[0], k, ts, n, s, g, fuel);
      SimStores(c, d, es[1..], vs[1..], k + |Flat(es[0], vs[0])|, ts, l.n, AssignTo(c, es[0], vs[0], s, fuel), g, fuel);
      StoresCons(c, d, es, l.e, LowerList(es[1..], ts, l.n, c.legacy).es, vs, k, ts, r, s, g, fuel);
    }
  }

  lemma HeadReady(es: seq<Expr>, vs: seq<Value>, k: nat, g: seq<Binding>)
    requires PartReady(es, vs, k, g) && es != []
    ensures Source(es[0]) && IsAssignee(es[0]) && Fits(es[0], vs[0]) && Covers(g, k, Flat(es[0], vs[0]))
    ensures PartReady(es[1..], vs[1..], k + |Flat(es[0], vs[0])|, g)
  {
    CoversSplit(g, k, Flat(es[0], vs[0]), FlatAll(es[1..], vs[1..]));
  }

  lemma StoresCons(c: Ctx, d: Ctx, es: seq<Expr>, head: Expr, tail: seq<Expr>, vs: seq<Value>, k: nat, ts: seq<nat>,
                   r: Res, s: State, g: seq<Binding>, fuel: nat)
    requires |es| == |vs| > 0 && AllFit(es, vs) && (r.Done? ==> s == r.s)
    requires Stored(c, d, es[0], head, vs[0], k, ts, s, g, fuel)
    requires AllStored(c, d, es[1..], tail, vs[1..], k + |Flat(es[0], vs[0])|, ts, AssignTo(c, es[0], vs[0], s, fuel), g, fuel)
    ensures AllStored(c, d, es, [head] + tail, vs, k, ts, r, g, fuel)
  {
    var low := [head] + tail;
    var ra := AssignTo(c, es[0], vs[0], s, fuel);
    var a := ToPat(head, k).value.places;
    var b := ToPats(tail, k + |a|).value.places;
    assert low[1..] == tail;
    assert ToPats(low, k).Some? && ToPats(low, k).value.places == a + b;
    assert FlatAll(es, vs) == Flat(es[0], vs[0]) + FlatAll(es[1..], vs[1..]);
    var rb := if HasEnded(ra) then AssignAll(c, es[1..], vs[1..], ra.s, fuel) else ra;
    assert AssignAll(c, es, vs, s, fuel) == rb;
    PairInTurn(d, a, b, k, ra, rb, |Flat(es[0], vs[0])|, ts, s, g, fuel);
  }

  /** Fields of an assignee of the program that take `vs`, with their temporaries in place. */
  ghost predicate FieldsReady(fs: seq<FieldExpr>, vs: seq<FieldValue>, k: nat, g: seq<Binding>) {
    SourceFields(fs) && AreFieldAssignees(fs) && FieldsFit(fs, vs) && Covers(g, k, FlatFields(fs, vs))
  }

  lemma SimStoreFields(c: Ctx, d: Ctx, fs: seq<FieldExpr>, vs: seq<FieldValue>, k: nat, ts: seq<nat>, n: nat, r: Res, g: seq<Binding>, fuel: nat)
    requires Related(c, d) && (r.Done? ==> r.s.gen == []) && FieldsReady(fs, vs, k, g)
    ensures FieldsStored(c, d, fs, LowerFields(fs, ts, n, c.legacy).fs, vs, k, ts, r, g, fuel)
    decreases fuel, fs, 0
  {
    if fs == [] {
      if HasEnded(r) {
        NothingToStore(d, k, ts, r.s, g, fuel);
      }
    } else {
      var l := Lower(fs[0].val, ts, n, c.legacy);
      var v := FieldOf(fs[0].name, vs).value;
      var s := if r.Done? then r.s else State([], [], []);
      FieldReady(fs, vs, k, g);
      SimStore(c, d, fs[0].val, v, k, ts, n, s, g, fuel);
      SimStoreFields(c, d, fs[1..], vs, k + |Flat(fs[0].val, v)|, ts, l.n, AssignTo(c, fs[0].val, v, s, fuel), g, fuel);
      FieldStoresCons(c, d, fs, l.e, LowerFields(fs[1..], ts, l.n, c.legacy).fs, vs, k, ts, r, s, g, fuel);
    }
  }

  lemma FieldReady(fs: seq<FieldExpr>, vs: seq<FieldValue>, k: nat, g: seq<Binding>)
    requires FieldsReady(fs, vs, k, g) && fs != []
    ensures
      var v := FieldOf(fs[0].name, vs).value;
      && Source(fs[0].val) && IsAssignee(fs[0].val) && Fits(fs[0].val, v) && Covers(g, k, Flat(fs[0].val, v))
      && FieldsReady(fs[1..], vs, k + |Flat(fs[0].val, v)|, g)
  {
    CoversSplit(g, k, Flat(fs[0].val, FieldOf(fs[0].name, vs).value), FlatFields(fs[1..], vs));
  }

  lemma FieldStoresCons(c: Ctx, d: Ctx, fs: seq<FieldExpr>, head: Expr, tail: seq<FieldExpr>, vs: seq<FieldValue>, k: nat, ts: seq<nat>,
                        r: Res, s: State, g: seq<Binding>, fuel: nat)
    requires fs != [] && FieldsFit(fs, vs) && (r.Done? ==> s == r.s)
    requires Stored(c, d, fs[0].val, head, FieldOf(fs[0].name, vs).value, k, ts, s, g, fuel)
    requires
      var v := FieldOf(fs[0].name, vs).value;
      FieldsStored(c, d, fs[1..], tail, vs, k + |Flat(fs[0].val, v)|, ts, AssignTo(c, fs[0].val, v, s, fuel), g, fuel)
    ensures FieldsStored(c, d, fs, [FieldExpr(fs[0].name, head)] + tail, vs, k, ts, r, g, fuel)
  {
    var low := [FieldExpr(fs[0].name, head)] + tail;
    var v := FieldOf(fs[0].name, vs).value;
    var ra := AssignTo(c, fs[0].val, v, s, fuel);
    var a := ToPat(head, k).value.places;
    var b := ToFieldPats(tail, k + |a|).value.places;
    assert low[1..] == tail;
    assert ToFieldPats(low, k).Some? && ToFieldPats(low, k).value.places == a + b;
    assert FlatFields(fs, vs) == Flat(fs[0].val, v) + FlatFields(fs[1..], vs);
    var rb := if HasEnded(ra) then AssignFields(c, fs[1..], vs, ra.s, fuel) else ra;
    assert AssignFields(c, fs, vs, s, fuel) == rb;
    StoresInTurn(d, a, b, k, ra, rb, ts, s, g, fuel);
  }

  lemma SimStoreTuple(c: Ctx, d: Ctx, e: Expr, v: Value, k: nat, ts: seq<nat>, n: nat, s: State, g: seq<Binding>, fuel: nat)
    requires Start(c, d, s) && Source(e) && e.Tuple? && IsAssignee(e) && Fits(e, v) && Covers(g, k, Flat(e, v))
    ensures Stored(c, d, e, Lower(e, ts, n, c.legacy).e, v, k, ts, s, g, fuel)
    decreases fuel, e, 3
  {
    if RestAt(e.es) == |e.es| {
      SimStoreWhole(c, d, e, v, k, ts, n, s, g, fuel);
    } else {
      PartsReady(e.es, RestAt(e.es), v, k, g);
      SimStoreSplit(c, d, e, v, k, ts, n, s, g, fuel);
    }
  }

  lemma SimStoreWhole(c: Ctx, d: Ctx, e: Expr, v: Value, k: nat, ts: seq<nat>, n: nat, s: State, g: seq<Binding>, fuel: nat)
    requires Start(c, d, s) && e.Tuple? && RestAt(e.es) == |e.es| && Fits(e, v) && PartReady(e.es, v.vs, k, g)
    ensures Stored(c, d, e, Tuple(LowerList(e.es, ts, n, c.legacy).es), v, k, ts, s, g, fuel)
    decreases fuel, e, 2
  {
    var low := LowerList(e.es, ts, n, c.legacy).es;
    SimStores(c, d, e.es, v.vs, k, ts, n, Done(Val(UNIT), s), g, fuel);
    LowerRestAt(e.es, ts, n, c.legacy);
    WholeTupleStored(c, d, e, low, v, k, ts, s, g, fuel);
  }

  lemma SimStoreSplit(c: Ctx, d: Ctx, e: Expr, v: Value, k: nat, ts: seq<nat>, n: nat, s: State, g: seq<Binding>, fuel: nat)
    requires Start(c, d, s) && e.Tuple? && RestAt(e.es) < |e.es| && Fits(e, v)
    requires
      var r := RestAt(e.es);
      var before, after := e.es[..r], e.es[r + 1..];
      PartReady(before, v.vs[..r], k, g) && PartReady(after, v.vs[|v.vs| - |after|..], k + |FlatAll(before, v.vs[..r])|, g)
    ensures Stored(c, d, e, Tuple(LowerList(e.es, ts, n, c.legacy).es), v, k, ts, s, g, fuel)
    decreases fuel, e, 2
  {
    var r := RestAt(e.es);
    var vs, ws := v.vs[..r], v.vs[|v.vs| - |e.es[r + 1..]|..];
    var places := SimSplitPlaces(c, d, e.es, r, vs, ws, k, ts, n, s, g, fuel);
    LowerRestAt(e.es, ts, n, c.legacy);
    SplitTupleStored(c, d, e, r, LowerList(e.es, ts, n, c.legacy).es, places, vs, ws, v, k, ts, s, g, fuel);
  }

  lemma SplitMeaning(c: Ctx, e: Expr, v: Value, s: State, fuel: nat)
    requires e.Tuple? && RestAt(e.es) < |e.es| && Fits(e, v)
    ensures
      var r := RestAt(e.es);
      var before, after := e.es[..r], e.es[r + 1..];
      var vs, ws := v.vs[..r], v.vs[|v.vs| - |after|..];
      && |Flat(e, v)| == |FlatAll(before, vs)| + |FlatAll(after, ws)|
      && AssignTo(c, e, v, s, fuel) == AssignBoth(c, before, after, vs, ws, s, fuel)
  {
    SplitFits(e.es, RestAt(e.es), v);
    SplitAssign(c, e, v, s, fuel);
  }

  lemma SimSplitPlaces(c: Ctx, d: Ctx, es: seq<Expr>, r: nat, vs: seq<Value>, ws: seq<Value>, k: nat, ts: seq<nat>, n: nat,
                       s: State, g: seq<Binding>, fuel: nat)
    returns (places: seq<Expr>)
    requires Start(c, d, s) && r < |es|
    requires PartReady(es[..r], vs, k, g) && PartReady(es[r + 1..], ws, k + |FlatAll(es[..r], vs)|, g)
    ensures
      var low := LowerList(es, ts, n, c.legacy).es;
      BothPlaces(low[..r], low[r + 1..], k) == Some(places)
    ensures |places| == |FlatAll(es[..r], vs)| + |FlatAll(es[r + 1..], ws)|
    ensures StoresAgree(d, places, k, AssignBoth(c, es[..r], es[r + 1..], vs, ws, s, fuel), ts, s, g, fuel)
    decreases fuel, es, 3
  {
    var m := LowerAround(es, r, ts, n, c.legacy);
    places := SimParts(c, d, es, es[..r], es[r + 1..], vs, ws, k, ts, n, m, s, g, fuel);
  }

  lemma SimParts(c: Ctx, d: Ctx, es: seq<Expr>, before: seq<Expr>, after: seq<Expr>, vs: seq<Value>, ws: seq<Value>, k: nat,
                 ts: seq<nat>, n: nat, m: nat, s: State, g: seq<Binding>, fuel: nat)
    returns (places: seq<Expr>)
    requires |before| < |es| && before == es[..|before|] && after == es[|before| + 1..]
    requires Start(c, d, s) && PartReady(before, vs, k, g) && PartReady(after, ws, k + |FlatAll(before, vs)|, g)
    ensures BothPlaces(LowerList(before, ts, n, c.legacy).es, LowerList(after, ts, m, c.legacy).es, k) == Some(places)
    ensures |places| == |FlatAll(before, vs)| + |FlatAll(after, ws)|
    ensures StoresAgree(d, places, k, AssignBoth(c, before, after, vs, ws, s, fuel), ts, s, g, fuel)
    decreases fuel, es, 2
  {
    var lowBefore, lowAfter := LowerList(before, ts, n, c.legacy).es, LowerList(after, ts, m, c.legacy).es;
    SimStoreParts(c, d, es, before, after, vs, ws, k, ts, n, m, s, g, fuel);
    PartsInTurn(c, d, before, after, lowBefore, lowAfter, vs, ws, k, ts, s, g, fuel);
    PartsPlaces(c, d, before, after, lowBefore, lowAfter, vs, ws, k, ts, s, g, fuel);
    places := BothPlaces(lowBefore, lowAfter, k).value;
  }

  /** The two sides of a `..` are stored one after the other. */
  ghost predicate PartsStored(c: Ctx, d: Ctx, before: seq<Expr>, after: seq<Expr>, lowBefore: seq<Expr>, lowAfter: seq<Expr>,
                              vs: seq<Value>, ws: seq<Value>, k: nat, ts: seq<nat>, s: State, g: seq<Binding>, fuel: nat)
    requires |before| == |vs| && AllFit(before, vs) && |after| == |ws| && AllFit(after, ws)
  {
    && AllStored(c, d, before, lowBefore, vs, k, ts, Done(Val(UNIT), s), g, fuel)
    && AllStored(c, d, after, lowAfter, ws, k + |FlatAll(before, vs)|, ts, AssignAll(c, before, vs, s, fuel), g, fuel)
  }

  function AssignBoth(c: Ctx, before: seq<Expr>, after: seq<Expr>, vs: seq<Value>, ws: seq<Value>, s: State, fuel: nat): Res
    requires |before| == |vs| && AllFit(before, vs) && |after| == |ws| && AllFit(after, ws)
  {
    var ra := AssignAll(c, before, vs, s, fuel);
    if HasEnded(ra) then AssignAll(c, after, ws, ra.s, fuel) else ra
  }

  lemma SimStoreParts(c: Ctx, d: Ctx, es: seq<Expr>, before: seq<Expr>, after: seq<Expr>, vs: seq<Value>, ws: seq<Value>, k: nat,
                      ts: seq<nat>, n: nat, m: nat, s: State, g: seq<Binding>, fuel: nat)
    requires |before| < |es| && before == es[..|before|] && after == es[|before| + 1..]
    requires Start(c, d, s) && PartReady(before, vs, k, g) && PartReady(after, ws, k + |FlatAll(before, vs)|, g)
    ensures PartsStored(c, d, before, after, LowerList(before, ts, n, c.legacy).es, LowerList(after, ts, m, c.legacy).es,
                        vs, ws, k, ts, s, g, fuel)
    decreases fuel, es, 1
  {
    SimStores(c, d, before, vs, k, ts, n, Done(Val(UNIT), s), g, fuel);
    AssignKeepsUser(c, before, vs, s, fuel);
    SimStores(c, d, after, ws, k + |FlatAll(before, vs)|, ts, m, AssignAll(c, before, vs, s, fuel), g, fuel);
  }

  lemma AssignKeepsUser(c: Ctx, es: seq<Expr>, vs: seq<Value>, s: State, fuel: nat)
    requires |es| == |vs| && AllFit(es, vs) && s.gen == []
    ensures var r := AssignAll(c, es, vs, s, fuel); r.Done? ==> r.s.gen == []
  {
  }

  /** An assignee list of the program that takes `vs`, with its temporaries in place. */
  ghost predicate PartReady(es: seq<Expr>, vs: seq<Value>, k: nat, g: seq<Binding>) {
    Sources(es) && AreAssignees(es) && |es| == |vs| && AllFit(es, vs) && Covers(g, k, FlatAll(es, vs))
  }

  /** Each side of a `..` is an assignee list on its own, with temporaries of its own. */
  lemma PartsReady(es: seq<Expr>, r: nat, v: Value, k: nat, g: seq<Binding>)
    requires r == RestAt(es) < |es| && Sources(es) && IsAssignee(Tuple(es))
    requires Fits(Tuple(es), v) && Covers(g, k, Flat(Tuple(es), v))
    ensures
      var before, after := es[..r], es[r + 1..];
      var vs, ws := v.vs[..r], v.vs[|v.vs| - |after|..];
      && PartReady(before, vs, k, g)
      && PartReady(after, ws, k + |FlatAll(before, vs)|, g)
  {
    var before, after := es[..r], es[r + 1..];
    SourcesSplit(es, r);
    SplitFits(es, r, v);
    CoversSplit(g, k, FlatAll(before, v.vs[..r]), FlatAll(after, v.vs[|v.vs| - |after|..]));
  }

  lemma WholeTupleStored(c: Ctx, d: Ctx, e: Expr, low: seq<Expr>, v: Value, k: nat, ts: seq<nat>, s: State, g: seq<Binding>, fuel: nat)
    requires e.Tuple? && RestAt(e.es) == |e.es| == RestAt(low) == |low| && Fits(e, v)
    requires AllStored(c, d, e.es, low, v.vs, k, ts, Done(Val(UNIT), s), g, fuel)
    ensures Stored(c, d, e, Tuple(low), v, k, ts, s, g, fuel)
  {
  }

  lemma SplitTupleStored(c: Ctx, d: Ctx, e: Expr, r: nat, low: seq<Expr>, places: seq<Expr>, vs: seq<Value>, ws: seq<Value>,
                         v: Value, k: nat, ts: seq<nat>, s: State, g: seq<Binding>, fuel: nat)
    requires e.Tuple? && RestAt(e.es) == RestAt(low) == r < |e.es| == |low| && Fits(e, v)
    requires vs == v.vs[..r] && ws == v.vs[|v.vs| - |e.es[r + 1..]|..] && AllFit(e.es[..r], vs) && AllFit(e.es[r + 1..], ws)
    requires BothPlaces(low[..r], low[r + 1..], k) == Some(places)
    requires |places| == |FlatAll(e.es[..r], vs)| + |FlatAll(e.es[r + 1..], ws)|
    requires StoresAgree(d, places, k, AssignBoth(c, e.es[..r], e.es[r + 1..], vs, ws, s, fuel), ts, s, g, fuel)
    ensures Stored(c, d, e, Tuple(low), v, k, ts, s, g, fuel)
  {
    SplitMeaning(c, e, v, s, fuel);
    PlacesStored(c, d, e, low, places, v, k, ts, s, g, fuel);
  }

  lemma PlacesStored(c: Ctx, d: Ctx, e: Expr, low: seq<Expr>, places: seq<Expr>, v: Value, k: nat, ts: seq<nat>, s: State, g: seq<Binding>, fuel: nat)
    requires e.Tuple? && RestAt(low) < |low| && Fits(e, v) && |places| == |Flat(e, v)|
    requires BothPlaces(low[..RestAt(low)], low[RestAt(low) + 1..], k) == Some(places)
    requires StoresAgree(d, places, k, AssignTo(c, e, v, s, fuel), ts, s, g, fuel)
    ensures Stored(c, d, e, Tuple(low), v, k, ts, s, g, fuel)
  {
    SplitPlaces(low, k);
  }

  /** The places on both sides of a `..`. */
  function BothPlaces(before: seq<Expr>, after: seq<Expr>, k: nat): Option<seq<Expr>> {
    match ToPats(before, k)
    case None => None
    case Some(a) => match ToPats(after, k + |a.places|) case None => None case Some(b) => Some(a.places + b.places)
  }

  lemma PartsInTurn(c: Ctx, d: Ctx, before: seq<Expr>, after: seq<Expr>, lowBefore: seq<Expr>, lowAfter: seq<Expr>,
                    vs: seq<Value>, ws: seq<Value>, k: nat, ts: seq<nat>, s: State, g: seq<Binding>, fuel: nat)
    requires |before| == |vs| && AllFit(before, vs) && |after| == |ws| && AllFit(after, ws)
    requires PartsStored(c, d, before, after, lowBefore, lowAfter, vs, ws, k, ts, s, g, fuel)
    ensures
      var a := ToPats(lowBefore, k).value.places;
      StoresAgree(d, a + ToPats(lowAfter, k + |a|).value.places, k, AssignBoth(c, before, after, vs, ws, s, fuel), ts, s, g, fuel)
  {
    var ra := AssignAll(c, before, vs, s, fuel);
    var count := |FlatAll(before, vs)|;
    var a := StoredPlaces(c, d, before, lowBefore, vs, k, ts, Done(Val(UNIT), s), g, fuel);
    var b := StoredPlaces(c, d, after, lowAfter, ws, k + count, ts, ra, g, fuel);
    PairInTurn(d, a, b, k, ra, AssignBoth(c, before, after, vs, ws, s, fuel), count, ts, s, g, fuel);
  }

  lemma StoredPlaces(c: Ctx, d: Ctx, es: seq<Expr>, low: seq<Expr>, vs: seq<Value>, k: nat, ts: seq<nat>, r: Res, g: seq<Binding>, fuel: nat)
    returns (places: seq<Expr>)
    requires |es| == |vs| && AllFit(es, vs) && AllStored(c, d, es, low, vs, k, ts, r, g, fuel)
    ensures ToPats(low, k).Some? && places == ToPats(low, k).value.places && |places| == |FlatAll(es, vs)|
    ensures HasEnded(r) ==> StoresAgree(d, places, k, AssignAll(c, es, vs, r.s, fuel), ts, r.s, g, fuel)
  {
    places := ToPats(low, k).value.places;
  }

  lemma PairInTurn(d: Ctx, a: seq<Expr>, b: seq<Expr>, k: nat, ra: Res, rb: Res, count: nat, ts: seq<nat>, s: State, g: seq<Binding>, fuel: nat)
    requires StoresAgree(d, a, k, ra, ts, s, g, fuel) && count == |a|
    requires if HasEnded(ra) then StoresAgree(d, b, k + count, rb, ts, ra.s, g, fuel) else rb == ra
    ensures StoresAgree(d, a + b, k, rb, ts, s, g, fuel)
  {
    StoresInTurn(d, a, b, k, ra, rb, ts, s, g, fuel);
  }

  lemma PartsPlaces(c: Ctx, d: Ctx, before: seq<Expr>, after: seq<Expr>, lowBefore: seq<Expr>, lowAfter: seq<Expr>,
                    vs: seq<Value>, ws: seq<Value>, k: nat, ts: seq<nat>, s: State, g: seq<Binding>, fuel: nat)
    requires |before| == |vs| && AllFit(before, vs) && |after| == |ws| && AllFit(after, ws)
    requires PartsStored(c, d, before, after, lowBefore, lowAfter, vs, ws, k, ts, s, g, fuel)
    ensures
      var a := ToPats(lowBefore, k).value.places;
      BothPlaces(lowBefore, lowAfter, k) == Some(a + ToPats(lowAfter, k + |a|).value.places)
    ensures |BothPlaces(lowBefore, lowAfter, k).value| == |FlatAll(before, vs)| + |FlatAll(after, ws)|
  {
  }

  lemma SplitPlaces(low: seq<Expr>, k: nat)
    requires RestAt(low) < |low| && BothPlaces(low[..RestAt(low)], low[RestAt(low) + 1..], k).Some?
    ensures ToPat(Tuple(low), k).Some?
    ensures ToPat(Tuple(low), k).value.places == BothPlaces(low[..RestAt(low)], low[RestAt(low) + 1..], k).value
  {
  }

  lemma SplitAssign(c: Ctx, e: Expr, v: Value, s: State, fuel: nat)
    requires e.Tuple? && RestAt(e.es) < |e.es| && Fits(e, v)
    ensures
      var r := RestAt(e.es);
      var after := e.es[r + 1..];
      AssignTo(c, e, v, s, fuel) == AssignBoth(c, e.es[..r], after, v.vs[..r], v.vs[|v.vs| - |after|..], s, fuel)
  {
  }

  lemma {:induction false} SourcesSplit(es: seq<Expr>, r: nat)
    requires r < |es| && Sources(es)
    ensures Sources(es[..r]) && Sources(es[r + 1..])
    decreases r
  {
    if r > 0 {
      SourcesSplit(es[1..], r - 1);
      assert es[1..][..r - 1] == es[..r][1..] && es[1..][r..] == es[r + 1..];
    }
  }

  /** `{ let pat = value; place = temporary; ... }` */
  lemma DestructuringSteps(d: Ctx, t: Taken, val: Expr, s: State, fuel: nat)
    ensures
      Eval(d, Block(NoLabel, [Let(t.pat, val)] + Stores(t.places, 0), false), s, fuel) ==
      match Eval(d, val, s, fuel)
      case Done(Val(v), s1) =>
        (match MatchPat(t.pat, v)
         case None => Stuck
         case Some(bs) => LeaveRes(s1, EvalNodes(d, Stores(t.places, 0), false, Bind(bs, s1), fuel)))
      case r => r
  {
    var nodes := [Let(t.pat, val)] + Stores(t.places, 0);
    assert nodes[1..] == Stores(t.places, 0);
    var r := Eval(d, val, s, fuel);
    LeaveSame(s, r);
    if r.Done? && r.o.Val? && MatchPat(t.pat, r.o.v).Some? {
      var s1 := Bind(MatchPat(t.pat, r.o.v).value, r.s);
      assert EvalNode(d, nodes[0], s, fuel) == Done(Val(UNIT), s1);
      assert EvalNodes(d, nodes, false, s, fuel) == EvalNodes(d, Stores(t.places, 0), false, s1, fuel);
    } else {
      assert EvalNodes(d, nodes, false, s, fuel) == EvalNode(d, nodes[0], s, fuel);
    }
  }

  lemma {:induction false} TempsMadeUp(k: nat, vs: seq<Value>)
    ensures forall i :: 0 <= i < |vs| ==> Temps(k, vs)[i].name.Gen?
    decreases vs
  {
    if vs != [] {
      TempsMadeUp(k + 1, vs[1..]);
    }
  }

  lemma {:induction false} BindMadeUp(bs: seq<Binding>, s: State)
    requires forall i :: 0 <= i < |bs| ==> bs[i].name.Gen?
    ensures Bind(bs, s) == s.(gen := s.gen + bs)
    decreases bs
  {
    if bs == [] {
      assert s.gen + bs == s.gen;
    } else {
      BindMadeUp(bs[1..], s.(gen := s.gen + [bs[0]]));
      assert s.gen + [bs[0]] + bs[1..] == s.gen + bs;
    }
  }

  lemma SimAssign(c: Ctx, d: Ctx, e: Expr, ts: seq<nat>, n: nat, s: State, g: seq<Binding>, fuel: nat)
    requires Start(c, d, s) && Source(e) && e.Assign?
    ensures Same(c, d, e, ts, n, s, g, fuel)
    decreases fuel, e, 1
  {
    var l := Lower(e.slot, ts, n, c.legacy);
    var k := Lower(e.val, ts, l.n, c.legacy);
    Sim(c, d, e.val, ts, l.n, s, g, fuel);
    LowerKeepsAssignee(e.slot, ts, n, c.legacy);
    AssigneesAreTaken(l.e, 0);
    if HasValue(c, e.val, s, fuel) {
      var r := Eval(c, e.val, s, fuel);
      LowerKeepsFit(e.slot, r.o.v, ts, n, c.legacy);
      if IsAssignee(e.slot) {
        PatternTakes(l.e, 0, r.o.v);
        if Fits(e.slot, r.o.v) {
          if IsPlace(e.slot) {
            SimPlace(c, d, e.slot, ts, n, r.s, g, fuel);
          } else {
            var vs := Flat(e.slot, r.o.v);
            TempsCover(g, 0, vs);
            SimStore(c, d, e.slot, r.o.v, 0, ts, n, r.s, g + Temps(0, vs), fuel);
          }
        }
      }
    }
    LowerKeepsSinglePlace(e.slot, ts, n, c.legacy);
    AssignAgrees(c, d, e, l.e, k.e, ts, s, g, fuel);
  }

  lemma LowerKeepsSinglePlace(e: Expr, ts: seq<nat>, n: nat, legacy: bool)
    ensures IsPlace(Lower(e, ts, n, legacy).e) <==> IsPlace(e)
  {
    if IsAtom(e) {
      LowerKeepsPlace(e, ts, n, legacy);
    }
  }

  /** An assignment whose parts agree, whichever way it is lowered. */
  lemma AssignAgrees(c: Ctx, d: Ctx, e: Expr, slot: Expr, val: Expr, ts: seq<nat>, s: State, g: seq<Binding>, fuel: nat)
    requires e.Assign? && SameWorld(c, d) && s.gen == [] && Agree(c, d, e.val, val, ts, s, g, fuel)
    requires IsPlace(slot) <==> IsPlace(e.slot)
    requires ToPat(slot, 0).Some? <==> IsAssignee(e.slot)
    requires IsAssignee(slot) <==> IsAssignee(e.slot)
    requires HasValue(c, e.val, s, fuel) && IsAssignee(e.slot) ==> var r := Eval(c, e.val, s, fuel); SlotAgrees(c, d, e.slot, slot, r.o.v, ts, r.s, g, fuel)
    ensures Agree(c, d, e, LowerAssign(slot, val), ts, s, g, fuel)
  {
    var t := ToPat(slot, 0);
    if t.None? {
      BadAssignAgrees(c, d, e, slot, val, ts, s, g, fuel);
    } else if IsPlace(slot) {
      PlaceAssignAgrees(c, d, e, slot, val, ts, s, g, fuel);
    } else {
      DestructuringAgrees(c, d, e, slot, val, t.value, ts, s, g, fuel);
    }
  }

  /** To something that cannot be assigned to. */
  lemma BadAssignAgrees(c: Ctx, d: Ctx, e: Expr, slot: Expr, val: Expr, ts: seq<nat>, s: State, g: seq<Binding>, fuel: nat)
    requires e.Assign? && Agree(c, d, e.val, val, ts, s, g, fuel) && !IsAssignee(slot) && !IsAssignee(e.slot)
    ensures Agree(c, d, e, Assign(slot, val), ts, s, g, fuel)
  {
  }

  /** To a single place. */
  lemma PlaceAssignAgrees(c: Ctx, d: Ctx, e: Expr, slot: Expr, val: Expr, ts: seq<nat>, s: State, g: seq<Binding>, fuel: nat)
    requires e.Assign? && SameWorld(c, d) && Agree(c, d, e.val, val, ts, s, g, fuel) && IsPlace(slot) && IsPlace(e.slot)
    requires HasValue(c, e.val, s, fuel) ==> PlaceAgrees(c, d, e.slot, slot, ts, Eval(c, e.val, s, fuel).s, g, fuel)
    ensures Agree(c, d, e, Assign(slot, val), ts, s, g, fuel)
  {
    var r := Eval(c, e.val, s, fuel);
    AssignPlace(c, e, s, fuel);
    AssignPlace(d, Assign(slot, val), s.(gen := g), fuel);
    if HasValue(c, e.val, s, fuel) {
      PlaceAssigned(c, d, e.slot, slot, r.o.v, ts, r.s, g, fuel);
    }
  }

  lemma AssignPlace(c: Ctx, e: Expr, s: State, fuel: nat)
    requires e.Assign? && IsPlace(e.slot)
    ensures var r := Eval(c, e.val, s, fuel); Eval(c, e, s, fuel) == if HasEnded(r) then AssignTo(c, e.slot, r.o.v, r.s, fuel) else r
  {
  }

  lemma DestructuringAgrees(c: Ctx, d: Ctx, e: Expr, slot: Expr, val: Expr, t: Taken, ts: seq<nat>, s: State, g: seq<Binding>, fuel: nat)
    requires e.Assign? && IsAssignee(e.slot) && !IsPlace(e.slot) && s.gen == [] && Agree(c, d, e.val, val, ts, s, g, fuel)
    requires ToPat(slot, 0) == Some(t)
    requires HasValue(c, e.val, s, fuel) ==> var r := Eval(c, e.val, s, fuel); SlotAgrees(c, d, e.slot, slot, r.o.v, ts, r.s, g, fuel)
    ensures Agree(c, d, e, Block(NoLabel, [Let(t.pat, val)] + Stores(t.places, 0), false), ts, s, g, fuel)
  {
    DestructuringSteps(d, t, val, s.(gen := g), fuel);
    AssignSteps(c, e, s, fuel);
    var r := Eval(c, e.val, s, fuel);
    if HasValue(c, e.val, s, fuel) && Fits(e.slot, r.o.v) {
      StoredAgrees(c, d, e.slot, slot, r.o.v, t, ts, r.s, g, fuel);
    }
  }

  lemma AssignSteps(c: Ctx, e: Expr, s: State, fuel: nat)
    requires e.Assign? && IsAssignee(e.slot) && !IsPlace(e.slot)
    ensures
      var r := Eval(c, e.val, s, fuel);
      Eval(c, e, s, fuel) == if !HasEnded(r) then r else if Fits(e.slot, r.o.v) then AssignTo(c, e.slot, r.o.v, r.s, fuel) else Stuck
  {
  }

  lemma StoredAgrees(c: Ctx, d: Ctx, e: Expr, slot: Expr, v: Value, t: Taken, ts: seq<nat>, s: State, g: seq<Binding>, fuel: nat)
    requires !IsPlace(e) && Fits(e, v) && s.gen == [] && ToPat(slot, 0) == Some(t) && SlotAgrees(c, d, e, slot, v, ts, s, g, fuel)
    ensures
      var stores := EvalNodes(d, Stores(t.places, 0), false, Bind(Temps(0, Flat(e, v)), s.(gen := g)), fuel);
      && MatchPat(t.pat, v) == Some(Temps(0, Flat(e, v)))
      && LeaveRes(s.(gen := g), stores) == Tr(ts, g, AssignTo(c, e, v, s, fuel))
      && Plain(AssignTo(c, e, v, s, fuel))
  {
    var vs := Flat(e, v);
    TempsMadeUp(0, vs);
    BindMadeUp(Temps(0, vs), s.(gen := g));
    var g1 := g + Temps(0, vs);
    assert g1[..|g|] == g;
    LeaveTrBelow(ts, g, g1, s, AssignTo(c, e, v, s, fuel));
  }

  /** Storing a given value agrees: directly for a place, by way of the temporaries for the rest. */
  ghost predicate SlotAgrees(c: Ctx, d: Ctx, e: Expr, slot: Expr, v: Value, ts: seq<nat>, s: State, g: seq<Binding>, fuel: nat)
    requires ToPat(slot, 0).Some?
  {
    var t := ToPat(slot, 0).value;
    && MatchPat(t.pat, v) == (if Fits(e, v) then Some(Temps(0, Flat(e, v))) else None)
    && (IsPlace(e) ==> PlaceAgrees(c, d, e, slot, ts, s, g, fuel))
    && (!IsPlace(e) && Fits(e, v) ==>
          StoresAgree(d, t.places, 0, AssignTo(c, e, v, s, fuel), ts, s, g + Temps(0, Flat(e, v)), fuel))
  }

  lemma Sim(c: Ctx, d: Ctx, e: Expr, ts: seq<nat>, n: nat, s: State, g: seq<Binding>, fuel: nat)
    requires Start(c, d, s) && Source(e)
    ensures Same(c, d, e, ts, n, s, g, fuel)
    decreases fuel, e, 3
  {
    match e
    case Tuple(_) => SimElements(c, d, e, ts, n, s, g, fuel);
    case Array(_) => SimElements(c, d, e, ts, n, s, g, fuel);
    case StructLit(_, _) => SimStruct(c, d, e, ts, n, s, g, fuel);
    case StructLitPat(_, _) => SimStruct(c, d, e, ts, n, s, g, fuel);
    case CallPath(_, _) => SimCallPath(c, d, e, ts, n, s, g, fuel);
    case Field(_, _) => SimField(c, d, e, ts, n, s, g, fuel);
    case Index(_, _) => SimIndex(c, d, e, ts, n, s, g, fuel);
    case Deref(_) => SimDeref(c, d, e, ts, n, s, g, fuel);
    case CallObject(_, _) => SimCall(c, d, e, ts, n, s, g, fuel);
    case Block(_, _, _) => SimBlock(c, d, e, ts, n, s, g, fuel);
    case Flow(_, _, _) => SimFlow(c, d, e, ts, n, s, g, fuel);
    case Assign(_, _) => SimAssign(c, d, e, ts, n, s, g, fuel);
    case Match(_, _) => SimMatch(c, d, e, ts, n, s, g, fuel);
    case If(_, _, _) => SimIf(c, d, e, ts, n, s, g, fuel);
    case TryBlock(_) => SimTry(c, d, e, ts, n, s, g, fuel);
    case QMark(_) => SimQMark(c, d, e, ts, n, s, g, fuel);
    case Loop(_, _) => SimLoops(c, d, e, ts, n, s, g, fuel);
    case For(_, _, _, _) => SimLoops(c, d, e, ts, n, s, g, fuel);
    case WhileLet(_, _, _) => SimLoops(c, d, e, ts, n, s, g, fuel);
    case IfLetChain(_, _, _) => SimLoops(c, d, e, ts, n, s, g, fuel);
    case _ => SimLeaf(c, d, e, ts, n, s, g, fuel);
  }

  lemma SimLoops(c: Ctx, d: Ctx, e: Expr, ts: seq<nat>, n: nat, s: State, g: seq<Binding>, fuel: nat)
    requires Start(c, d, s) && Source(e)
    requires e.Loop? || e.For? || e.WhileLet? || e.IfLetChain?
    ensures Same(c, d, e, ts, n, s, g, fuel)
    decreases fuel, e, 2
  {
    if e.Loop? {
      SimLoop(c, d, e, ts, n, s, g, fuel);
    } else if e.For? {
      SimFor(c, d, e, ts, n, s, g, fuel);
    } else if e.WhileLet? {
      SimWhile(c, d, e, ts, n, s, g, fuel);
    } else {
      SimIfLet(c, d, e, ts, n, s, g, fuel);
    }
  }
}
