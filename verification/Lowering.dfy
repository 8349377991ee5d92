/** What the expansion pass makes of an expression: the sugar is rewritten into
    `match`, `if`, `loop`, labelled blocks and `break`. */
module Lowering {
  import opened Ast
  import opened Wrappers
  import opened Semantics
  import Decimal

  datatype Low = Low(e: Expr, n: nat)
  datatype Lows = Lows(es: seq<Expr>, n: nat)
  datatype LowFields = LowFields(fs: seq<FieldExpr>, n: nat)
  datatype LowConds = LowConds(cs: seq<Cond>, n: nat)
  datatype LowArms = LowArms(arms: seq<Arm>, n: nat)
  datatype LowOpt = LowOpt(opt: Option<Expr>, n: nat)

  /** `ts` are the numbers of the `try` blocks around the expression, up to the function or closure that
      it is in, and `n` is the number that the next `try` block gets. */
  function Lower(e: Expr, ts: seq<nat>, n: nat, legacy: bool): Low
    decreases e, 1
  {
    match e
    case Lit(_) => Low(e, n)
    case Var(_) => Low(e, n)
    case Wildcard => Low(e, n)
    case Rest => Low(e, n)
    case NextOf(_) => Low(e, n)
    case Tuple(es) => var l := LowerList(es, ts, n, legacy); Low(Tuple(l.es), l.n)
    case Array(es) => var l := LowerList(es, ts, n, legacy); Low(Array(l.es), l.n)
    case StructLit(path, fs) => var l := LowerFields(fs, ts, n, legacy); Low(StructLit(path, l.fs), l.n)
    case StructLitPat(path, fs) => var l := LowerFields(fs, ts, n, legacy); Low(StructLitPat(path, l.fs), l.n)
    case Field(obj, name) => var l := Lower(obj, ts, n, legacy); Low(Field(l.e, name), l.n)
    case Index(obj, idx) =>
      var l := Lower(obj, ts, n, legacy);
      var k := Lower(idx, ts, l.n, legacy);
      Low(Index(l.e, k.e), k.n)
    case Deref(obj) => var l := Lower(obj, ts, n, legacy); Low(Deref(l.e), l.n)
    case CallPath(f, args) => var l := LowerList(args, ts, n, legacy); Low(CallPath(f, l.es), l.n)
    case CallObject(callee, args) =>
      var l := Lower(callee, ts, n, legacy);
      var k := LowerList(args, ts, l.n, legacy);
      Low(CallObject(l.e, k.es), k.n)
    case Closure(id, params, code) => var l := Lower(code, [], n, legacy); Low(Closure(id, params, l.e), l.n)
    case Block(lbl, nodes, keep) => var l := LowerList(nodes, ts, n, legacy); Low(Block(lbl, l.es, keep), l.n)
    case Let(pat, val) => var l := Lower(val, ts, n, legacy); Low(Let(pat, l.e), l.n)
    case Assign(slot, val) =>
      var l := Lower(slot, ts, n, legacy);
      var k := Lower(val, ts, l.n, legacy);
      Low(LowerAssign(l.e, k.e), k.n)
    case Flow(kind, target, opt) =>
      var l := LowerOpt(opt, ts, n, legacy);
      Low(if kind.Yeet? then LowerYeet(ts, l.opt) else Flow(kind, target, l.opt), l.n)
    case Loop(lbl, code) => var l := Lower(code, ts, n, legacy); Low(Loop(lbl, l.e), l.n)
    case For(lbl, pat, iter, code) =>
      var l := Lower(iter, ts, n, legacy);
      var k := Lower(code, ts, l.n, legacy);
      Low(ForLoop(lbl, pat, l.e, k.e), k.n)
    case WhileLet(lbl, conds, code) =>
      var l := LowerConds(conds, ts, n, legacy);
      var k := Lower(code, ts, l.n, legacy);
      Low(Loop(lbl, LetChain(l.cs, k.e, Flow(Break, lbl, None))), k.n)
    case Match(val, arms) =>
      var l := Lower(val, ts, n, legacy);
      var k := LowerArms(arms, ts, l.n, legacy);
      Low(Match(l.e, k.arms), k.n)
    case If(cond, thn, els) =>
      var l := Lower(cond, ts, n, legacy);
      var k := Lower(thn, ts, l.n, legacy);
      var m := LowerOpt(els, ts, k.n, legacy);
      Low(If(l.e, k.e, m.opt), m.n)
    case IfLetChain(conds, thn, els) =>
      var l := LowerConds(conds, ts, n, legacy);
      var k := Lower(thn, ts, l.n, legacy);
      var m := LowerOpt(els, ts, k.n, legacy);
      Low(IfLetBlock(l.cs, k.e, m.opt), m.n)
    case TryBlock(inner) =>
      var l := Lower(inner, ts + [n], n + 1, legacy);
      Low(TryLoop(n, l.e, legacy), l.n)
    case QMark(inner) =>
      var l := Lower(inner, ts, n, legacy);
      Low(QuestionMatch(l.e, ts, legacy), l.n)
  }

  function LowerList(es: seq<Expr>, ts: seq<nat>, n: nat, legacy: bool): (r: Lows)
    ensures |r.es| == |es|
    decreases es, 0
  {
    if es == [] then Lows([], n)
    else
      var l := Lower(es[0], ts, n, legacy);
      var k := LowerList(es[1..], ts, l.n, legacy);
      Lows([l.e] + k.es, k.n)
  }

  function LowerFields(fs: seq<FieldExpr>, ts: seq<nat>, n: nat, legacy: bool): (r: LowFields)
    ensures |r.fs| == |fs|
    decreases fs, 0
  {
    if fs == [] then LowFields([], n)
    else
      var l := Lower(fs[0].val, ts, n, legacy);
      var k := LowerFields(fs[1..], ts, l.n, legacy);
      LowFields([FieldExpr(fs[0].name, l.e)] + k.fs, k.n)
  }

  function LowerConds(cs: seq<Cond>, ts: seq<nat>, n: nat, legacy: bool): (r: LowConds)
    ensures |r.cs| == |cs|
    decreases cs, 0
  {
    if cs == [] then LowConds([], n)
    else
      assert cs[0].val < cs[0];
      var l := Lower(cs[0].val, ts, n, legacy);
      var k := LowerConds(cs[1..], ts, l.n, legacy);
      LowConds([Cond(cs[0].pat, l.e)] + k.cs, k.n)
  }

  function LowerArms(arms: seq<Arm>, ts: seq<nat>, n: nat, legacy: bool): (r: LowArms)
    ensures |r.arms| == |arms|
    decreases arms, 0
  {
    if arms == [] then LowArms([], n)
    else
      assert arms[0].code < arms[0];
      var l := Lower(arms[0].code, ts, n, legacy);
      var k := LowerArms(arms[1..], ts, l.n, legacy);
      LowArms([Arm(arms[0].pat, l.e)] + k.arms, k.n)
  }

  function LowerOpt(opt: Option<Expr>, ts: seq<nat>, n: nat, legacy: bool): LowOpt
    decreases opt, 0
  {
    match opt
    case None => LowOpt(None, n)
    case Some(e) => var l := Lower(e, ts, n, legacy); LowOpt(Some(l.e), l.n)
  }

  // ----- what each kind of sugar becomes

  /** Leaving with a residual: out of the innermost `try` block, or out of the function. */
  function LeaveWith(ts: seq<nat>, v: Expr): Expr {
    if ts == [] then Flow(Return, NoLabel, Some(v)) else Flow(Break, Try(ts[|ts| - 1]), Some(v))
  }

  function LowerYeet(ts: seq<nat>, opt: Option<Expr>): Expr {
    LeaveWith(ts, CallPath("FromResidual::from_residual",
                           [CallPath("ops::Yeet", [if opt.Some? then opt.value else Lit(UNIT)])]))
  }

  function QuestionMatch(e: Expr, ts: seq<nat>, legacy: bool): Expr {
    if legacy then
      Match(CallPath("Try::into_result", [e]),
            [Arm(PCon("Result::Ok", [PBind(Gen("v"))]), Var(Gen("v"))),
             Arm(PCon("Result::Err", [PBind(Gen("r"))]),
                 LeaveWith(ts, CallPath("Try::from_error", [CallPath("From::from", [Var(Gen("r"))])])))])
    else
      Match(CallPath("Try::branch", [e]),
            [Arm(PCon("ControlFlow::Continue", [PBind(Gen("v"))]), Var(Gen("v"))),
             Arm(PCon("ControlFlow::Break", [PBind(Gen("r"))]),
                 LeaveWith(ts, CallPath("FromResidual::from_residual", [Var(Gen("r"))])))])
  }

  function OutputPath(legacy: bool): string {
    if legacy then "Result::Ok" else "Try::from_output"
  }

  function TryLoop(k: nat, inner: Expr, legacy: bool): Expr {
    Loop(Try(k), Flow(Break, Try(k), Some(CallPath(OutputPath(legacy), [inner]))))
  }

  function ForBody(lbl: Label, pat: Pat, code: Expr): Expr {
    Match(NextOf(Gen("it")),
          [Arm(PCon("Option::Some", [pat]), code),
           Arm(PCon("Option::None", []), Flow(Break, lbl, None))])
  }

  function ForLoop(lbl: Label, pat: Pat, iter: Expr, code: Expr): Expr {
    Match(CallPath("IntoIterator::into_iter", [iter]),
          [Arm(PBind(Gen("it")), Loop(lbl, ForBody(lbl, pat, code)))])
  }

  /** One condition: where to go on when it holds, and what to do when it fails. */
  function ChainLevel(cond: Cond, rest: Expr, fail: Expr): Expr {
    match cond.pat
    case Some(p) => Match(cond.val, [Arm(p, rest), Arm(PAny, fail)])
    case None => If(cond.val, rest, Some(fail))
  }

  /** A chain of conditions around a body, each with its own copy of what to do when it fails. */
  function LetChain(cs: seq<Cond>, body: Expr, fail: Expr): Expr {
    if cs == [] then body else ChainLevel(cs[0], LetChain(cs[1..], body, fail), fail)
  }

  function IfLetBlock(cs: seq<Cond>, thn: Expr, els: Option<Expr>): Expr {
    Block(IfLet,
          [LetChain(cs, Flow(Break, IfLet, Some(thn)), Block(NoLabel, [], true)),
           if els.Some? then els.value else Tuple([])],
          true)
  }

  // ----- destructuring assignment

  function SlotName(k: nat): Ident {
    Gen("_#" + Decimal.Render(k))
  }

  /** A pattern for an assignee whose places are numbered from `k` on, and the places themselves. */
  datatype Taken = Taken(pat: Pat, places: seq<Expr>)
  datatype TakenAll = TakenAll(pats: seq<Pat>, places: seq<Expr>)
  datatype TakenFields = TakenFields(pats: seq<FieldPat>, places: seq<Expr>)

  function ToPat(e: Expr, k: nat): Option<Taken>
    decreases e
  {
    match e
    case Wildcard => Some(Taken(PAny, []))
    case Tuple(es) =>
      var r := RestAt(es);
      if r == |es| then
        (match ToPats(es, k) case None => None case Some(t) => Some(Taken(PTuple(t.pats, false, []), t.places)))
      else
        (match ToPats(es[..r], k)
         case None => None
         case Some(a) =>
           match ToPats(es[r + 1..], k + |a.places|)
           case None => None
           case Some(b) => Some(Taken(PTuple(a.pats, true, b.pats), a.places + b.places)))
    case Array(es) =>
      (match ToPats(es, k) case None => None case Some(t) => Some(Taken(PSlice(t.pats), t.places)))
    case StructLit(path, fs) =>
      (match ToFieldPats(fs, k) case None => None case Some(t) => Some(Taken(PStruct(path, t.pats, true), t.places)))
    case StructLitPat(path, fs) =>
      (match ToFieldPats(fs, k) case None => None case Some(t) => Some(Taken(PStruct(path, t.pats, false), t.places)))
    case _ => if IsPlace(e) then Some(Taken(PBind(SlotName(k)), [e])) else None
  }

  function ToPats(es: seq<Expr>, k: nat): (r: Option<TakenAll>)
    ensures r.Some? ==> |r.value.pats| == |es|
    decreases es
  {
    if es == [] then Some(TakenAll([], []))
    else
      match ToPat(es[0], k)
      case None => None
      case Some(a) =>
        match ToPats(es[1..], k + |a.places|)
        case None => None
        case Some(b) => Some(TakenAll([a.pat] + b.pats, a.places + b.places))
  }

  function ToFieldPats(fs: seq<FieldExpr>, k: nat): (r: Option<TakenFields>)
    ensures r.Some? ==> |r.value.pats| == |fs|
    ensures r.Some? ==> forall i :: 0 <= i < |fs| ==> r.value.pats[i].name == fs[i].name
    decreases fs
  {
    if fs == [] then Some(TakenFields([], []))
    else
      match ToPat(fs[0].val, k)
      case None => None
      case Some(a) =>
        match ToFieldPats(fs[1..], k + |a.places|)
        case None => None
        case Some(b) => Some(TakenFields([FieldPat(fs[0].name, a.pat)] + b.pats, a.places + b.places))
  }

  /** `place0 = _#k; place1 = _#(k+1); ...` */
  function Stores(places: seq<Expr>, k: nat): (r: seq<Expr>)
    ensures |r| == |places|
    decreases places
  {
    if places == [] then [] else [Assign(places[0], Var(SlotName(k)))] + Stores(places[1..], k + 1)
  }

  /** An assignment whose left side is a single place, or cannot be assigned to, stays as it is. */
  function LowerAssign(slot: Expr, val: Expr): Expr {
    match ToPat(slot, 0)
    case None => Assign(slot, val)
    case Some(t) =>
      if t.pat.PBind? then Assign(slot, val)
      else Block(NoLabel, [Let(t.pat, val)] + Stores(t.places, 0), false)
  }
}
