/** Which programs the expansion pass refuses. */
module Refusal {
  import opened Ast
  import opened Wrappers
  import opened Semantics
  import opened Expander

  /** The expressions that an expression is directly made of. */
  ghost function Parts(e: Expr): (r: seq<Expr>)
    ensures forall i :: 0 <= i < |r| ==> r[i] < e
  {
    match e
    case Tuple(es) => es
    case Array(es) => es
    case StructLit(_, fs) => seq(|fs|, i requires 0 <= i < |fs| => fs[i].val)
    case StructLitPat(_, fs) => seq(|fs|, i requires 0 <= i < |fs| => fs[i].val)
    case Field(obj, _) => [obj]
    case Index(obj, idx) => [obj, idx]
    case Deref(obj) => [obj]
    case CallPath(_, args) => args
    case CallObject(callee, args) => [callee] + args
    case Closure(_, _, code) => [code]
    case Block(_, nodes, _) => nodes
    case Let(_, val) => [val]
    case Assign(slot, val) => [slot, val]
    case Flow(_, _, opt) => Given(opt)
    case Loop(_, code) => [code]
    case For(_, _, iter, code) => [iter, code]
    case WhileLet(_, conds, code) => seq(|conds|, i requires 0 <= i < |conds| => conds[i].val) + [code]
    case Match(val, arms) => [val] + seq(|arms|, i requires 0 <= i < |arms| => arms[i].code)
    case If(cond, thn, els) => [cond, thn] + Given(els)
    case IfLetChain(conds, thn, els) => seq(|conds|, i requires 0 <= i < |conds| => conds[i].val) + ([thn] + Given(els))
    case TryBlock(inner) => [inner]
    case QMark(inner) => [inner]
    case _ => []
  }

  function Given(opt: Option<Expr>): seq<Expr> {
    if opt.Some? then [opt.value] else []
  }

  /** The expression at the end of a way down: at each turn, the number of the part to go on with. */
  ghost function Down(e: Expr, way: seq<nat>): Option<Expr>
    decreases way
  {
    if way == [] then Some(e)
    else if way[0] < |Parts(e)| then Down(Parts(e)[way[0]], way[1..])
    else None
  }

  ghost predicate BadAssign(e: Expr) {
    e.Assign? && !IsAssignee(e.slot)
  }

  ghost predicate LeadsToBad(e: Expr, way: seq<nat>) {
    Down(e, way).Some? && BadAssign(Down(e, way).value)
  }

  /** Anywhere in the expression, closures and left sides included. */
  ghost predicate HoldsBad(e: Expr) {
    exists way :: LeadsToBad(e, way)
  }

  lemma HoldsBadStep(e: Expr)
    ensures HoldsBad(e) <==> BadAssign(e) || exists i :: 0 <= i < |Parts(e)| && HoldsBad(Parts(e)[i])
  {
    if HoldsBad(e) && !BadAssign(e) {
      var way :| LeadsToBad(e, way);
      assert LeadsToBad(Parts(e)[way[0]], way[1..]);
    }
    if BadAssign(e) {
      assert LeadsToBad(e, []);
    }
    if i :| 0 <= i < |Parts(e)| && HoldsBad(Parts(e)[i]) {
      var way :| LeadsToBad(Parts(e)[i], way);
      assert ([i] + way)[1..] == way;
      assert LeadsToBad(e, [i] + way);
    }
  }

  ghost predicate SomeRejected(es: seq<Expr>) {
    exists i :: 0 <= i < |es| && Rejected(es[i])
  }

  lemma SomeConcat(a: seq<Expr>, b: seq<Expr>)
    ensures SomeRejected(a + b) <==> SomeRejected(a) || SomeRejected(b)
  {
    if i :| 0 <= i < |a| && Rejected(a[i]) {
      assert (a + b)[i] == a[i];
    }
    if i :| 0 <= i < |b| && Rejected(b[i]) {
      assert (a + b)[|a| + i] == b[i];
    }
  }

  lemma SomeOne(e: Expr)
    ensures SomeRejected([e]) <==> Rejected(e)
    ensures Rejected(e) ==> SomeRejected([e])
  {
    assert [e][0] == e;
  }

  lemma {:induction false} AnyIsSome(es: seq<Expr>)
    ensures AnyRejected(es) <==> SomeRejected(es)
    decreases es
  {
    if es != [] {
      AnyIsSome(es[1..]);
      SomeOne(es[0]);
      SomeConcat([es[0]], es[1..]);
      assert es == [es[0]] + es[1..];
    }
  }

  lemma {:induction false} FieldsAreSome(fs: seq<FieldExpr>, es: seq<Expr>)
    requires |es| == |fs| && forall i :: 0 <= i < |fs| ==> es[i] == fs[i].val
    ensures FieldRejected(fs) <==> SomeRejected(es)
    decreases fs
  {
    if fs != [] {
      FieldsAreSome(fs[1..], es[1..]);
      SomeOne(es[0]);
      SomeConcat([es[0]], es[1..]);
      assert es == [es[0]] + es[1..];
    }
  }

  lemma {:induction false} CondsAreSome(cs: seq<Cond>, es: seq<Expr>)
    requires |es| == |cs| && forall i :: 0 <= i < |cs| ==> es[i] == cs[i].val
    ensures CondRejected(cs) <==> SomeRejected(es)
    decreases cs
  {
    if cs != [] {
      CondsAreSome(cs[1..], es[1..]);
      SomeOne(es[0]);
      SomeConcat([es[0]], es[1..]);
      assert es == [es[0]] + es[1..];
    }
  }

  lemma {:induction false} ArmsAreSome(arms: seq<Arm>, es: seq<Expr>)
    requires |es| == |arms| && forall i :: 0 <= i < |arms| ==> es[i] == arms[i].code
    ensures ArmRejected(arms) <==> SomeRejected(es)
    decreases arms
  {
    if arms != [] {
      ArmsAreSome(arms[1..], es[1..]);
      SomeOne(es[0]);
      SomeConcat([es[0]], es[1..]);
      assert es == [es[0]] + es[1..];
    }
  }

  lemma GivenRejected(opt: Option<Expr>)
    ensures SomeRejected(Given(opt)) <==> opt.Some? && Rejected(opt.value)
  {
    if opt.Some? {
      SomeOne(opt.value);
    }
  }

  lemma TwoRejected(a: Expr, b: Expr)
    ensures SomeRejected([a, b]) <==> Rejected(a) || Rejected(b)
  {
    SomeOne(a);
    SomeOne(b);
    SomeConcat([a], [b]);
    assert [a] + [b] == [a, b];
  }

  lemma OfLists(e: Expr)
    requires e.Tuple? || e.Array? || e.StructLit? || e.StructLitPat? || e.CallPath? || e.CallObject? || e.Block?
    ensures Rejected(e) <==> SomeRejected(Parts(e))
  {
    match e
    case Tuple(es) => AnyIsSome(es);
    case Array(es) => AnyIsSome(es);
    case StructLit(_, fs) => FieldsAreSome(fs, Parts(e));
    case StructLitPat(_, fs) => FieldsAreSome(fs, Parts(e));
    case CallPath(_, args) => AnyIsSome(args);
    case CallObject(callee, args) => AnyIsSome(args); SomeOne(callee); SomeConcat([callee], args);
    case Block(_, nodes, _) => AnyIsSome(nodes);
  }

  lemma OfBranches(e: Expr)
    requires e.Match? || e.If?
    ensures Rejected(e) <==> SomeRejected(Parts(e))
  {
    match e
    case Match(val, arms) =>
      var codes := seq(|arms|, i requires 0 <= i < |arms| => arms[i].code);
      ArmsAreSome(arms, codes);
      SomeOne(val);
      SomeConcat([val], codes);
    case If(cond, thn, els) =>
      TwoRejected(cond, thn);
      GivenRejected(els);
      SomeConcat([cond, thn], Given(els));
  }

  lemma OfChains(e: Expr)
    requires e.WhileLet? || e.IfLetChain?
    ensures Rejected(e) <==> SomeRejected(Parts(e))
  {
    var vals := seq(|e.conds|, i requires 0 <= i < |e.conds| => e.conds[i].val);
    CondsAreSome(e.conds, vals);
    if e.WhileLet? {
      SomeOne(e.code);
      SomeConcat(vals, [e.code]);
    } else {
      SomeOne(e.thn);
      GivenRejected(e.els);
      SomeConcat([e.thn], Given(e.els));
      SomeConcat(vals, [e.thn] + Given(e.els));
    }
  }

  lemma OfOne(e: Expr, part: Expr)
    requires Parts(e) == [part]
    ensures SomeRejected(Parts(e)) <==> Rejected(part)
  {
    SomeOne(part);
  }

  lemma RejectedStep(e: Expr)
    ensures Rejected(e) <==> BadAssign(e) || SomeRejected(Parts(e))
  {
    if e.Tuple? || e.Array? || e.StructLit? || e.StructLitPat? || e.CallPath? || e.CallObject? || e.Block? {
      OfLists(e);
    } else if e.Match? || e.If? {
      OfBranches(e);
    } else if e.WhileLet? || e.IfLetChain? {
      OfChains(e);
    } else {
      match e
      case Field(obj, _) => OfOne(e, obj);
      case Index(obj, idx) => TwoRejected(obj, idx);
      case Deref(obj) => OfOne(e, obj);
      case Closure(_, _, code) => OfOne(e, code);
      case Let(_, val) => OfOne(e, val);
      case Assign(slot, val) => TwoRejected(slot, val);
      case Flow(_, _, opt) => GivenRejected(opt);
      case Loop(_, code) => OfOne(e, code);
      case For(_, _, iter, code) => TwoRejected(iter, code);
      case TryBlock(inner) => OfOne(e, inner);
      case QMark(inner) => OfOne(e, inner);
      case _ =>
    }
  }

  /** The pass reports an error exactly if anywhere in the program something is assigned to that is no assignee. */
  lemma {:induction false} RefusedExactly(e: Expr)
    ensures Rejected(e) <==> HoldsBad(e)
    decreases e
  {
    RejectedStep(e);
    HoldsBadStep(e);
    forall i | 0 <= i < |Parts(e)| ensures Rejected(Parts(e)[i]) <==> HoldsBad(Parts(e)[i]) {
      RefusedExactly(Parts(e)[i]);
    }
  }
}
