/** The `#try` loops and the closures that an expression holds, and what lowering makes of them. */
module Inventory {
  import opened Ast
  import opened Sequences
  import opened Wrappers
  import opened Semantics
  import opened Lowering
  import opened Preservation

  /** A loop named `#tryK`, or a closure with its parameters and code. */
  datatype Piece = TryPiece(k: nat) | Made(id: nat, fn: Fn)

  /** The pieces of an expression, those of closures included.  An assignment has the pieces of its value first. */
  function Pieces(e: Expr): seq<Piece>
    decreases e, 1
  {
    match e
    case Tuple(es) => PiecesIn(es)
    case Array(es) => PiecesIn(es)
    case StructLit(_, fs) => PiecesInFields(fs)
    case StructLitPat(_, fs) => PiecesInFields(fs)
    case Field(obj, _) => Pieces(obj)
    case Index(obj, idx) => Pieces(obj) + Pieces(idx)
    case Deref(obj) => Pieces(obj)
    case CallPath(_, args) => PiecesIn(args)
    case CallObject(callee, args) => Pieces(callee) + PiecesIn(args)
    case Closure(id, params, code) => [Made(id, Fn(params, code))] + Pieces(code)
    case Block(_, nodes, _) => PiecesIn(nodes)
    case Let(_, val) => Pieces(val)
    case Assign(slot, val) => Pieces(val) + Pieces(slot)
    case Flow(_, _, opt) => PiecesInOpt(opt)
    case Loop(lbl, code) => (if lbl.Try? then [TryPiece(lbl.index)] else []) + Pieces(code)
    case For(_, _, iter, code) => Pieces(iter) + Pieces(code)
    case WhileLet(_, conds, code) => PiecesInConds(conds) + Pieces(code)
    case Match(val, arms) => Pieces(val) + PiecesInArms(arms)
    case If(cond, thn, els) => Pieces(cond) + (Pieces(thn) + PiecesInOpt(els))
    case IfLetChain(conds, thn, els) => PiecesInConds(conds) + (Pieces(thn) + PiecesInOpt(els))
    case TryBlock(inner) => Pieces(inner)
    case QMark(inner) => Pieces(inner)
    case _ => []
  }

  function PiecesIn(es: seq<Expr>): seq<Piece>
    decreases es, 0
  {
    if es == [] then [] else Pieces(es[0]) + PiecesIn(es[1..])
  }

  function PiecesInFields(fs: seq<FieldExpr>): seq<Piece>
    decreases fs, 0
  {
    if fs == [] then [] else Pieces(fs[0].val) + PiecesInFields(fs[1..])
  }

  function PiecesInConds(cs: seq<Cond>): seq<Piece>
    decreases cs, 0
  {
    if cs == [] then [] else (assert cs[0].val < cs[0]; Pieces(cs[0].val) + PiecesInConds(cs[1..]))
  }

  function PiecesInArms(arms: seq<Arm>): seq<Piece>
    decreases arms, 0
  {
    if arms == [] then [] else (assert arms[0].code < arms[0]; Pieces(arms[0].code) + PiecesInArms(arms[1..]))
  }

  function PiecesInOpt(opt: Option<Expr>): seq<Piece>
    decreases opt, 0
  {
    if opt.Some? then Pieces(opt.value) else []
  }

  /** How many of the pieces are loops named `#tryK`. */
  function Loops(k: nat, ps: seq<Piece>): nat {
    if ps == [] then 0 else (if ps[0] == TryPiece(k) then 1 else 0) + Loops(k, ps[1..])
  }

  /** The closures among the pieces, in order. */
  function Closures(ps: seq<Piece>): (r: seq<Piece>)
    ensures forall i :: 0 <= i < |r| ==> r[i].Made?
  {
    if ps == [] then [] else (if ps[0].Made? then [ps[0]] else []) + Closures(ps[1..])
  }

  lemma {:induction false} LoopsConcat(k: nat, a: seq<Piece>, b: seq<Piece>)
    ensures Loops(k, a + b) == Loops(k, a) + Loops(k, b)
  {
    if a == [] {
      assert a + b == b;
    } else {
      assert (a + b)[1..] == a[1..] + b;
      LoopsConcat(k, a[1..], b);
    }
  }

  lemma {:induction false} ClosuresConcat(a: seq<Piece>, b: seq<Piece>)
    ensures Closures(a + b) == Closures(a) + Closures(b)
  {
    if a == [] {
      assert a + b == b;
    } else {
      assert (a + b)[1..] == a[1..] + b;
      ClosuresConcat(a[1..], b);
    }
  }

  // ----- what lowering makes of the pieces

  /** The numbers given out between `n` and `m` are used for one loop each, and no others are used. */
  predicate OneEach(k: nat, count: nat, n: nat, m: nat) {
    n <= m && count == if n <= k < m then 1 else 0
  }

  /** The closures are the same ones, with their code lowered outside of any `try` block. */
  ghost predicate Correspond(cs: seq<Piece>, ds: seq<Piece>, legacy: bool) {
    && |cs| == |ds|
    && forall i :: 0 <= i < |cs| ==> cs[i].Made? && ds[i].Made? && LoweredPiece(cs[i], ds[i], legacy)
  }

  ghost predicate LoweredPiece(c: Piece, d: Piece, legacy: bool)
    requires c.Made? && d.Made?
  {
    c.id == d.id && LoweredFn(c.fn, d.fn, legacy)
  }

  ghost predicate Carried(k: nat, ps: seq<Piece>, qs: seq<Piece>, n: nat, m: nat, legacy: bool) {
    OneEach(k, Loops(k, qs), n, m) && Correspond(Closures(ps), Closures(qs), legacy)
  }

  lemma CarriedNone(k: nat, n: nat, legacy: bool)
    ensures Carried(k, [], [], n, n, legacy)
  {
  }

  /** Two parts that are lowered one after the other, whichever of them comes first in the result. */
  lemma CarriedBoth(k: nat, a: seq<Piece>, a': seq<Piece>, b: seq<Piece>, b': seq<Piece>, n: nat, m: nat, l: nat, legacy: bool)
    requires Carried(k, a, a', n, m, legacy) && Carried(k, b, b', m, l, legacy)
    ensures Carried(k, a + b, a' + b', n, l, legacy)
    ensures Carried(k, b + a, b' + a', n, l, legacy)
  {
    LoopsConcat(k, a', b');
    LoopsConcat(k, b', a');
    ClosuresConcat(a, b);
    ClosuresConcat(a', b');
    ClosuresConcat(b, a);
    ClosuresConcat(b', a');
  }

  lemma CarriedClosure(k: nat, c: Piece, d: Piece, ps: seq<Piece>, qs: seq<Piece>, n: nat, m: nat, legacy: bool)
    requires c.Made? && d.Made? && LoweredPiece(c, d, legacy) && Carried(k, ps, qs, n, m, legacy)
    ensures Carried(k, [c] + ps, [d] + qs, n, m, legacy)
  {
    assert ([c] + ps)[1..] == ps && ([d] + qs)[1..] == qs;
  }

  lemma CarriedTry(k: nat, ps: seq<Piece>, qs: seq<Piece>, n: nat, m: nat, legacy: bool)
    requires Carried(k, ps, qs, n + 1, m, legacy)
    ensures Carried(k, ps, [TryPiece(n)] + qs, n, m, legacy)
  {
    assert ([TryPiece(n)] + qs)[1..] == qs;
  }

  /** Every `try` block gets a number, and a loop, of its own; every closure keeps its place, its parameters and its
      lowered code. */
  lemma {:induction false} Carry(k: nat, e: Expr, ts: seq<nat>, n: nat, legacy: bool)
    requires Source(e)
    ensures Carried(k, Pieces(e), Pieces(Lower(e, ts, n, legacy).e), n, Lower(e, ts, n, legacy).n, legacy)
    decreases e, 2
  {
    match e
    case Tuple(es) => CarryList(k, es, ts, n, legacy);
    case Array(es) => CarryList(k, es, ts, n, legacy);
    case StructLit(_, fs) => CarryFields(k, fs, ts, n, legacy);
    case StructLitPat(_, fs) => CarryFields(k, fs, ts, n, legacy);
    case Field(obj, _) => Carry(k, obj, ts, n, legacy);
    case Index(_, _) => CarryIndex(k, e, ts, n, legacy);
    case Deref(obj) => Carry(k, obj, ts, n, legacy);
    case CallPath(_, args) => CarryList(k, args, ts, n, legacy);
    case CallObject(_, _) => CarryCall(k, e, ts, n, legacy);
    case Closure(_, _, _) => CarryClosure(k, e, ts, n, legacy);
    case Block(_, nodes, _) => CarryList(k, nodes, ts, n, legacy);
    case Let(_, val) => Carry(k, val, ts, n, legacy);
    case Loop(_, _) => CarryLoop(k, e, ts, n, legacy);
    case Match(_, _) => CarryMatch(k, e, ts, n, legacy);
    case If(_, _, _) => CarryIf(k, e, ts, n, legacy);
    case _ => CarrySugar(k, e, ts, n, legacy);
  }

  lemma {:induction false} CarryIndex(k: nat, e: Expr, ts: seq<nat>, n: nat, legacy: bool)
    requires Source(e) && e.Index?
    ensures Carried(k, Pieces(e), Pieces(Lower(e, ts, n, legacy).e), n, Lower(e, ts, n, legacy).n, legacy)
    decreases e, 0
  {
    var l := Lower(e.obj, ts, n, legacy);
    var m := Lower(e.idx, ts, l.n, legacy);
    Carry(k, e.obj, ts, n, legacy);
    Carry(k, e.idx, ts, l.n, legacy);
    CarriedBoth(k, Pieces(e.obj), Pieces(l.e), Pieces(e.idx), Pieces(m.e), n, l.n, m.n, legacy);
  }

  lemma {:induction false} CarryCall(k: nat, e: Expr, ts: seq<nat>, n: nat, legacy: bool)
    requires Source(e) && e.CallObject?
    ensures Carried(k, Pieces(e), Pieces(Lower(e, ts, n, legacy).e), n, Lower(e, ts, n, legacy).n, legacy)
    decreases e, 0
  {
    var l := Lower(e.callee, ts, n, legacy);
    var m := LowerList(e.args, ts, l.n, legacy);
    Carry(k, e.callee, ts, n, legacy);
    CarryList(k, e.args, ts, l.n, legacy);
    CarriedBoth(k, Pieces(e.callee), Pieces(l.e), PiecesIn(e.args), PiecesIn(m.es), n, l.n, m.n, legacy);
  }

  lemma {:induction false} CarryClosure(k: nat, e: Expr, ts: seq<nat>, n: nat, legacy: bool)
    requires Source(e) && e.Closure?
    ensures Carried(k, Pieces(e), Pieces(Lower(e, ts, n, legacy).e), n, Lower(e, ts, n, legacy).n, legacy)
    decreases e, 0
  {
    var l := Lower(e.code, [], n, legacy);
    Carry(k, e.code, [], n, legacy);
    CarriedClosure(k, Made(e.id, Fn(e.params, e.code)), Made(e.id, Fn(e.params, l.e)), Pieces(e.code), Pieces(l.e), n, l.n, legacy);
  }

  lemma {:induction false} CarryLoop(k: nat, e: Expr, ts: seq<nat>, n: nat, legacy: bool)
    requires Source(e) && e.Loop?
    ensures Carried(k, Pieces(e), Pieces(Lower(e, ts, n, legacy).e), n, Lower(e, ts, n, legacy).n, legacy)
    decreases e, 0
  {
    var l := Lower(e.code, ts, n, legacy);
    Carry(k, e.code, ts, n, legacy);
    assert [] + Pieces(e.code) == Pieces(e.code) && [] + Pieces(l.e) == Pieces(l.e);
  }

  lemma {:induction false} CarryMatch(k: nat, e: Expr, ts: seq<nat>, n: nat, legacy: bool)
    requires Source(e) && e.Match?
    ensures Carried(k, Pieces(e), Pieces(Lower(e, ts, n, legacy).e), n, Lower(e, ts, n, legacy).n, legacy)
    decreases e, 0
  {
    var l := Lower(e.val, ts, n, legacy);
    var m := LowerArms(e.arms, ts, l.n, legacy);
    Carry(k, e.val, ts, n, legacy);
    CarryArms(k, e.arms, ts, l.n, legacy);
    CarriedBoth(k, Pieces(e.val), Pieces(l.e), PiecesInArms(e.arms), PiecesInArms(m.arms), n, l.n, m.n, legacy);
  }

  lemma {:induction false} CarryIf(k: nat, e: Expr, ts: seq<nat>, n: nat, legacy: bool)
    requires Source(e) && e.If?
    ensures Carried(k, Pieces(e), Pieces(Lower(e, ts, n, legacy).e), n, Lower(e, ts, n, legacy).n, legacy)
    decreases e, 0
  {
    var l := Lower(e.cond, ts, n, legacy);
    Carry(k, e.cond, ts, n, legacy);
    var m := Lower(e.thn, ts, l.n, legacy);
    var o := LowerOpt(e.els, ts, m.n, legacy);
    Carry(k, e.thn, ts, l.n, legacy);
    CarryOpt(k, e.els, ts, m.n, legacy);
    CarriedBoth(k, Pieces(e.thn), Pieces(m.e), PiecesInOpt(e.els), PiecesInOpt(o.opt), l.n, m.n, o.n, legacy);
    CarriedBoth(k, Pieces(e.cond), Pieces(l.e), Pieces(e.thn) + PiecesInOpt(e.els), Pieces(m.e) + PiecesInOpt(o.opt),
                n, l.n, o.n, legacy);
  }

  predicate IsSugar(e: Expr) {
    e.Assign? || e.Flow? || e.For? || e.WhileLet? || e.IfLetChain? || e.TryBlock? || e.QMark?
  }

  lemma {:induction false} CarrySugar(k: nat, e: Expr, ts: seq<nat>, n: nat, legacy: bool)
    requires Source(e) && (IsSugar(e) || e.Lit? || e.Var? || e.Wildcard? || e.Rest?)
    ensures Carried(k, Pieces(e), Pieces(Lower(e, ts, n, legacy).e), n, Lower(e, ts, n, legacy).n, legacy)
    decreases e, 1
  {
    match e
    case Assign(_, _) => CarryAssign(k, e, ts, n, legacy);
    case Flow(_, _, _) => CarryFlow(k, e, ts, n, legacy);
    case For(_, _, _, _) => CarryFor(k, e, ts, n, legacy);
    case WhileLet(_, _, _) => CarryWhile(k, e, ts, n, legacy);
    case IfLetChain(_, _, _) => CarryIfLet(k, e, ts, n, legacy);
    case TryBlock(_) => CarryTry(k, e, ts, n, legacy);
    case QMark(_) => CarryQuestion(k, e, ts, n, legacy);
    case _ => CarriedNone(k, n, legacy);
  }

  lemma {:induction false} CarryTry(k: nat, e: Expr, ts: seq<nat>, n: nat, legacy: bool)
    requires Source(e) && e.TryBlock?
    ensures Carried(k, Pieces(e), Pieces(Lower(e, ts, n, legacy).e), n, Lower(e, ts, n, legacy).n, legacy)
    decreases e, 0
  {
    var l := Lower(e.inner, ts + [n], n + 1, legacy);
    Carry(k, e.inner, ts + [n], n + 1, legacy);
    CarriedTry(k, Pieces(e.inner), Pieces(l.e), n, l.n, legacy);
    PiecesOfTry(n, l.e, legacy);
  }

  lemma {:induction false} CarryQuestion(k: nat, e: Expr, ts: seq<nat>, n: nat, legacy: bool)
    requires Source(e) && e.QMark?
    ensures Carried(k, Pieces(e), Pieces(Lower(e, ts, n, legacy).e), n, Lower(e, ts, n, legacy).n, legacy)
    decreases e, 0
  {
    Carry(k, e.inner, ts, n, legacy);
    PiecesOfQuestion(Lower(e.inner, ts, n, legacy).e, ts, legacy);
  }

  lemma {:induction false} CarryFlow(k: nat, e: Expr, ts: seq<nat>, n: nat, legacy: bool)
    requires Source(e) && e.Flow?
    ensures Carried(k, Pieces(e), Pieces(Lower(e, ts, n, legacy).e), n, Lower(e, ts, n, legacy).n, legacy)
    decreases e, 0
  {
    CarryOpt(k, e.opt, ts, n, legacy);
    if e.kind.Yeet? {
      PiecesOfYeet(ts, LowerOpt(e.opt, ts, n, legacy).opt.value);
    }
  }

  lemma {:induction false} CarryAssign(k: nat, e: Expr, ts: seq<nat>, n: nat, legacy: bool)
    requires Source(e) && e.Assign?
    ensures Carried(k, Pieces(e), Pieces(Lower(e, ts, n, legacy).e), n, Lower(e, ts, n, legacy).n, legacy)
    decreases e, 0
  {
    var l := Lower(e.slot, ts, n, legacy);
    var m := Lower(e.val, ts, l.n, legacy);
    Carry(k, e.slot, ts, n, legacy);
    Carry(k, e.val, ts, l.n, legacy);
    CarriedBoth(k, Pieces(e.slot), Pieces(l.e), Pieces(e.val), Pieces(m.e), n, l.n, m.n, legacy);
    PiecesOfAssign(l.e, m.e);
  }

  lemma {:induction false} CarryFor(k: nat, e: Expr, ts: seq<nat>, n: nat, legacy: bool)
    requires Source(e) && e.For?
    ensures Carried(k, Pieces(e), Pieces(Lower(e, ts, n, legacy).e), n, Lower(e, ts, n, legacy).n, legacy)
    decreases e, 0
  {
    var l := Lower(e.iter, ts, n, legacy);
    var m := Lower(e.code, ts, l.n, legacy);
    Carry(k, e.iter, ts, n, legacy);
    Carry(k, e.code, ts, l.n, legacy);
    CarriedBoth(k, Pieces(e.iter), Pieces(l.e), Pieces(e.code), Pieces(m.e), n, l.n, m.n, legacy);
    PiecesOfFor(e.lbl, e.pat, l.e, m.e);
  }

  lemma {:induction false} CarryWhile(k: nat, e: Expr, ts: seq<nat>, n: nat, legacy: bool)
    requires Source(e) && e.WhileLet?
    ensures Carried(k, Pieces(e), Pieces(Lower(e, ts, n, legacy).e), n, Lower(e, ts, n, legacy).n, legacy)
    decreases e, 0
  {
    var l := LowerConds(e.conds, ts, n, legacy);
    var m := Lower(e.code, ts, l.n, legacy);
    CarryConds(k, e.conds, ts, n, legacy);
    Carry(k, e.code, ts, l.n, legacy);
    CarriedBoth(k, PiecesInConds(e.conds), PiecesInConds(l.cs), Pieces(e.code), Pieces(m.e), n, l.n, m.n, legacy);
    PiecesOfWhile(e.lbl, l.cs, m.e);
  }

  lemma {:induction false} CarryIfLet(k: nat, e: Expr, ts: seq<nat>, n: nat, legacy: bool)
    requires Source(e) && e.IfLetChain?
    ensures Carried(k, Pieces(e), Pieces(Lower(e, ts, n, legacy).e), n, Lower(e, ts, n, legacy).n, legacy)
    decreases e, 0
  {
    var l := LowerConds(e.conds, ts, n, legacy);
    var m := Lower(e.thn, ts, l.n, legacy);
    var o := LowerOpt(e.els, ts, m.n, legacy);
    CarryConds(k, e.conds, ts, n, legacy);
    Carry(k, e.thn, ts, l.n, legacy);
    CarryOpt(k, e.els, ts, m.n, legacy);
    CarriedBoth(k, Pieces(e.thn), Pieces(m.e), PiecesInOpt(e.els), PiecesInOpt(o.opt), l.n, m.n, o.n, legacy);
    CarriedBoth(k, PiecesInConds(e.conds), PiecesInConds(l.cs), Pieces(e.thn) + PiecesInOpt(e.els),
                Pieces(m.e) + PiecesInOpt(o.opt), n, l.n, o.n, legacy);
    PiecesOfIfLet(l.cs, m.e, o.opt);
  }

  lemma {:induction false} CarryList(k: nat, es: seq<Expr>, ts: seq<nat>, n: nat, legacy: bool)
    requires Sources(es)
    ensures
      var r := LowerList(es, ts, n, legacy);
      Carried(k, PiecesIn(es), PiecesIn(r.es), n, r.n, legacy)
    decreases es, 0
  {
    if es == [] {
      CarriedNone(k, n, legacy);
    } else {
      var l := Lower(es[0], ts, n, legacy);
      var tail := LowerList(es[1..], ts, l.n, legacy);
      Carry(k, es[0], ts, n, legacy);
      CarryList(k, es[1..], ts, l.n, legacy);
      CarriedBoth(k, Pieces(es[0]), Pieces(l.e), PiecesIn(es[1..]), PiecesIn(tail.es), n, l.n, tail.n, legacy);
      assert ([l.e] + tail.es)[1..] == tail.es;
    }
  }

  lemma {:induction false} CarryFields(k: nat, fs: seq<FieldExpr>, ts: seq<nat>, n: nat, legacy: bool)
    requires SourceFields(fs)
    ensures
      var r := LowerFields(fs, ts, n, legacy);
      Carried(k, PiecesInFields(fs), PiecesInFields(r.fs), n, r.n, legacy)
    decreases fs, 0
  {
    if fs == [] {
      CarriedNone(k, n, legacy);
    } else {
      var l := Lower(fs[0].val, ts, n, legacy);
      var tail := LowerFields(fs[1..], ts, l.n, legacy);
      Carry(k, fs[0].val, ts, n, legacy);
      CarryFields(k, fs[1..], ts, l.n, legacy);
      CarriedBoth(k, Pieces(fs[0].val), Pieces(l.e), PiecesInFields(fs[1..]), PiecesInFields(tail.fs), n, l.n, tail.n, legacy);
      assert ([FieldExpr(fs[0].name, l.e)] + tail.fs)[1..] == tail.fs;
    }
  }

  lemma {:induction false} CarryConds(k: nat, cs: seq<Cond>, ts: seq<nat>, n: nat, legacy: bool)
    requires SourceConds(cs)
    ensures
      var r := LowerConds(cs, ts, n, legacy);
      Carried(k, PiecesInConds(cs), PiecesInConds(r.cs), n, r.n, legacy)
    decreases cs, 0
  {
    if cs == [] {
      CarriedNone(k, n, legacy);
    } else {
      assert cs[0].val < cs[0];
      var l := Lower(cs[0].val, ts, n, legacy);
      var tail := LowerConds(cs[1..], ts, l.n, legacy);
      Carry(k, cs[0].val, ts, n, legacy);
      CarryConds(k, cs[1..], ts, l.n, legacy);
      CarriedBoth(k, Pieces(cs[0].val), Pieces(l.e), PiecesInConds(cs[1..]), PiecesInConds(tail.cs), n, l.n, tail.n, legacy);
      assert ([Cond(cs[0].pat, l.e)] + tail.cs)[1..] == tail.cs;
    }
  }

  lemma {:induction false} CarryArms(k: nat, arms: seq<Arm>, ts: seq<nat>, n: nat, legacy: bool)
    requires SourceArms(arms)
    ensures
      var r := LowerArms(arms, ts, n, legacy);
      Carried(k, PiecesInArms(arms), PiecesInArms(r.arms), n, r.n, legacy)
    decreases arms, 0
  {
    if arms == [] {
      CarriedNone(k, n, legacy);
    } else {
      assert arms[0].code < arms[0];
      var l := Lower(arms[0].code, ts, n, legacy);
      var tail := LowerArms(arms[1..], ts, l.n, legacy);
      Carry(k, arms[0].code, ts, n, legacy);
      CarryArms(k, arms[1..], ts, l.n, legacy);
      CarriedBoth(k, Pieces(arms[0].code), Pieces(l.e), PiecesInArms(arms[1..]), PiecesInArms(tail.arms), n, l.n, tail.n, legacy);
      assert ([Arm(arms[0].pat, l.e)] + tail.arms)[1..] == tail.arms;
    }
  }

  lemma {:induction false} CarryOpt(k: nat, opt: Option<Expr>, ts: seq<nat>, n: nat, legacy: bool)
    requires SourceOpt(opt)
    ensures
      var r := LowerOpt(opt, ts, n, legacy);
      Carried(k, PiecesInOpt(opt), PiecesInOpt(r.opt), n, r.n, legacy)
    decreases opt, 0
  {
    if opt.Some? {
      Carry(k, opt.value, ts, n, legacy);
    } else {
      CarriedNone(k, n, legacy);
    }
  }

  // ----- the made-up code holds the pieces of its parts, and the loop made for a `try` block

  lemma PiecesOfOne(e: Expr)
    ensures PiecesIn([e]) == Pieces(e)
  {
    assert [e][1..] == [];
    assert Pieces(e) + [] == Pieces(e);
  }

  lemma PiecesOfTwo(a: Expr, b: Expr)
    ensures PiecesIn([a, b]) == Pieces(a) + Pieces(b)
  {
    assert [a, b][1..] == [b];
    PiecesOfOne(b);
  }

  lemma PiecesOfOneArm(val: Expr, a: Arm)
    ensures Pieces(Match(val, [a])) == Pieces(val) + Pieces(a.code)
  {
    assert [a][1..] == [];
    assert Pieces(a.code) + [] == Pieces(a.code);
    assert PiecesInArms([a]) == Pieces(a.code);
  }

  lemma PiecesOfTwoArms(val: Expr, a: Arm, b: Arm)
    ensures Pieces(Match(val, [a, b])) == Pieces(val) + (Pieces(a.code) + Pieces(b.code))
  {
    assert [a, b][1..] == [b] && [b][1..] == [];
    assert Pieces(b.code) + [] == Pieces(b.code);
    assert PiecesInArms([b]) == Pieces(b.code);
  }

  lemma PiecesOfCall(f: string, arg: Expr)
    ensures Pieces(CallPath(f, [arg])) == Pieces(arg)
  {
    PiecesOfOne(arg);
  }

  lemma PiecesOfLeave(ts: seq<nat>, v: Expr)
    ensures Pieces(LeaveWith(ts, v)) == Pieces(v)
  {
  }

  lemma PiecesOfYeet(ts: seq<nat>, v: Expr)
    ensures Pieces(LowerYeet(ts, Some(v))) == Pieces(v)
  {
    PiecesOfCall("ops::Yeet", v);
    PiecesOfCall("FromResidual::from_residual", CallPath("ops::Yeet", [v]));
    PiecesOfLeave(ts, CallPath("FromResidual::from_residual", [CallPath("ops::Yeet", [v])]));
  }

  lemma PiecesOfQuestion(e: Expr, ts: seq<nat>, legacy: bool)
    ensures Pieces(QuestionMatch(e, ts, legacy)) == Pieces(e)
  {
    var r := Var(Gen("r"));
    var leave := if legacy then CallPath("Try::from_error", [CallPath("From::from", [r])]) else CallPath("FromResidual::from_residual", [r]);
    PiecesOfCall("From::from", r);
    PiecesOfCall("Try::from_error", CallPath("From::from", [r]));
    PiecesOfCall("FromResidual::from_residual", r);
    PiecesOfLeave(ts, leave);
    var m := QuestionMatch(e, ts, legacy);
    PiecesOfCall(m.val.f, e);
    PiecesOfTwoArms(m.val, m.arms[0], m.arms[1]);
    assert m == Match(m.val, [m.arms[0], m.arms[1]]);
    assert Pieces(e) + ([] + []) == Pieces(e);
  }

  lemma PiecesOfTry(n: nat, inner: Expr, legacy: bool)
    ensures Pieces(TryLoop(n, inner, legacy)) == [TryPiece(n)] + Pieces(inner)
  {
    var call := CallPath(OutputPath(legacy), [inner]);
    PiecesOfCall(OutputPath(legacy), inner);
    PiecesOfBreak(Try(n), call);
  }

  lemma PiecesOfBreak(lbl: Label, val: Expr)
    ensures Pieces(Flow(Break, lbl, Some(val))) == Pieces(val)
  {
  }

  lemma PiecesOfLoop(lbl: Label, code: Expr)
    requires SourceLabel(lbl)
    ensures Pieces(Loop(lbl, code)) == Pieces(code)
  {
    assert [] + Pieces(code) == Pieces(code);
  }

  lemma PiecesOfFor(lbl: Label, pat: Pat, iter: Expr, code: Expr)
    requires SourceLabel(lbl)
    ensures Pieces(ForLoop(lbl, pat, iter, code)) == Pieces(iter) + Pieces(code)
  {
    PiecesOfCall("IntoIterator::into_iter", iter);
    PiecesOfForBody(lbl, pat, code);
    PiecesOfLoop(lbl, ForBody(lbl, pat, code));
    PiecesOfOneArm(CallPath("IntoIterator::into_iter", [iter]), Arm(PBind(Gen("it")), Loop(lbl, ForBody(lbl, pat, code))));
  }

  lemma PiecesOfForBody(lbl: Label, pat: Pat, code: Expr)
    ensures Pieces(ForBody(lbl, pat, code)) == Pieces(code)
  {
    var next, leave := NextOf(Gen("it")), Flow(Break, lbl, None);
    var some, none := Arm(PCon("Option::Some", [pat]), code), Arm(PCon("Option::None", []), leave);
    PiecesOfTwoArms(next, some, none);
    assert ForBody(lbl, pat, code) == Match(next, [some, none]);
    assert Pieces(next) == [] && Pieces(leave) == [];
    assert [] + (Pieces(code) + []) == Pieces(code);
  }

  lemma {:induction false} PiecesOfChain(cs: seq<Cond>, body: Expr, fail: Expr)
    requires Pieces(fail) == []
    ensures Pieces(LetChain(cs, body, fail)) == PiecesInConds(cs) + Pieces(body)
    decreases cs
  {
    if cs == [] {
      assert [] + Pieces(body) == Pieces(body);
    } else {
      PiecesOfChain(cs[1..], body, fail);
      PiecesOfLevel(cs[0], LetChain(cs[1..], body, fail), fail);
      Assoc(Pieces(cs[0].val), PiecesInConds(cs[1..]), Pieces(body));
    }
  }

  lemma PiecesOfIf(cond: Expr, thn: Expr, els: Expr)
    ensures Pieces(If(cond, thn, Some(els))) == Pieces(cond) + (Pieces(thn) + Pieces(els))
  {
    assert PiecesInOpt(Some(els)) == Pieces(els);
  }

  lemma NothingMore(a: seq<Piece>, b: seq<Piece>, c: seq<Piece>)
    requires c == []
    ensures a + (b + c) == a + b
  {
    assert b + c == b;
  }

  lemma PiecesOfLevel(cond: Cond, rest: Expr, fail: Expr)
    requires Pieces(fail) == []
    ensures Pieces(ChainLevel(cond, rest, fail)) == Pieces(cond.val) + Pieces(rest)
  {
    NothingMore(Pieces(cond.val), Pieces(rest), Pieces(fail));
    if cond.pat.Some? {
      var arm, none := Arm(cond.pat.value, rest), Arm(PAny, fail);
      PiecesOfTwoArms(cond.val, arm, none);
      assert ChainLevel(cond, rest, fail) == Match(cond.val, [arm, none]);
    } else {
      PiecesOfIf(cond.val, rest, fail);
      assert ChainLevel(cond, rest, fail) == If(cond.val, rest, Some(fail));
    }
  }

  lemma PiecesOfWhile(lbl: Label, cs: seq<Cond>, code: Expr)
    requires SourceLabel(lbl)
    ensures Pieces(Loop(lbl, LetChain(cs, code, Flow(Break, lbl, None)))) == PiecesInConds(cs) + Pieces(code)
  {
    var fail := Flow(Break, lbl, None);
    PiecesOfChain(cs, code, fail);
    PiecesOfLoop(lbl, LetChain(cs, code, fail));
  }

  lemma PiecesOfLast(els: Option<Expr>)
    ensures Pieces(if els.Some? then els.value else Tuple([])) == PiecesInOpt(els)
  {
  }

  lemma PiecesOfBlock(lbl: Label, nodes: seq<Expr>, keep: bool)
    ensures Pieces(Block(lbl, nodes, keep)) == PiecesIn(nodes)
  {
  }

  lemma PiecesOfIfLet(cs: seq<Cond>, thn: Expr, els: Option<Expr>)
    ensures Pieces(IfLetBlock(cs, thn, els)) == PiecesInConds(cs) + (Pieces(thn) + PiecesInOpt(els))
  {
    var body, fail := Flow(Break, IfLet, Some(thn)), Block(NoLabel, [], true);
    var chain, last := LetChain(cs, body, fail), if els.Some? then els.value else Tuple([]);
    PiecesOfBlock(NoLabel, [], true);
    PiecesOfChain(cs, body, fail);
    PiecesOfBreak(IfLet, thn);
    PiecesOfLast(els);
    PiecesOfTwo(chain, last);
    PiecesOfBlock(IfLet, [chain, last], true);
    Assoc(PiecesInConds(cs), Pieces(thn), PiecesInOpt(els));
  }

  lemma PiecesOfAssign(slot: Expr, val: Expr)
    ensures Pieces(LowerAssign(slot, val)) == Pieces(val) + Pieces(slot)
  {
    var t := ToPat(slot, 0);
    if t.Some? && !t.value.pat.PBind? {
      PiecesOfPlaces(slot, 0);
      PiecesOfStores(t.value.places, 0);
      PiecesOfStoring(t.value.pat, val, Stores(t.value.places, 0));
    } else {
      PiecesOfPlainAssign(slot, val);
    }
  }

  lemma PiecesOfPlainAssign(slot: Expr, val: Expr)
    ensures Pieces(Assign(slot, val)) == Pieces(val) + Pieces(slot)
  {
  }

  lemma PiecesOfStoring(p: Pat, val: Expr, stores: seq<Expr>)
    ensures Pieces(Block(NoLabel, [Let(p, val)] + stores, false)) == Pieces(val) + PiecesIn(stores)
  {
    var nodes := [Let(p, val)] + stores;
    assert nodes[1..] == stores;
    assert Pieces(nodes[0]) == Pieces(val);
    PiecesOfBlock(NoLabel, nodes, false);
  }

  lemma {:induction false} PiecesOfStores(places: seq<Expr>, i: nat)
    ensures PiecesIn(Stores(places, i)) == PiecesIn(places)
    decreases places
  {
    if places != [] {
      PiecesOfStores(places[1..], i + 1);
      var x := Var(SlotName(i));
      var rest := Stores(places[1..], i + 1);
      assert ([Assign(places[0], x)] + rest)[1..] == rest;
      PiecesOfPlainAssign(places[0], x);
      assert [] + Pieces(places[0]) == Pieces(places[0]);
    }
  }

  lemma {:induction false} PiecesConcat(a: seq<Expr>, b: seq<Expr>)
    ensures PiecesIn(a + b) == PiecesIn(a) + PiecesIn(b)
    decreases a
  {
    if a == [] {
      assert a + b == b;
    } else {
      PiecesConcat(a[1..], b);
      assert (a + b)[1..] == a[1..] + b;
      Assoc(Pieces(a[0]), PiecesIn(a[1..]), PiecesIn(b));
    }
  }

  /** No part of an assignee is lost when its places are taken. */
  lemma {:induction false} PiecesOfPlaces(e: Expr, i: nat)
    requires ToPat(e, i).Some?
    ensures PiecesIn(ToPat(e, i).value.places) == Pieces(e)
    decreases e, 2
  {
    match e
    case Tuple(es) => if RestAt(es) == |es| { PiecesOfPlaceList(es, i); } else { PiecesAround(es, i); }
    case Array(es) => PiecesOfPlaceList(es, i);
    case StructLit(_, fs) => PiecesOfPlaceFields(fs, i);
    case StructLitPat(_, fs) => PiecesOfPlaceFields(fs, i);
    case _ =>
      if IsPlace(e) {
        PiecesOfOne(e);
      }
  }

  lemma {:induction false} PiecesAround(es: seq<Expr>, i: nat)
    requires ToPat(Tuple(es), i).Some? && RestAt(es) < |es|
    ensures PiecesIn(ToPat(Tuple(es), i).value.places) == PiecesIn(es)
    decreases es, 1
  {
    var r := RestAt(es);
    var a := ToPats(es[..r], i).value;
    var b := ToPats(es[r + 1..], i + |a.places|).value;
    PiecesOfPlaceList(es[..r], i);
    PiecesOfPlaceList(es[r + 1..], i + |a.places|);
    PiecesConcat(a.places, b.places);
    PiecesSplitAt(es, r);
    assert ToPat(Tuple(es), i).value == Taken(PTuple(a.pats, true, b.pats), a.places + b.places);
  }

  lemma PiecesSplitAt(es: seq<Expr>, r: nat)
    requires r < |es| && es[r].Rest?
    ensures PiecesIn(es) == PiecesIn(es[..r]) + PiecesIn(es[r + 1..])
  {
    PiecesConcat(es[..r], es[r..]);
    assert es == es[..r] + es[r..] && es[r..][0] == es[r] && es[r..][1..] == es[r + 1..];
    assert Pieces(es[r]) == [];
    assert [] + PiecesIn(es[r + 1..]) == PiecesIn(es[r + 1..]);
  }

  lemma {:induction false} PiecesOfPlaceList(es: seq<Expr>, i: nat)
    requires ToPats(es, i).Some?
    ensures PiecesIn(ToPats(es, i).value.places) == PiecesIn(es)
    decreases es, 0
  {
    if es != [] {
      var a := ToPat(es[0], i).value.places;
      PiecesOfPlaces(es[0], i);
      PiecesOfPlaceList(es[1..], i + |a|);
      PiecesConcat(a, ToPats(es[1..], i + |a|).value.places);
    }
  }

  lemma {:induction false} PiecesOfPlaceFields(fs: seq<FieldExpr>, i: nat)
    requires ToFieldPats(fs, i).Some?
    ensures PiecesIn(ToFieldPats(fs, i).value.places) == PiecesInFields(fs)
    decreases fs, 0
  {
    if fs != [] {
      var a := ToPat(fs[0].val, i).value.places;
      PiecesOfPlaces(fs[0].val, i);
      PiecesOfPlaceFields(fs[1..], i + |a|);
      PiecesConcat(a, ToFieldPats(fs[1..], i + |a|).value.places);
    }
  }
}
