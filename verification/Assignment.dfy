/** What the pattern made for an assignee binds: one temporary for each place, in order. */
module Assignment {
  import opened Ast
  import opened Wrappers
  import opened Semantics
  import opened Lowering
  import Decimal

  /** The parts of a value that an assignee stores, left to right. */
  function Flat(e: Expr, v: Value): seq<Value>
    requires Fits(e, v)
    decreases e
  {
    match e
    case Wildcard => []
    case Tuple(es) =>
      var k := RestAt(es);
      if k == |es| then FlatAll(es, v.vs)
      else
        var after := es[k + 1..];
        FlatAll(es[..k], v.vs[..k]) + FlatAll(after, v.vs[|v.vs| - |after|..])
    case Array(es) => FlatAll(es, v.vs)
    case StructLit(_, fs) => FlatFields(fs, v.fs)
    case StructLitPat(_, fs) => FlatFields(fs, v.fs)
    case _ => [v]
  }

  function FlatAll(es: seq<Expr>, vs: seq<Value>): seq<Value>
    requires |es| == |vs| && AllFit(es, vs)
    decreases es
  {
    if es == [] then [] else Flat(es[0], vs[0]) + FlatAll(es[1..], vs[1..])
  }

  function FlatFields(fs: seq<FieldExpr>, vs: seq<FieldValue>): seq<Value>
    requires FieldsFit(fs, vs)
    decreases fs
  {
    if fs == [] then [] else Flat(fs[0].val, FieldOf(fs[0].name, vs).value) + FlatFields(fs[1..], vs)
  }

  /** The temporaries from number `k` on, holding the values in order. */
  function Temps(k: nat, vs: seq<Value>): (r: seq<Binding>)
    ensures |r| == |vs|
    decreases vs
  {
    if vs == [] then [] else [Binding(SlotName(k), vs[0])] + Temps(k + 1, vs[1..])
  }

  lemma {:induction false} TempsConcat(k: nat, a: seq<Value>, b: seq<Value>)
    ensures Temps(k, a + b) == Temps(k, a) + Temps(k + |a|, b)
    decreases a
  {
    if a == [] {
      assert a + b == b;
    } else {
      assert (a + b)[1..] == a[1..] + b;
      TempsConcat(k + 1, a[1..], b);
    }
  }

  lemma {:induction false} TemporariesDistinct(i: nat, j: nat)
    requires SlotName(i) == SlotName(j)
    ensures i == j
  {
    var a, b := "_#" + Decimal.Render(i), "_#" + Decimal.Render(j);
    assert a[2..] == Decimal.Render(i) && b[2..] == Decimal.Render(j);
    Decimal.RenderInjective(i, j);
  }

  /** Exactly the assignees are accepted. */
  lemma {:induction false} AssigneesAreTaken(e: Expr, k: nat)
    ensures ToPat(e, k).Some? <==> IsAssignee(e)
    decreases e
  {
    match e
    case Tuple(es) =>
      var r := RestAt(es);
      if r == |es| {
        ListsAreTaken(es, k);
      } else {
        ListsAreTaken(es[..r], k);
        if ToPats(es[..r], k).Some? {
          ListsAreTaken(es[r + 1..], k + |ToPats(es[..r], k).value.places|);
        }
      }
    case Array(es) => ListsAreTaken(es, k);
    case StructLit(_, fs) => FieldsAreTaken(fs, k);
    case StructLitPat(_, fs) => FieldsAreTaken(fs, k);
    case _ =>
  }

  lemma {:induction false} ListsAreTaken(es: seq<Expr>, k: nat)
    ensures ToPats(es, k).Some? <==> AreAssignees(es)
    decreases es
  {
    if es != [] {
      AssigneesAreTaken(es[0], k);
      if ToPat(es[0], k).Some? {
        ListsAreTaken(es[1..], k + |ToPat(es[0], k).value.places|);
      }
    }
  }

  lemma {:induction false} FieldsAreTaken(fs: seq<FieldExpr>, k: nat)
    ensures ToFieldPats(fs, k).Some? <==> AreFieldAssignees(fs)
    decreases fs
  {
    if fs != [] {
      AssigneesAreTaken(fs[0].val, k);
      if ToPat(fs[0].val, k).Some? {
        FieldsAreTaken(fs[1..], k + |ToPat(fs[0].val, k).value.places|);
      }
    }
  }

  /** The generated pattern matches what fits the assignee, and binds its parts in order. */
  lemma {:induction false} PatternTakes(e: Expr, k: nat, v: Value)
    requires ToPat(e, k).Some?
    ensures MatchPat(ToPat(e, k).value.pat, v) == if Fits(e, v) then Some(Temps(k, Flat(e, v))) else None
    ensures Fits(e, v) ==> |Flat(e, v)| == |ToPat(e, k).value.places|
    decreases e, 1
  {
    assert [v][1..] == [];
    assert Temps(k, [v]) == [Binding(SlotName(k), v)];
    match e
    case Tuple(es) => if RestAt(es) == |es| { WholeTupleTakes(es, k, v); } else { SplitTupleTakes(es, k, v); }
    case Array(es) =>
      if v.Arr? && |v.vs| == |es| {
        PatternsTake(es, k, v.vs);
      }
    case StructLit(path, fs) => StructTakes(e, fs, k, v);
    case StructLitPat(path, fs) => StructTakes(e, fs, k, v);
    case _ =>
  }

  lemma {:induction false} WholeTupleTakes(es: seq<Expr>, k: nat, v: Value)
    requires ToPats(es, k).Some? && RestAt(es) == |es|
    ensures
      var t := ToPats(es, k).value;
      && MatchPat(PTuple(t.pats, false, []), v) == (if Fits(Tuple(es), v) then Some(Temps(k, FlatAll(es, v.vs))) else None)
      && (Fits(Tuple(es), v) ==> |FlatAll(es, v.vs)| == |t.places|)
    decreases es, 1
  {
    if v.Tup? && |v.vs| == |es| {
      assert v.vs[..|es|] == v.vs && v.vs[|es|..] == [];
      PatternsTake(es, k, v.vs);
      var p := ToPats(es, k).value.pats;
      assert MatchAll([], v.vs[|es|..]) == Some([]);
      if MatchAll(p, v.vs).Some? {
        assert MatchAll(p, v.vs).value + [] == MatchAll(p, v.vs).value;
      }
    }
  }

  lemma {:induction false} SplitTupleTakes(es: seq<Expr>, k: nat, v: Value)
    requires ToPat(Tuple(es), k).Some? && RestAt(es) < |es|
    ensures
      var e := Tuple(es);
      && MatchPat(ToPat(e, k).value.pat, v) == (if Fits(e, v) then Some(Temps(k, Flat(e, v))) else None)
      && (Fits(e, v) ==> |Flat(e, v)| == |ToPat(e, k).value.places|)
    decreases es, 1
  {
    var r := RestAt(es);
    var before, after := es[..r], es[r + 1..];
    var a := ToPats(before, k).value;
    var b := ToPats(after, k + |a.places|).value;
    assert ToPat(Tuple(es), k).value == Taken(PTuple(a.pats, true, b.pats), a.places + b.places);
    if v.Tup? && |v.vs| >= r + |after| {
      var vs, ws := v.vs[..r], v.vs[|v.vs| - |after|..];
      PatternsTake(before, k, vs);
      PatternsTake(after, k + |a.places|, ws);
      SplitAssembles(es, k, v, a, b, vs, ws);
    }
  }

  lemma SplitAssembles(es: seq<Expr>, k: nat, v: Value, a: TakenAll, b: TakenAll, vs: seq<Value>, ws: seq<Value>)
    requires RestAt(es) < |es| && v.Tup? && |v.vs| >= |es| - 1
    requires |a.pats| == RestAt(es) && |b.pats| == |es| - RestAt(es) - 1
    requires vs == v.vs[..|a.pats|] && ws == v.vs[|v.vs| - |b.pats|..]
    requires SideTaken(a, es[..RestAt(es)], k, vs)
    requires SideTaken(b, es[RestAt(es) + 1..], k + |a.places|, ws)
    ensures
      var e := Tuple(es);
      && MatchPat(PTuple(a.pats, true, b.pats), v) == (if Fits(e, v) then Some(Temps(k, Flat(e, v))) else None)
      && (Fits(e, v) ==> |Flat(e, v)| == |a.places| + |b.places|)
  {
    SplitMatch(a.pats, b.pats, v);
    SplitFits(es, RestAt(es), v);
    SidesJoin(es[..RestAt(es)], es[RestAt(es) + 1..], k, a, b, vs, ws);
  }

  ghost predicate SideTaken(a: TakenAll, es: seq<Expr>, k: nat, vs: seq<Value>)
    requires |a.pats| == |es| == |vs|
  {
    && MatchAll(a.pats, vs) == (if AllFit(es, vs) then Some(Temps(k, FlatAll(es, vs))) else None)
    && (AllFit(es, vs) ==> |FlatAll(es, vs)| == |a.places|)
  }

  lemma SidesJoin(before: seq<Expr>, after: seq<Expr>, k: nat, a: TakenAll, b: TakenAll, vs: seq<Value>, ws: seq<Value>)
    requires |a.pats| == |before| == |vs| && |b.pats| == |after| == |ws|
    requires SideTaken(a, before, k, vs) && SideTaken(b, after, k + |a.places|, ws)
    ensures Join(MatchAll(a.pats, vs), MatchAll(b.pats, ws)) ==
      if AllFit(before, vs) && AllFit(after, ws) then Some(Temps(k, FlatAll(before, vs) + FlatAll(after, ws))) else None
  {
    JoinTemps(k, |a.places|, MatchAll(a.pats, vs), MatchAll(b.pats, ws),
              if AllFit(before, vs) then Some(FlatAll(before, vs)) else None,
              if AllFit(after, ws) then Some(FlatAll(after, ws)) else None);
  }

  lemma SplitMatch(a: seq<Pat>, b: seq<Pat>, v: Value)
    requires v.Tup? && |v.vs| >= |a| + |b|
    ensures MatchPat(PTuple(a, true, b), v) == Join(MatchAll(a, v.vs[..|a|]), MatchAll(b, v.vs[|v.vs| - |b|..]))
  {
  }

  lemma SplitFits(es: seq<Expr>, r: nat, v: Value)
    requires r == RestAt(es) < |es| && v.Tup? && |v.vs| >= |es| - 1
    ensures
      var before, after := es[..r], es[r + 1..];
      var vs, ws := v.vs[..r], v.vs[|v.vs| - |after|..];
      && (Fits(Tuple(es), v) <==> AllFit(before, vs) && AllFit(after, ws))
      && (Fits(Tuple(es), v) ==> Flat(Tuple(es), v) == FlatAll(before, vs) + FlatAll(after, ws))
  {
  }

  lemma JoinTemps(k: nat, n: nat, a: Option<seq<Binding>>, b: Option<seq<Binding>>,
                  vs: Option<seq<Value>>, ws: Option<seq<Value>>)
    requires vs.Some? ==> |vs.value| == n
    requires a == (if vs.Some? then Some(Temps(k, vs.value)) else None)
    requires b == (if ws.Some? then Some(Temps(k + n, ws.value)) else None)
    ensures Join(a, b) == if vs.Some? && ws.Some? then Some(Temps(k, vs.value + ws.value)) else None
  {
    if vs.Some? && ws.Some? {
      TempsConcat(k, vs.value, ws.value);
    }
  }

  lemma {:induction false} StructTakes(e: Expr, fs: seq<FieldExpr>, k: nat, v: Value)
    requires (e.StructLit? || e.StructLitPat?) && e.fs == fs && ToPat(e, k).Some?
    ensures MatchPat(ToPat(e, k).value.pat, v) == if Fits(e, v) then Some(Temps(k, Flat(e, v))) else None
    ensures Fits(e, v) ==> |Flat(e, v)| == |ToPat(e, k).value.places|
    decreases e, 0
  {
    var ps := ToFieldPats(fs, k).value.pats;
    assert PatNames(ps) == ExprNames(fs);
    if v.Rec? {
      FieldPatternsTake(fs, k, v.fs);
    }
  }

  lemma {:induction false} PatternsTake(es: seq<Expr>, k: nat, vs: seq<Value>)
    requires |es| == |vs| && ToPats(es, k).Some?
    ensures MatchAll(ToPats(es, k).value.pats, vs) == if AllFit(es, vs) then Some(Temps(k, FlatAll(es, vs))) else None
    ensures AllFit(es, vs) ==> |FlatAll(es, vs)| == |ToPats(es, k).value.places|
    decreases es, 0
  {
    if es != [] {
      PatternTakes(es[0], k, vs[0]);
      var a := ToPat(es[0], k).value;
      PatternsTake(es[1..], k + |a.places|, vs[1..]);
      var b := ToPats(es[1..], k + |a.places|).value;
      assert ToPats(es, k).value == TakenAll([a.pat] + b.pats, a.places + b.places);
      assert ([a.pat] + b.pats)[1..] == b.pats;
      JoinTemps(k, |a.places|, MatchPat(a.pat, vs[0]), MatchAll(b.pats, vs[1..]),
                if Fits(es[0], vs[0]) then Some(Flat(es[0], vs[0])) else None,
                if AllFit(es[1..], vs[1..]) then Some(FlatAll(es[1..], vs[1..])) else None);
    }
  }

  lemma {:induction false} FieldPatternsTake(fs: seq<FieldExpr>, k: nat, vs: seq<FieldValue>)
    requires ToFieldPats(fs, k).Some?
    ensures MatchFields(ToFieldPats(fs, k).value.pats, vs) == if FieldsFit(fs, vs) then Some(Temps(k, FlatFields(fs, vs))) else None
    ensures FieldsFit(fs, vs) ==> |FlatFields(fs, vs)| == |ToFieldPats(fs, k).value.places|
    decreases fs, 0
  {
    if fs != [] {
      var a := ToPat(fs[0].val, k).value;
      var b := ToFieldPats(fs[1..], k + |a.places|).value;
      assert ToFieldPats(fs, k).value == TakenFields([FieldPat(fs[0].name, a.pat)] + b.pats, a.places + b.places);
      assert ([FieldPat(fs[0].name, a.pat)] + b.pats)[1..] == b.pats;
      FieldPatternsTake(fs[1..], k + |a.places|, vs);
      var o := FieldOf(fs[0].name, vs);
      if o.Some? {
        PatternTakes(fs[0].val, k, o.value);
        JoinTemps(k, |a.places|, MatchPat(a.pat, o.value), MatchFields(b.pats, vs),
                  if Fits(fs[0].val, o.value) then Some(Flat(fs[0].val, o.value)) else None,
                  if FieldsFit(fs[1..], vs) then Some(FlatFields(fs[1..], vs)) else None);
      }
    }
  }
}
