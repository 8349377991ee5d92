/** What the desugaring pass promises, put together from the lemmas of the other modules. */
module Desugaring {
  import opened Ast
  import opened Wrappers
  import opened Semantics
  import opened Lowering
  import opened Assignment
  import opened Preservation
  import opened Inventory

  // ----- the closures of a program

  /** The bodies of a program, each lowered by a visitor of its own. */
  function LoweredProgram(p: seq<Expr>, legacy: bool): (r: seq<Expr>)
    ensures |r| == |p|
  {
    seq(|p|, i requires 0 <= i < |p| => Lower(p[i], [], 0, legacy).e)
  }

  /** A table that is read off closures: what it holds for each of them is its parameters and code, and it holds
      nothing else. */
  ghost predicate TableOf(code: map<nat, Fn>, cs: seq<Piece>) {
    && (forall i :: 0 <= i < |cs| ==> cs[i].Made? && cs[i].id in code && code[cs[i].id] == cs[i].fn)
    && (forall id :: id in code ==> exists i :: 0 <= i < |cs| && cs[i].Made? && cs[i].id == id)
  }

  /** What a table says of one of its names. */
  lemma ReadOff(code: map<nat, Fn>, cs: seq<Piece>, id: nat) returns (i: nat)
    requires TableOf(code, cs) && id in code
    ensures i < |cs| && cs[i].Made? && cs[i].id == id && code[id] == cs[i].fn
  {
    i :| 0 <= i < |cs| && cs[i].Made? && cs[i].id == id;
  }

  /** The closures of the lowered program are those of the program, each with its code lowered outside of any
      `try` block, from whatever number the visitor had come to. */
  lemma {:induction false} ClosuresCarried(p: seq<Expr>, legacy: bool)
    requires Sources(p)
    ensures Correspond(Closures(PiecesIn(p)), Closures(PiecesIn(LoweredProgram(p, legacy))), legacy)
  {
    var q := LoweredProgram(p, legacy);
    if p != [] {
      Carry(0, p[0], [], 0, legacy);
      ClosuresCarried(p[1..], legacy);
      assert q[1..] == LoweredProgram(p[1..], legacy);
      ClosuresConcat(Pieces(p[0]), PiecesIn(p[1..]));
      ClosuresConcat(Pieces(q[0]), PiecesIn(q[1..]));
    }
  }

  /** What the closures of a program run, and what those of its lowered form run, is related as the simulation needs. */
  lemma TablesRelated(c: Ctx, d: Ctx, p: seq<Expr>)
    requires Sources(p) && SameWorld(c, d)
    requires TableOf(c.code, Closures(PiecesIn(p)))
    requires TableOf(d.code, Closures(PiecesIn(LoweredProgram(p, c.legacy))))
    ensures Related(c, d)
  {
    var cs, ds := Closures(PiecesIn(p)), Closures(PiecesIn(LoweredProgram(p, c.legacy)));
    ClosuresCarried(p, c.legacy);
    forall id | id in c.code
      ensures id in d.code && LoweredFn(c.code[id], d.code[id], c.legacy)
    {
      var i := ReadOff(c.code, cs, id);
      assert LoweredPiece(cs[i], ds[i], c.legacy);
    }
    forall id | id in d.code
      ensures id in c.code
    {
      var i := ReadOff(d.code, ds, id);
      assert LoweredPiece(cs[i], ds[i], c.legacy);
    }
  }

  // ----- such tables exist

  predicate UniqueIds(cs: seq<Piece>) {
    && (forall i :: 0 <= i < |cs| ==> cs[i].Made?)
    && (forall i, j :: 0 <= i < j < |cs| ==> cs[i].id != cs[j].id)
  }

  function Table(cs: seq<Piece>): map<nat, Fn>
    requires forall i :: 0 <= i < |cs| ==> cs[i].Made?
  {
    if cs == [] then map[] else Table(cs[1..])[cs[0].id := cs[0].fn]
  }

  lemma {:induction false} TableHolds(cs: seq<Piece>)
    requires UniqueIds(cs)
    ensures TableOf(Table(cs), cs)
  {
    if cs != [] {
      var tail := cs[1..];
      TableHolds(tail);
      var code := Table(cs);
      forall i | 0 <= i < |cs|
        ensures cs[i].id in code && code[cs[i].id] == cs[i].fn
      {
        if i > 0 {
          assert tail[i - 1] == cs[i];
        }
      }
      forall id | id in code
        ensures exists i :: 0 <= i < |cs| && cs[i].Made? && cs[i].id == id
      {
        if id != cs[0].id {
          var i := ReadOff(Table(tail), tail, id);
          assert cs[i + 1] == tail[i];
        }
      }
    }
  }

  /** If every closure of a program has a name of its own, then the program and its lowered form have their tables. */
  lemma ProgramsHaveTables(p: seq<Expr>, legacy: bool)
    requires Sources(p) && UniqueIds(Closures(PiecesIn(p)))
    ensures
      var cs, ds := Closures(PiecesIn(p)), Closures(PiecesIn(LoweredProgram(p, legacy)));
      UniqueIds(ds) && TableOf(Table(cs), cs) && TableOf(Table(ds), ds)
  {
    var cs, ds := Closures(PiecesIn(p)), Closures(PiecesIn(LoweredProgram(p, legacy)));
    ClosuresCarried(p, legacy);
    forall i, j | 0 <= i < j < |ds|
      ensures ds[i].id != ds[j].id
    {
      assert LoweredPiece(cs[i], ds[i], legacy) && LoweredPiece(cs[j], ds[j], legacy);
    }
    TableHolds(cs);
    TableHolds(ds);
  }

  // ----- meaning

  /** The body of a function: every run of the lowered body ends as the run of the source body does, with the
      same bindings and the same history of calls; a residual leaves by `return`. */
  lemma FunctionBodyPreserved(c: Ctx, d: Ctx, e: Expr, s: State, fuel: nat)
    requires Start(c, d, s) && Source(e)
    ensures Eval(d, Lower(e, [], 0, c.legacy).e, s, fuel) == Finished(Eval(c, e, s, fuel))
  {
    Sim(c, d, e, [], 0, s, [], fuel);
    assert s.(gen := []) == s;
    TrAtTop(s, Eval(c, e, s, fuel));
  }

  function Finished(r: Res): Res {
    match r
    case Done(Residual(v), s) => Done(Returned(v), s)
    case _ => r
  }

  lemma TrAtTop(s: State, r: Res)
    requires s.gen == [] && SameShapeRes(s, r)
    ensures Tr([], [], r) == Finished(r)
  {
    if r.Done? {
      assert r.s.(gen := []) == r.s;
    }
  }

  /** The main theorem.  Run with the closures of the lowered program, each lowered body ends as the body of the
      program does: with the same bindings and the same history of calls, at every fuel; a residual leaves the
      function, or the closure that it arises in, by `return`. */
  lemma ProgramPreserved(c: Ctx, d: Ctx, p: seq<Expr>, i: nat, s: State, fuel: nat)
    requires Sources(p) && i < |p| && SameWorld(c, d) && s.gen == []
    requires TableOf(c.code, Closures(PiecesIn(p)))
    requires TableOf(d.code, Closures(PiecesIn(LoweredProgram(p, c.legacy))))
    ensures Eval(d, LoweredProgram(p, c.legacy)[i], s, fuel) == Finished(Eval(c, p[i], s, fuel))
  {
    TablesRelated(c, d, p);
    SourceAt(p, i);
    FunctionBodyPreserved(c, d, p[i], s, fuel);
  }

  lemma {:induction false} SourceAt(p: seq<Expr>, i: nat)
    requires Sources(p) && i < |p|
    ensures Source(p[i])
  {
    if i > 0 {
      SourceAt(p[1..], i - 1);
    }
  }

  /** The same of any expression, inside of any `try` blocks and below any made-up bindings: a residual is the
      `break` out of the innermost one. */
  lemma ExpressionPreserved(c: Ctx, d: Ctx, p: seq<Expr>, e: Expr, ts: seq<nat>, n: nat, s: State, g: seq<Binding>, fuel: nat)
    requires Sources(p) && Source(e) && SameWorld(c, d) && s.gen == []
    requires TableOf(c.code, Closures(PiecesIn(p)))
    requires TableOf(d.code, Closures(PiecesIn(LoweredProgram(p, c.legacy))))
    ensures Eval(d, Lower(e, ts, n, c.legacy).e, s.(gen := g), fuel) == Tr(ts, g, Eval(c, e, s, fuel))
  {
    TablesRelated(c, d, p);
    Sim(c, d, e, ts, n, s, g, fuel);
  }

  /** Anywhere inside of a `try` block: a residual leaves by a `break` out of the innermost one, and nothing
      else leaves by a made-up label. */
  lemma OnlyResidualsJump(c: Ctx, d: Ctx, e: Expr, ts: seq<nat>, n: nat, s: State, g: seq<Binding>, fuel: nat)
    requires Start(c, d, s) && Source(e)
    ensures
      var r, low := Eval(c, e, s, fuel), Eval(d, Lower(e, ts, n, c.legacy).e, s.(gen := g), fuel);
      low.Done? && low.o.Broke? && !SourceLabel(low.o.target) <==>
        ts != [] && r.Done? && r.o.Residual? && low == Done(Broke(Try(ts[|ts| - 1]), r.o.v), r.s.(gen := g))
    ensures
      var low := Eval(d, Lower(e, ts, n, c.legacy).e, s.(gen := g), fuel);
      low.Done? ==> !low.o.Residual? && (low.o.Continued? ==> SourceLabel(low.o.target))
  {
    Sim(c, d, e, ts, n, s, g, fuel);
  }

  /** A `try` block yields its wrapped value or its first residual, and no residual passes it.  The wrapping is the last
      call that is made: of `Result::Ok` in the old library interface, and of `Try::from_output` in the new one. */
  lemma TryBlockEnds(c: Ctx, d: Ctx, inner: Expr, ts: seq<nat>, n: nat, s: State, g: seq<Binding>, fuel: nat)
    requires Start(c, d, s) && Source(inner)
    ensures
      var low := Eval(d, Lower(TryBlock(inner), ts, n, c.legacy).e, s.(gen := g), fuel);
      match Eval(c, inner, s, fuel)
      case Done(Val(v), s1) =>
        var wrap := Call(if c.legacy then "Result::Ok" else "Try::from_output", [v]);
        low == Done(Val(c.host.call(wrap.f, wrap.args, s1.trace)), s1.(gen := g, trace := s1.trace + [wrap]))
      case Done(Residual(v), s1) => low == Done(Val(v), s1.(gen := g))
      case Done(o, s1) => low == Done(o, s1.(gen := g))
      case r => low == r
  {
    var e := TryBlock(inner);
    Sim(c, d, e, ts, n, s, g, fuel);
    assert Eval(c, e, s, fuel) == EvalTry(c, e, s, fuel);
  }

  /** What is made of a `try` block: a loop that is left with the wrapped value. */
  lemma TryBlockSpelled(inner: Expr, ts: seq<nat>, n: nat, legacy: bool)
    ensures
      var low := Lower(inner, ts + [n], n + 1, legacy).e;
      Lower(TryBlock(inner), ts, n, legacy).e ==
      if legacy then Loop(Try(n), Flow(Break, Try(n), Some(CallPath("Result::Ok", [low]))))
      else Loop(Try(n), Flow(Break, Try(n), Some(CallPath("Try::from_output", [low]))))
  {
  }

  // ----- the numbers of `try` blocks

  /** Every `try` block gets a number, and a loop, of its own. */
  lemma TryNumbersDistinct(k: nat, e: Expr, ts: seq<nat>, n: nat, legacy: bool)
    requires Source(e)
    ensures OneEach(k, Loops(k, Pieces(Lower(e, ts, n, legacy).e)), n, Lower(e, ts, n, legacy).n)
  {
    Carry(k, e, ts, n, legacy);
  }

  // ----- destructuring assignment

  /** A single place is handed back unchanged, and only then (and for what cannot be assigned to) there is no block. */
  lemma {:induction false} SinglePlaceUnchanged(slot: Expr, val: Expr)
    ensures LowerAssign(slot, val) == Assign(slot, val) <==> IsPlace(slot) || !IsAssignee(slot)
  {
    AssigneesAreTaken(slot, 0);
  }

  /** The names a pattern binds, left to right. */
  function Binders(p: Pat): seq<Ident>
    decreases p
  {
    match p
    case PBind(x) => [x]
    case PTuple(start, _, end) => BindersIn(start) + BindersIn(end)
    case PSlice(ps) => BindersIn(ps)
    case PCon(_, ps) => BindersIn(ps)
    case PStruct(_, fs, _) => BindersInFields(fs)
    case _ => []
  }

  function BindersIn(ps: seq<Pat>): seq<Ident>
    decreases ps
  {
    if ps == [] then [] else Binders(ps[0]) + BindersIn(ps[1..])
  }

  function BindersInFields(fs: seq<FieldPat>): seq<Ident>
    decreases fs
  {
    if fs == [] then [] else Binders(fs[0].pat) + BindersInFields(fs[1..])
  }

  /** The places of an assignee, left to right. */
  function PlacesOf(e: Expr): seq<Expr>
    decreases e
  {
    match e
    case Tuple(es) => PlacesIn(es)
    case Array(es) => PlacesIn(es)
    case StructLit(_, fs) => PlacesInFields(fs)
    case StructLitPat(_, fs) => PlacesInFields(fs)
    case _ => if IsPlace(e) then [e] else []
  }

  function PlacesIn(es: seq<Expr>): seq<Expr>
    decreases es
  {
    if es == [] then [] else PlacesOf(es[0]) + PlacesIn(es[1..])
  }

  function PlacesInFields(fs: seq<FieldExpr>): seq<Expr>
    decreases fs
  {
    if fs == [] then [] else PlacesOf(fs[0].val) + PlacesInFields(fs[1..])
  }

  /** `_#k`, `_#(k+1)`, ... */
  function NamesFrom(k: nat, count: nat): seq<Ident>
    decreases count
  {
    if count == 0 then [] else [SlotName(k)] + NamesFrom(k + 1, count - 1)
  }

  lemma {:induction false} NamesAdd(k: nat, a: nat, b: nat)
    ensures NamesFrom(k, a + b) == NamesFrom(k, a) + NamesFrom(k + a, b)
    decreases a
  {
    if a > 0 {
      NamesAdd(k + 1, a - 1, b);
      assert NamesFrom(k, a + b) == [SlotName(k)] + NamesFrom(k + 1, a - 1 + b);
    }
  }

  lemma {:induction false} NamesAreSlots(k: nat, count: nat, i: nat)
    requires i < count
    ensures |NamesFrom(k, count)| == count && NamesFrom(k, count)[i] == SlotName(k + i)
    decreases count
  {
    if count > 1 {
      NamesAreSlots(k + 1, count - 1, if i > 0 then i - 1 else 0);
    }
  }

  /** The temporaries of an assignee are pairwise distinct, and stand in its pattern in the order of its places. */
  lemma {:induction false} TemporariesMatchPlaces(e: Expr, k: nat)
    requires ToPat(e, k).Some?
    ensures ToPat(e, k).value.places == PlacesOf(e)
    ensures Binders(ToPat(e, k).value.pat) == NamesFrom(k, |PlacesOf(e)|)
    decreases e, 2
  {
    match e
    case Tuple(es) => if RestAt(es) == |es| { TemporariesInList(es, k); } else { TemporariesAround(es, k); }
    case Array(es) => TemporariesInList(es, k);
    case StructLit(path, fs) =>
      TemporariesInFields(fs, k);
      StructBinders(path, ToFieldPats(fs, k).value.pats);
    case StructLitPat(path, fs) =>
      TemporariesInFields(fs, k);
      StructBinders(path, ToFieldPats(fs, k).value.pats);
    case _ => OneTemporary(e, k);
  }

  lemma StructBinders(path: string, fs: seq<FieldPat>)
    ensures forall all :: Binders(PStruct(path, fs, all)) == BindersInFields(fs)
  {
  }

  lemma OneTemporary(e: Expr, k: nat)
    requires ToPat(e, k).Some? && !e.Tuple? && !e.Array? && !e.StructLit? && !e.StructLitPat?
    ensures ToPat(e, k).value.places == PlacesOf(e)
    ensures Binders(ToPat(e, k).value.pat) == NamesFrom(k, |PlacesOf(e)|)
  {
    assert NamesFrom(k + 1, 0) == [];
  }

  lemma {:induction false} TemporariesAround(es: seq<Expr>, k: nat)
    requires ToPat(Tuple(es), k).Some? && RestAt(es) < |es|
    ensures
      var t := ToPat(Tuple(es), k).value;
      t.places == PlacesIn(es) && Binders(t.pat) == NamesFrom(k, |PlacesIn(es)|)
    decreases es, 1
  {
    var r := RestAt(es);
    AroundTaken(es, k);
    var a := ToPats(es[..r], k).value;
    var b := ToPats(es[r + 1..], k + |a.places|).value;
    TemporariesInList(es[..r], k);
    TemporariesInList(es[r + 1..], k + |a.places|);
    PlacesAround(es, r);
    AroundJoined(k, a, b, PlacesIn(es[..r]), PlacesIn(es[r + 1..]));
  }

  lemma AroundTaken(es: seq<Expr>, k: nat)
    requires ToPat(Tuple(es), k).Some? && RestAt(es) < |es|
    ensures
      var r := RestAt(es);
      var a := ToPats(es[..r], k);
      && a.Some?
      && var b := ToPats(es[r + 1..], k + |a.value.places|);
         && b.Some?
         && ToPat(Tuple(es), k).value == Taken(PTuple(a.value.pats, true, b.value.pats), a.value.places + b.value.places)
  {
  }

  lemma AroundJoined(k: nat, a: TakenAll, b: TakenAll, p: seq<Expr>, q: seq<Expr>)
    requires a.places == p && BindersIn(a.pats) == NamesFrom(k, |p|)
    requires b.places == q && BindersIn(b.pats) == NamesFrom(k + |p|, |q|)
    ensures a.places + b.places == p + q
    ensures Binders(PTuple(a.pats, true, b.pats)) == NamesFrom(k, |p + q|)
  {
    NamesJoined(k, |p|, |q|, BindersIn(a.pats), BindersIn(b.pats));
  }

  lemma PlacesAround(es: seq<Expr>, r: nat)
    requires r < |es| && es[r].Rest?
    ensures PlacesIn(es) == PlacesIn(es[..r]) + PlacesIn(es[r + 1..])
  {
    PlacesConcat(es[..r], es[r..]);
    assert es == es[..r] + es[r..] && es[r..][0] == es[r] && es[r..][1..] == es[r + 1..];
    assert PlacesOf(es[r]) == [];
    assert [] + PlacesIn(es[r + 1..]) == PlacesIn(es[r + 1..]);
  }

  lemma {:induction false} PlacesConcat(a: seq<Expr>, b: seq<Expr>)
    ensures PlacesIn(a + b) == PlacesIn(a) + PlacesIn(b)
    decreases a
  {
    if a == [] {
      assert a + b == b;
    } else {
      PlacesConcat(a[1..], b);
      assert (a + b)[1..] == a[1..] + b;
    }
  }

  lemma {:induction false} TemporariesInList(es: seq<Expr>, k: nat)
    requires ToPats(es, k).Some?
    ensures ToPats(es, k).value.places == PlacesIn(es)
    ensures BindersIn(ToPats(es, k).value.pats) == NamesFrom(k, |PlacesIn(es)|)
    decreases es, 0
  {
    if es != [] {
      var a := ToPat(es[0], k).value;
      var b := ToPats(es[1..], k + |a.places|).value;
      TemporariesMatchPlaces(es[0], k);
      TemporariesInList(es[1..], k + |a.places|);
      assert ([a.pat] + b.pats)[1..] == b.pats;
      NamesAdd(k, |a.places|, |b.places|);
    }
  }

  lemma NamesJoined(k: nat, a: nat, b: nat, names: seq<Ident>, more: seq<Ident>)
    requires names == NamesFrom(k, a) && more == NamesFrom(k + a, b)
    ensures names + more == NamesFrom(k, a + b)
  {
    NamesAdd(k, a, b);
  }

  lemma FieldsTaken(fs: seq<FieldExpr>, k: nat)
    requires fs != [] && ToFieldPats(fs, k).Some?
    ensures ToPat(fs[0].val, k).Some?
    ensures
      var a := ToPat(fs[0].val, k).value;
      var b := ToFieldPats(fs[1..], k + |a.places|);
      b.Some? && ToFieldPats(fs, k).value == TakenFields([FieldPat(fs[0].name, a.pat)] + b.value.pats, a.places + b.value.places)
  {
  }

  lemma BindersConsField(f: FieldPat, fs: seq<FieldPat>)
    ensures BindersInFields([f] + fs) == Binders(f.pat) + BindersInFields(fs)
  {
    assert ([f] + fs)[1..] == fs;
  }

  lemma {:induction false} TemporariesInFields(fs: seq<FieldExpr>, k: nat)
    requires ToFieldPats(fs, k).Some?
    ensures ToFieldPats(fs, k).value.places == PlacesInFields(fs)
    ensures BindersInFields(ToFieldPats(fs, k).value.pats) == NamesFrom(k, |PlacesInFields(fs)|)
    decreases fs, 0
  {
    if fs != [] {
      FieldsTaken(fs, k);
      var a := ToPat(fs[0].val, k).value;
      var b := ToFieldPats(fs[1..], k + |a.places|).value;
      TemporariesMatchPlaces(fs[0].val, k);
      TemporariesInFields(fs[1..], k + |a.places|);
      FieldsJoined(k, fs[0].name, a, b, PlacesOf(fs[0].val), PlacesInFields(fs[1..]));
    }
  }

  lemma FieldsJoined(k: nat, name: string, a: Taken, b: TakenFields, p: seq<Expr>, q: seq<Expr>)
    requires a.places == p && Binders(a.pat) == NamesFrom(k, |p|)
    requires b.places == q && BindersInFields(b.pats) == NamesFrom(k + |p|, |q|)
    ensures a.places + b.places == p + q
    ensures BindersInFields([FieldPat(name, a.pat)] + b.pats) == NamesFrom(k, |p + q|)
  {
    BindersConsField(FieldPat(name, a.pat), b.pats);
    NamesJoined(k, |p|, |q|, Binders(a.pat), BindersInFields(b.pats));
  }

  /** No two temporaries of an assignment have the same name. */
  lemma TemporariesOnce(e: Expr, i: nat, j: nat)
    requires ToPat(e, 0).Some? && i < j < |ToPat(e, 0).value.places|
    ensures
      var names := Binders(ToPat(e, 0).value.pat);
      |names| == |ToPat(e, 0).value.places| && names[i] != names[j]
  {
    TemporariesMatchPlaces(e, 0);
    var count := |PlacesOf(e)|;
    NamesAreSlots(0, count, i);
    NamesAreSlots(0, count, j);
    if SlotName(i) == SlotName(j) {
      TemporariesDistinct(i, j);
    }
  }
}
