/** The expansion visitor itself: its state is the stack of `try` blocks around the node being visited,
    the number that the next one gets, and the node that is to replace the visited one.  It is proved
    to compute `Lower`. */
module Expander {
  import opened Ast
  import opened Wrappers
  import opened Semantics
  import opened Lowering
  import opened Assignment
  import opened Preservation

  // ----- what is refused

  /** Some assignment in the expression has a left side that cannot be assigned to. */
  predicate Rejected(e: Expr)
    decreases e, 1
  {
    match e
    case Tuple(es) => AnyRejected(es)
    case Array(es) => AnyRejected(es)
    case StructLit(_, fs) => FieldRejected(fs)
    case StructLitPat(_, fs) => FieldRejected(fs)
    case Field(obj, _) => Rejected(obj)
    case Index(obj, idx) => Rejected(obj) || Rejected(idx)
    case Deref(obj) => Rejected(obj)
    case CallPath(_, args) => AnyRejected(args)
    case CallObject(callee, args) => Rejected(callee) || AnyRejected(args)
    case Closure(_, _, code) => Rejected(code)
    case Block(_, nodes, _) => AnyRejected(nodes)
    case Let(_, val) => Rejected(val)
    case Assign(slot, val) => Rejected(slot) || Rejected(val) || !IsAssignee(slot)
    case Flow(_, _, opt) => opt.Some? && Rejected(opt.value)
    case Loop(_, code) => Rejected(code)
    case For(_, _, iter, code) => Rejected(iter) || Rejected(code)
    case WhileLet(_, conds, code) => CondRejected(conds) || Rejected(code)
    case Match(val, arms) => Rejected(val) || ArmRejected(arms)
    case If(cond, thn, els) => Rejected(cond) || Rejected(thn) || (els.Some? && Rejected(els.value))
    case IfLetChain(conds, thn, els) => CondRejected(conds) || Rejected(thn) || (els.Some? && Rejected(els.value))
    case TryBlock(inner) => Rejected(inner)
    case QMark(inner) => Rejected(inner)
    case _ => false
  }

  predicate AnyRejected(es: seq<Expr>)
    decreases es, 0
  {
    es != [] && (Rejected(es[0]) || AnyRejected(es[1..]))
  }

  predicate FieldRejected(fs: seq<FieldExpr>)
    decreases fs, 0
  {
    fs != [] && (Rejected(fs[0].val) || FieldRejected(fs[1..]))
  }

  predicate CondRejected(cs: seq<Cond>)
    decreases cs, 0
  {
    cs != [] && (assert cs[0].val < cs[0]; Rejected(cs[0].val) || CondRejected(cs[1..]))
  }

  predicate ArmRejected(arms: seq<Arm>)
    decreases arms, 0
  {
    arms != [] && (assert arms[0].code < arms[0]; Rejected(arms[0].code) || ArmRejected(arms[1..]))
  }

  // ----- from the left side of an assignment to a pattern

  datatype Slot = Slot(name: Ident, place: Expr)

  predicate Numbered(slots: seq<Slot>) {
    forall i :: 0 <= i < |slots| ==> slots[i].name == SlotName(i)
  }

  function Places(slots: seq<Slot>): (r: seq<Expr>)
    ensures |r| == |slots|
  {
    seq(|slots|, i requires 0 <= i < |slots| => slots[i].place)
  }

  /** Collects the places of an assignee, giving each a temporary named after its position. */
  class ToPattern {
    var slots: seq<Slot>
    var failed: bool

    constructor ()
      ensures slots == [] && !failed
    {
      slots := [];
      failed := false;
    }

    /** The expression becomes a pattern; its places are appended in order.  Fails exactly on what is not an assignee. */
    method Pattern(e: Expr) returns (p: Pat)
      requires Numbered(slots)
      modifies this
      ensures Numbered(slots)
      ensures failed <==> old(failed) || ToPat(e, old(|slots|)).None?
      ensures !failed ==>
        var t := ToPat(e, old(|slots|)).value;
        p == t.pat && Places(slots) == old(Places(slots)) + t.places
      decreases e, 1
    {
      if e.Var? || e.Field? || e.Index? || e.Deref? {
        ghost var before := Places(slots);
        p := PBind(SlotName(|slots|));
        slots := slots + [Slot(SlotName(|slots|), e)];
        assert Places(slots) == before + [e];
      } else if e.Wildcard? {
        p := PAny;
      } else if e.Tuple? {
        p := TuplePattern(e.es);
      } else if e.Array? {
        var ps := Patterns(e.es);
        p := PSlice(ps);
      } else if e.StructLit? || e.StructLitPat? {
        var ps := FieldPatterns(e.fs);
        p := PStruct(e.path, ps, e.StructLit?);
      } else {
        p, failed := PAny, true;
      }
    }

    /** A tuple is taken element by element; a `..` moves what was collected so far to the start. */
    method TuplePattern(es: seq<Expr>) returns (p: Pat)
      requires Numbered(slots)
      modifies this
      ensures Numbered(slots)
      ensures failed <==> old(failed) || ToPat(Tuple(es), old(|slots|)).None?
      ensures !failed ==>
        var t := ToPat(Tuple(es), old(|slots|)).value;
        p == t.pat && Places(slots) == old(Places(slots)) + t.places
      decreases es, 0
    {
      var start: seq<Pat>, ps: seq<Pat>, split := [], [], false;
      var i := 0;
      ghost var before := Places(slots);
      WalkStart(es, before);
      while i < |es|
        invariant 0 <= i <= |es|
        invariant Numbered(slots)
        invariant split <==> RestAt(es) < i
        invariant failed ==> old(failed) || ToPat(Tuple(es), |before|).None?
        invariant !failed ==> !old(failed) && Walking(es, i, |slots|, split, start, ps, Places(slots), before)
      {
        ghost var places := Places(slots);
        if es[i].Rest? && !split {
          if !failed {
            WalkRest(es, i, |slots|, start, ps, places, before);
          }
          split, start, ps := true, ps, [];
        } else {
          ghost var t := ToPat(es[i], |slots|);
          if !failed {
            WalkStep(es, i, |slots|, split, start, ps, places, before, t);
          }
          var q := Pattern(es[i]);
          ps := ps + [q];
        }
        i := i + 1;
      }
      if !failed {
        WalkEnd(es, |slots|, split, start, ps, Places(slots), before);
      }
      p := if split then PTuple(start, true, ps) else PTuple(ps, false, []);
    }

    method Patterns(es: seq<Expr>) returns (ps: seq<Pat>)
      requires Numbered(slots)
      modifies this
      ensures Numbered(slots)
      ensures failed <==> old(failed) || ToPats(es, old(|slots|)).None?
      ensures !failed ==>
        var t := ToPats(es, old(|slots|)).value;
        ps == t.pats && Places(slots) == old(Places(slots)) + t.places
      decreases es, 0
    {
      ps := [];
      var i := 0;
      ghost var before := Places(slots);
      ghost var all := ToPats(es, |before|);
      assert es[0..] == es;
      while i < |es|
        invariant 0 <= i <= |es|
        invariant Numbered(slots)
        invariant failed ==> old(failed) || all.None?
        invariant !failed ==> !old(failed) && Split(all, ps, Places(slots), before, ToPats(es[i..], |slots|))
      {
        ghost var t := ToPat(es[i], |slots|);
        ghost var rest := if t.Some? then ToPats(es[i + 1..], |slots| + |t.value.places|) else None;
        ToPatsCons(es, i, |slots|, t, rest);
        if !failed {
          SplitGrows(all, ps, Places(slots), before, t, rest);
        }
        var p := Pattern(es[i]);
        ps := ps + [p];
        i := i + 1;
      }
      assert es[i..] == [];
      if !failed {
        SplitEnd(all, ps, Places(slots), before);
      }
    }

    method FieldPatterns(fs: seq<FieldExpr>) returns (ps: seq<FieldPat>)
      requires Numbered(slots)
      modifies this
      ensures Numbered(slots)
      ensures failed <==> old(failed) || ToFieldPats(fs, old(|slots|)).None?
      ensures !failed ==>
        var t := ToFieldPats(fs, old(|slots|)).value;
        ps == t.pats && Places(slots) == old(Places(slots)) + t.places
      decreases fs, 0
    {
      ps := [];
      var i := 0;
      ghost var before := Places(slots);
      ghost var all := ToFieldPats(fs, |before|);
      assert fs[0..] == fs;
      while i < |fs|
        invariant 0 <= i <= |fs|
        invariant Numbered(slots)
        invariant failed ==> old(failed) || all.None?
        invariant !failed ==> !old(failed) && FieldSplit(all, ps, Places(slots), before, ToFieldPats(fs[i..], |slots|))
      {
        ghost var t := ToPat(fs[i].val, |slots|);
        ghost var rest := if t.Some? then ToFieldPats(fs[i + 1..], |slots| + |t.value.places|) else None;
        ToFieldPatsCons(fs, i, |slots|, t, rest);
        if !failed {
          FieldSplitGrows(all, ps, Places(slots), before, fs[i].name, t, rest);
        }
        var p := Pattern(fs[i].val);
        ps := ps + [FieldPat(fs[i].name, p)];
        i := i + 1;
      }
      assert fs[i..] == [];
      if !failed {
        FieldSplitEnd(all, ps, Places(slots), before);
      }
    }
  }

  /** What is made of the whole list is what was made so far and what is made of the rest. */
  ghost predicate Split(all: Option<TakenAll>, ps: seq<Pat>, places: seq<Expr>, before: seq<Expr>, rest: Option<TakenAll>) {
    && (all.Some? <==> rest.Some?)
    && (all.Some? ==> all.value.pats == ps + rest.value.pats && before + all.value.places == places + rest.value.places)
  }

  /** A list made of its first element `t` and the rest. */
  function Consed(t: Option<Taken>, rest: Option<TakenAll>): Option<TakenAll> {
    if t.Some? && rest.Some? then Some(TakenAll([t.value.pat] + rest.value.pats, t.value.places + rest.value.places)) else None
  }

  lemma SplitGrows(all: Option<TakenAll>, ps: seq<Pat>, places: seq<Expr>, before: seq<Expr>, t: Option<Taken>, rest: Option<TakenAll>)
    requires Split(all, ps, places, before, Consed(t, rest))
    ensures t.None? ==> all.None?
    ensures t.Some? ==> Split(all, ps + [t.value.pat], places + t.value.places, before, rest)
  {
    if t.Some? && rest.Some? {
      assert ps + ([t.value.pat] + rest.value.pats) == ps + [t.value.pat] + rest.value.pats;
      assert places + (t.value.places + rest.value.places) == places + t.value.places + rest.value.places;
    }
  }

  lemma SplitEnd(all: Option<TakenAll>, ps: seq<Pat>, places: seq<Expr>, before: seq<Expr>)
    requires Split(all, ps, places, before, Some(TakenAll([], [])))
    ensures all.Some? && all.value.pats == ps && places == before + all.value.places
  {
    assert ps + [] == ps && places + [] == places;
  }

  lemma ToPatsCons(es: seq<Expr>, i: nat, k: nat, t: Option<Taken>, rest: Option<TakenAll>)
    requires i < |es| && t == ToPat(es[i], k)
    requires rest == if t.Some? then ToPats(es[i + 1..], k + |t.value.places|) else None
    ensures ToPats(es[i..], k) == Consed(t, rest)
  {
    assert es[i..][0] == es[i] && es[i..][1..] == es[i + 1..];
  }

  ghost predicate FieldSplit(all: Option<TakenFields>, ps: seq<FieldPat>, places: seq<Expr>, before: seq<Expr>, rest: Option<TakenFields>) {
    && (all.Some? <==> rest.Some?)
    && (all.Some? ==> all.value.pats == ps + rest.value.pats && before + all.value.places == places + rest.value.places)
  }

  function FieldConsed(name: string, t: Option<Taken>, rest: Option<TakenFields>): Option<TakenFields> {
    if t.Some? && rest.Some? then Some(TakenFields([FieldPat(name, t.value.pat)] + rest.value.pats, t.value.places + rest.value.places)) else None
  }

  lemma FieldSplitGrows(all: Option<TakenFields>, ps: seq<FieldPat>, places: seq<Expr>, before: seq<Expr>,
                        name: string, t: Option<Taken>, rest: Option<TakenFields>)
    requires FieldSplit(all, ps, places, before, FieldConsed(name, t, rest))
    ensures t.None? ==> all.None?
    ensures t.Some? ==> FieldSplit(all, ps + [FieldPat(name, t.value.pat)], places + t.value.places, before, rest)
  {
    if t.Some? && rest.Some? {
      var p := FieldPat(name, t.value.pat);
      assert ps + ([p] + rest.value.pats) == ps + [p] + rest.value.pats;
      assert places + (t.value.places + rest.value.places) == places + t.value.places + rest.value.places;
    }
  }

  lemma FieldSplitEnd(all: Option<TakenFields>, ps: seq<FieldPat>, places: seq<Expr>, before: seq<Expr>)
    requires FieldSplit(all, ps, places, before, Some(TakenFields([], [])))
    ensures all.Some? && all.value.pats == ps && places == before + all.value.places
  {
    assert ps + [] == ps && places + [] == places;
  }

  lemma ToFieldPatsCons(fs: seq<FieldExpr>, i: nat, k: nat, t: Option<Taken>, rest: Option<TakenFields>)
    requires i < |fs| && t == ToPat(fs[i].val, k)
    requires rest == if t.Some? then ToFieldPats(fs[i + 1..], k + |t.value.places|) else None
    ensures ToFieldPats(fs[i..], k) == FieldConsed(fs[i].name, t, rest)
  {
    assert fs[i..][0] == fs[i] && fs[i..][1..] == fs[i + 1..];
  }

  /** What becomes of the elements before and after the `..`. */
  datatype Sides = Sides(first: Option<TakenAll>, second: Option<TakenAll>)

  function SidesOf(es: seq<Expr>, k: nat): Sides {
    var r := RestAt(es);
    var first := ToPats(es[..r], k);
    Sides(first, if r < |es| && first.Some? then ToPats(es[r + 1..], k + |first.value.places|) else None)
  }

  function Joined(sides: Sides, whole: bool): Option<Taken> {
    if sides.first.None? || (!whole && sides.second.None?) then None
    else if whole then Some(Taken(PTuple(sides.first.value.pats, false, []), sides.first.value.places))
    else Some(Taken(PTuple(sides.first.value.pats, true, sides.second.value.pats), sides.first.value.places + sides.second.value.places))
  }

  lemma SidesMakeTuple(es: seq<Expr>, k: nat)
    ensures ToPat(Tuple(es), k) == Joined(SidesOf(es, k), RestAt(es) == |es|)
  {
    if RestAt(es) == |es| {
      assert es[..RestAt(es)] == es;
    }
  }

  /** Where the walk over a tuple stands: `sides` is what its two sides become, and `rest` what becomes of the
      elements not yet seen of the side that is being walked. */
  ghost predicate Walk(sides: Sides, rest: Option<TakenAll>, split: bool, start: seq<Pat>, ps: seq<Pat>,
                       places: seq<Expr>, before: seq<Expr>) {
    if split then
      && sides.first.Some? && start == sides.first.value.pats
      && Split(sides.second, ps, places, before + sides.first.value.places, rest)
    else
      Split(sides.first, ps, places, before, rest)
  }

  ghost function Unseen(es: seq<Expr>, i: nat, split: bool, k: nat): Option<TakenAll>
    requires i <= |es| && (!split ==> i <= RestAt(es))
  {
    ToPats(if split then es[i..] else es[..RestAt(es)][i..], k)
  }

  ghost predicate Walking(es: seq<Expr>, i: nat, k: nat, split: bool, start: seq<Pat>, ps: seq<Pat>, places: seq<Expr>,
                          before: seq<Expr>)
    requires i <= |es|
  {
    && (split <==> RestAt(es) < i)
    && Walk(SidesOf(es, |before|), Unseen(es, i, split, k), split, start, ps, places, before)
  }

  lemma WalkElement(sides: Sides, split: bool, start: seq<Pat>, ps: seq<Pat>, places: seq<Expr>, before: seq<Expr>,
                    t: Option<Taken>, rest: Option<TakenAll>, whole: bool)
    requires Walk(sides, Consed(t, rest), split, start, ps, places, before) && (whole ==> !split)
    ensures t.None? ==> Joined(sides, whole).None?
    ensures t.Some? ==> Walk(sides, rest, split, start, ps + [t.value.pat], places + t.value.places, before)
  {
    if split {
      SplitGrows(sides.second, ps, places, before + sides.first.value.places, t, rest);
    } else {
      SplitGrows(sides.first, ps, places, before, t, rest);
    }
  }

  lemma WalkOver(sides: Sides, start: seq<Pat>, ps: seq<Pat>, places: seq<Expr>, before: seq<Expr>)
    requires Walk(sides, Some(TakenAll([], [])), false, start, ps, places, before)
    ensures sides.first.Some? && |places| == |before| + |sides.first.value.places|
    ensures Walk(sides, sides.second, true, ps, [], places, before)
  {
    assert ps + [] == ps && places + [] == places;
    if sides.second.Some? {
      assert [] + sides.second.value.pats == sides.second.value.pats;
    }
  }

  /** At the `..` of the tuple. */
  lemma WalkRest(es: seq<Expr>, i: nat, k: nat, start: seq<Pat>, ps: seq<Pat>, places: seq<Expr>, before: seq<Expr>)
    requires i == RestAt(es) < |es| && Walking(es, i, k, false, start, ps, places, before) && k == |places|
    ensures Walking(es, i + 1, k, true, ps, [], places, before)
  {
    UnseenEmpty(es, i, false, k);
    WalkOver(SidesOf(es, |before|), start, ps, places, before);
  }

  lemma WalkJoined(sides: Sides, split: bool, start: seq<Pat>, ps: seq<Pat>, places: seq<Expr>, before: seq<Expr>)
    requires Walk(sides, Some(TakenAll([], [])), split, start, ps, places, before)
    ensures
      var t := Joined(sides, !split);
      && t.Some? && t.value.pat == (if split then PTuple(start, true, ps) else PTuple(ps, false, []))
      && places == before + t.value.places
  {
    assert ps + [] == ps && places + [] == places;
    if split {
      var a, b := sides.first.value.places, sides.second.value.places;
      assert before + a + b == before + (a + b);
    }
  }

  lemma WalkEnd(es: seq<Expr>, k: nat, split: bool, start: seq<Pat>, ps: seq<Pat>, places: seq<Expr>, before: seq<Expr>)
    requires Walking(es, |es|, k, split, start, ps, places, before)
    ensures
      var t := ToPat(Tuple(es), |before|);
      && t.Some? && t.value.pat == (if split then PTuple(start, true, ps) else PTuple(ps, false, []))
      && places == before + t.value.places
  {
    UnseenEmpty(es, |es|, split, k);
    WalkJoined(SidesOf(es, |before|), split, start, ps, places, before);
    SidesMakeTuple(es, |before|);
  }

  lemma WalkStart(es: seq<Expr>, before: seq<Expr>)
    ensures Walking(es, 0, |before|, false, [], [], before, before)
  {
    var t := SidesOf(es, |before|).first;
    assert es[..RestAt(es)][0..] == es[..RestAt(es)];
    if t.Some? {
      assert [] + t.value.pats == t.value.pats;
    }
  }

  lemma UnseenCons(es: seq<Expr>, i: nat, split: bool, k: nat, t: Option<Taken>, rest: Option<TakenAll>)
    requires i < |es| && (!split ==> i < RestAt(es)) && t == ToPat(es[i], k)
    requires rest == if t.Some? then Unseen(es, i + 1, split, k + |t.value.places|) else None
    ensures Unseen(es, i, split, k) == Consed(t, rest)
  {
    if split {
      ToPatsCons(es, i, k, t, rest);
    } else {
      assert es[..RestAt(es)][i] == es[i];
      ToPatsCons(es[..RestAt(es)], i, k, t, rest);
    }
  }

  /** At any other element. */
  lemma WalkStep(es: seq<Expr>, i: nat, k: nat, split: bool, start: seq<Pat>, ps: seq<Pat>, places: seq<Expr>, before: seq<Expr>,
                 t: Option<Taken>)
    requires i < |es| && i != RestAt(es) && t == ToPat(es[i], k)
    requires Walking(es, i, k, split, start, ps, places, before)
    ensures t.None? ==> ToPat(Tuple(es), |before|).None?
    ensures t.Some? ==>
      Walking(es, i + 1, k + |t.value.places|, split, start, ps + [t.value.pat], places + t.value.places, before)
  {
    var rest := if t.Some? then Unseen(es, i + 1, split, k + |t.value.places|) else None;
    UnseenCons(es, i, split, k, t, rest);
    WalkElement(SidesOf(es, |before|), split, start, ps, places, before, t, rest, RestAt(es) == |es|);
    SidesMakeTuple(es, |before|);
  }

  lemma UnseenEmpty(es: seq<Expr>, i: nat, split: bool, k: nat)
    requires i <= |es| && if split then i == |es| else i == RestAt(es)
    ensures Unseen(es, i, split, k) == Some(TakenAll([], []))
  {
  }

  // ----- the visitor

  /** The lowered list, when `done` is what was made of its beginning. */
  ghost predicate ListSoFar(all: Lows, done: seq<Expr>, rest: Lows) {
    all.es == done + rest.es && all.n == rest.n
  }

  lemma ListStep(es: seq<Expr>, i: nat, ts: seq<nat>, n: nat, legacy: bool, all: Lows, done: seq<Expr>)
    requires i < |es| && ListSoFar(all, done, LowerList(es[i..], ts, n, legacy))
    ensures var l := Lower(es[i], ts, n, legacy); ListSoFar(all, done + [l.e], LowerList(es[i + 1..], ts, l.n, legacy))
    ensures AnyRejected(es[i..]) <==> Rejected(es[i]) || AnyRejected(es[i + 1..])
  {
    assert es[i..][0] == es[i] && es[i..][1..] == es[i + 1..];
  }

  ghost predicate FieldsSoFar(all: LowFields, done: seq<FieldExpr>, rest: LowFields) {
    all.fs == done + rest.fs && all.n == rest.n
  }

  lemma FieldsStep(fs: seq<FieldExpr>, i: nat, ts: seq<nat>, n: nat, legacy: bool, all: LowFields, done: seq<FieldExpr>)
    requires i < |fs| && FieldsSoFar(all, done, LowerFields(fs[i..], ts, n, legacy))
    ensures
      var l := Lower(fs[i].val, ts, n, legacy);
      FieldsSoFar(all, done + [FieldExpr(fs[i].name, l.e)], LowerFields(fs[i + 1..], ts, l.n, legacy))
    ensures FieldRejected(fs[i..]) <==> Rejected(fs[i].val) || FieldRejected(fs[i + 1..])
  {
    assert fs[i..][0] == fs[i] && fs[i..][1..] == fs[i + 1..];
  }

  ghost predicate CondsSoFar(all: LowConds, done: seq<Cond>, rest: LowConds) {
    all.cs == done + rest.cs && all.n == rest.n
  }

  lemma CondsStep(cs: seq<Cond>, i: nat, ts: seq<nat>, n: nat, legacy: bool, all: LowConds, done: seq<Cond>)
    requires i < |cs| && CondsSoFar(all, done, LowerConds(cs[i..], ts, n, legacy))
    ensures
      var l := Lower(cs[i].val, ts, n, legacy);
      CondsSoFar(all, done + [Cond(cs[i].pat, l.e)], LowerConds(cs[i + 1..], ts, l.n, legacy))
    ensures CondRejected(cs[i..]) <==> Rejected(cs[i].val) || CondRejected(cs[i + 1..])
  {
    assert cs[i..][0] == cs[i] && cs[i..][1..] == cs[i + 1..];
  }

  ghost predicate ArmsSoFar(all: LowArms, done: seq<Arm>, rest: LowArms) {
    all.arms == done + rest.arms && all.n == rest.n
  }

  lemma ArmsStep(arms: seq<Arm>, i: nat, ts: seq<nat>, n: nat, legacy: bool, all: LowArms, done: seq<Arm>)
    requires i < |arms| && ArmsSoFar(all, done, LowerArms(arms[i..], ts, n, legacy))
    ensures
      var l := Lower(arms[i].code, ts, n, legacy);
      ArmsSoFar(all, done + [Arm(arms[i].pat, l.e)], LowerArms(arms[i + 1..], ts, l.n, legacy))
    ensures ArmRejected(arms[i..]) <==> Rejected(arms[i].code) || ArmRejected(arms[i + 1..])
  {
    assert arms[i..][0] == arms[i] && arms[i..][1..] == arms[i + 1..];
  }

  /** The nest is built from the innermost condition outwards, so from the last one to the first. */
  method DesugarLetChain(cs: seq<Cond>, body: Expr, fail: Expr) returns (r: Expr)
    ensures r == LetChain(cs, body, fail)
  {
    r := body;
    var i := |cs|;
    while i > 0
      invariant 0 <= i <= |cs|
      invariant r == LetChain(cs[i..], body, fail)
    {
      i := i - 1;
      assert cs[i..][0] == cs[i] && cs[i..][1..] == cs[i + 1..];
      r := ChainLevel(cs[i], r, fail);
    }
    assert cs[0..] == cs;
  }

  method MakeStores(slots: seq<Slot>) returns (r: seq<Expr>)
    requires Numbered(slots)
    ensures r == Stores(Places(slots), 0)
  {
    r := [];
    var i := 0;
    ghost var places := Places(slots);
    assert places[0..] == places;
    while i < |slots|
      invariant 0 <= i <= |slots|
      invariant Stores(places, 0) == r + Stores(places[i..], i)
    {
      assert places[i..][0] == places[i] && places[i..][1..] == places[i + 1..];
      r := r + [Assign(slots[i].place, Var(slots[i].name))];
      i := i + 1;
    }
  }

  /** The labels on the stack are pairwise distinct, and none of them will be given out again. */
  ghost predicate Distinct(stack: seq<nat>, next: nat) {
    && (forall i, j :: 0 <= i < j < |stack| ==> stack[i] < stack[j])
    && (forall i :: 0 <= i < |stack| ==> stack[i] < next)
  }

  class Visitor {
    const legacy: bool
    var replacement: Option<Expr>
    var tryStack: seq<nat>
    var tryIndex: nat
    var failed: bool            // an error was reported; the source stops there

    constructor (legacy: bool)
      ensures this.legacy == legacy && replacement == None && tryStack == [] && tryIndex == 0 && !failed
    {
      this.legacy := legacy;
      replacement := None;
      tryStack := [];
      tryIndex := 0;
      failed := false;
    }

    /** Visits a node and takes what is to replace it, if anything. */
    method Visit(e: Expr) returns (r: Expr)
      requires replacement == None && Distinct(tryStack, tryIndex)
      modifies this
      ensures old(tryIndex) <= tryIndex && Distinct(tryStack, tryIndex)
      ensures replacement == None && tryStack == old(tryStack)
      ensures Low(r, tryIndex) == Lower(e, old(tryStack), old(tryIndex), legacy)
      ensures failed <==> old(failed) || Rejected(e)
      decreases e, 4
    {
      r := VisitNode(e);
      if replacement.Some? {
        r := replacement.value;
        replacement := None;
      }
    }

    /** The node as it is left by the visit; it is out of use if there is a replacement. */
    method VisitNode(e: Expr) returns (r: Expr)
      requires replacement == None && Distinct(tryStack, tryIndex)
      modifies this
      ensures old(tryIndex) <= tryIndex && Distinct(tryStack, tryIndex)
      ensures tryStack == old(tryStack)
      ensures Low(if replacement.Some? then replacement.value else r, tryIndex) == Lower(e, old(tryStack), old(tryIndex), legacy)
      ensures failed <==> old(failed) || Rejected(e)
      decreases e, 3
    {
      r := e;
      match e {
        case Closure(_, _, _) => r := VisitClosure(e);
        case Assign(_, _) => r := VisitAssign(e);
        case Flow(_, _, _) => r := VisitFlow(e);
        case For(_, _, _, _) => VisitFor(e);
        case WhileLet(_, _, _) => VisitWhileLet(e);
        case IfLetChain(_, _, _) => VisitIfLet(e);
        case TryBlock(_) => VisitTry(e);
        case QMark(inner) =>
          var l := Visit(inner);
          replacement := Some(QuestionMatch(l, tryStack, legacy));
        case _ => r := VisitParts(e);
      }
    }

    predicate Replaced(e: Expr) {
      || e.Closure? || e.Assign? || e.Flow? || e.For? || e.WhileLet? || e.IfLetChain? || e.TryBlock? || e.QMark?
    }

    /** A node that stays: its parts are visited in order. */
    method VisitParts(e: Expr) returns (r: Expr)
      requires !Replaced(e)
      requires replacement == None && Distinct(tryStack, tryIndex)
      modifies this
      ensures old(tryIndex) <= tryIndex && Distinct(tryStack, tryIndex)
      ensures replacement == None && tryStack == old(tryStack)
      ensures Low(r, tryIndex) == Lower(e, old(tryStack), old(tryIndex), legacy)
      ensures failed <==> old(failed) || Rejected(e)
      decreases e, 2
    {
      if HasList(e) {
        r := VisitList(e);
        return;
      }
      r := e;
      match e {
        case Field(obj, name) =>
          var l := Visit(obj);
          r := Field(l, name);
        case Index(obj, idx) =>
          var l := Visit(obj);
          var k := Visit(idx);
          r := Index(l, k);
        case Deref(obj) =>
          var l := Visit(obj);
          r := Deref(l);
        case Let(pat, val) =>
          var l := Visit(val);
          r := Let(pat, l);
        case Loop(lbl, code) =>
          var l := Visit(code);
          r := Loop(lbl, l);
        case If(cond, thn, els) =>
          var l := Visit(cond);
          var k := Visit(thn);
          var m := VisitOption(els);
          r := If(l, k, m);
        case Lit(_) =>
        case Var(_) =>
        case Wildcard =>
        case Rest =>
        case NextOf(_) =>
      }
    }

    predicate HasList(e: Expr) {
      e.Tuple? || e.Array? || e.StructLit? || e.StructLitPat? || e.CallPath? || e.CallObject? || e.Block? || e.Match?
    }

    /** A node that stays, with a list of parts. */
    method VisitList(e: Expr) returns (r: Expr)
      requires HasList(e)
      requires replacement == None && Distinct(tryStack, tryIndex)
      modifies this
      ensures old(tryIndex) <= tryIndex && Distinct(tryStack, tryIndex)
      ensures replacement == None && tryStack == old(tryStack)
      ensures Low(r, tryIndex) == Lower(e, old(tryStack), old(tryIndex), legacy)
      ensures failed <==> old(failed) || Rejected(e)
      decreases e, 1
    {
      if e.StructLit? || e.StructLitPat? || e.Match? {
        r := VisitEntries(e);
        return;
      }
      r := e;
      match e {
        case Tuple(es) =>
          var l := VisitVector(es);
          r := Tuple(l);
        case Array(es) =>
          var l := VisitVector(es);
          r := Array(l);
        case CallPath(f, args) =>
          var l := VisitVector(args);
          r := CallPath(f, l);
        case CallObject(callee, args) =>
          var l := Visit(callee);
          var k := VisitVector(args);
          r := CallObject(l, k);
        case Block(lbl, nodes, keep) =>
          var l := VisitVector(nodes);
          r := Block(lbl, l, keep);
      }
    }

    /** A node with a list of fields or arms. */
    method VisitEntries(e: Expr) returns (r: Expr)
      requires e.StructLit? || e.StructLitPat? || e.Match?
      requires replacement == None && Distinct(tryStack, tryIndex)
      modifies this
      ensures old(tryIndex) <= tryIndex && Distinct(tryStack, tryIndex)
      ensures replacement == None && tryStack == old(tryStack)
      ensures Low(r, tryIndex) == Lower(e, old(tryStack), old(tryIndex), legacy)
      ensures failed <==> old(failed) || Rejected(e)
      decreases e, 0
    {
      if e.Match? {
        var l := Visit(e.val);
        var k := VisitArms(e.arms);
        r := Match(l, k);
      } else {
        var l := VisitFields(e.fs);
        r := if e.StructLit? then StructLit(e.path, l) else StructLitPat(e.path, l);
      }
    }

    /** The innermost `try` block is on the stack while its body is visited, and only then. */
    method VisitTry(e: Expr)
      requires e.TryBlock? && replacement == None && Distinct(tryStack, tryIndex)
      modifies this
      ensures old(tryIndex) <= tryIndex && Distinct(tryStack, tryIndex)
      ensures tryStack == old(tryStack)
      ensures replacement.Some? && Low(replacement.value, tryIndex) == Lower(e, old(tryStack), old(tryIndex), legacy)
      ensures failed <==> old(failed) || Rejected(e)
      decreases e, 0
    {
      tryStack := tryStack + [tryIndex];
      tryIndex := tryIndex + 1;
      var inner := Visit(e.inner);
      var loopName := tryStack[|tryStack| - 1];
      tryStack := tryStack[..|tryStack| - 1];
      replacement := Some(TryLoop(loopName, inner, legacy));
    }

    /** Inside of a closure there is no `try` block around. */
    method VisitClosure(e: Expr) returns (r: Expr)
      requires e.Closure? && replacement == None && Distinct(tryStack, tryIndex)
      modifies this
      ensures old(tryIndex) <= tryIndex && Distinct(tryStack, tryIndex)
      ensures tryStack == old(tryStack) && replacement == None
      ensures Low(r, tryIndex) == Lower(e, old(tryStack), old(tryIndex), legacy)
      ensures failed <==> old(failed) || Rejected(e)
      decreases e, 0
    {
      var saved := tryStack;
      tryStack := [];
      var code := Visit(e.code);
      tryStack := saved;
      r := Closure(e.id, e.params, code);
    }

    method VisitFlow(e: Expr) returns (r: Expr)
      requires e.Flow? && replacement == None && Distinct(tryStack, tryIndex)
      modifies this
      ensures old(tryIndex) <= tryIndex && Distinct(tryStack, tryIndex)
      ensures tryStack == old(tryStack)
      ensures Low(if replacement.Some? then replacement.value else r, tryIndex) == Lower(e, old(tryStack), old(tryIndex), legacy)
      ensures failed <==> old(failed) || Rejected(e)
      decreases e, 0
    {
      var opt := VisitOption(e.opt);
      r := Flow(e.kind, e.target, opt);
      if e.kind.Yeet? {
        replacement := Some(LowerYeet(tryStack, opt));
      }
    }

    method VisitFor(e: Expr)
      requires e.For? && replacement == None && Distinct(tryStack, tryIndex)
      modifies this
      ensures old(tryIndex) <= tryIndex && Distinct(tryStack, tryIndex)
      ensures tryStack == old(tryStack)
      ensures replacement.Some? && Low(replacement.value, tryIndex) == Lower(e, old(tryStack), old(tryIndex), legacy)
      ensures failed <==> old(failed) || Rejected(e)
      decreases e, 0
    {
      var iter := Visit(e.iter);
      var code := Visit(e.code);
      replacement := Some(ForLoop(e.lbl, e.pat, iter, code));
    }

    method VisitWhileLet(e: Expr)
      requires e.WhileLet? && replacement == None && Distinct(tryStack, tryIndex)
      modifies this
      ensures old(tryIndex) <= tryIndex && Distinct(tryStack, tryIndex)
      ensures tryStack == old(tryStack)
      ensures replacement.Some? && Low(replacement.value, tryIndex) == Lower(e, old(tryStack), old(tryIndex), legacy)
      ensures failed <==> old(failed) || Rejected(e)
      decreases e, 0
    {
      var conds := VisitConds(e.conds);
      var code := Visit(e.code);
      var body := DesugarLetChain(conds, code, Flow(Break, e.lbl, None));
      replacement := Some(Loop(e.lbl, body));
    }

    method VisitIfLet(e: Expr)
      requires e.IfLetChain? && replacement == None && Distinct(tryStack, tryIndex)
      modifies this
      ensures old(tryIndex) <= tryIndex && Distinct(tryStack, tryIndex)
      ensures tryStack == old(tryStack)
      ensures replacement.Some? && Low(replacement.value, tryIndex) == Lower(e, old(tryStack), old(tryIndex), legacy)
      ensures failed <==> old(failed) || Rejected(e)
      decreases e, 0
    {
      var conds := VisitConds(e.conds);
      var thn := Visit(e.thn);
      var els := VisitOption(e.els);
      var body := DesugarLetChain(conds, Flow(Break, IfLet, Some(thn)), Block(NoLabel, [], true));
      replacement := Some(Block(IfLet, [body, if els.Some? then els.value else Tuple([])], true));
    }

    /** A left side that is a single place is handed back; any other becomes a pattern and assignments. */
    method VisitAssign(e: Expr) returns (r: Expr)
      requires e.Assign? && replacement == None && Distinct(tryStack, tryIndex)
      modifies this
      ensures old(tryIndex) <= tryIndex && Distinct(tryStack, tryIndex)
      ensures tryStack == old(tryStack)
      ensures Low(if replacement.Some? then replacement.value else r, tryIndex) == Lower(e, old(tryStack), old(tryIndex), legacy)
      ensures failed <==> old(failed) || Rejected(e)
      decreases e, 0
    {
      var slot := Visit(e.slot);
      var val := Visit(e.val);
      r := Assign(slot, val);
      LowerKeepsAssignee(e.slot, old(tryStack), old(tryIndex), legacy);
      AssigneesAreTaken(slot, 0);
      var v := new ToPattern();
      var pat := v.Pattern(slot);
      if v.failed {
        failed := true;
      } else {
        assert Places(v.slots) == ToPat(slot, 0).value.places;
        if pat.PBind? {
          BoundMeansPlace(slot, 0);
          assert Places(v.slots)[0] == slot;
          r := Assign(v.slots[0].place, val);
        } else {
          var stores := MakeStores(v.slots);
          assert stores == Stores(ToPat(slot, 0).value.places, 0);
          replacement := Some(Block(NoLabel, [Let(pat, val)] + stores, false));
        }
      }
    }

    method VisitOption(opt: Option<Expr>) returns (r: Option<Expr>)
      requires replacement == None && Distinct(tryStack, tryIndex)
      modifies this
      ensures old(tryIndex) <= tryIndex && Distinct(tryStack, tryIndex)
      ensures replacement == None && tryStack == old(tryStack)
      ensures LowOpt(r, tryIndex) == LowerOpt(opt, old(tryStack), old(tryIndex), legacy)
      ensures failed <==> old(failed) || (opt.Some? && Rejected(opt.value))
      decreases opt, 0
    {
      r := opt;
      if opt.Some? {
        var e := Visit(opt.value);
        r := Some(e);
      }
    }

    method VisitVector(es: seq<Expr>) returns (r: seq<Expr>)
      requires replacement == None && Distinct(tryStack, tryIndex)
      modifies this
      ensures old(tryIndex) <= tryIndex && Distinct(tryStack, tryIndex)
      ensures replacement == None && tryStack == old(tryStack)
      ensures Lows(r, tryIndex) == LowerList(es, old(tryStack), old(tryIndex), legacy)
      ensures failed <==> old(failed) || AnyRejected(es)
      decreases es, 0
    {
      r := [];
      var i := 0;
      ghost var all := LowerList(es, tryStack, tryIndex, legacy);
      assert es[0..] == es;
      while i < |es|
        invariant 0 <= i <= |es|
        invariant replacement == None && tryStack == old(tryStack) && old(tryIndex) <= tryIndex
        invariant ListSoFar(all, r, LowerList(es[i..], tryStack, tryIndex, legacy))
        invariant (failed || AnyRejected(es[i..])) <==> (old(failed) || AnyRejected(es))
      {
        ListStep(es, i, tryStack, tryIndex, legacy, all, r);
        var e := Visit(es[i]);
        r := r + [e];
        i := i + 1;
      }
    }

    method VisitFields(fs: seq<FieldExpr>) returns (r: seq<FieldExpr>)
      requires replacement == None && Distinct(tryStack, tryIndex)
      modifies this
      ensures old(tryIndex) <= tryIndex && Distinct(tryStack, tryIndex)
      ensures replacement == None && tryStack == old(tryStack)
      ensures LowFields(r, tryIndex) == LowerFields(fs, old(tryStack), old(tryIndex), legacy)
      ensures failed <==> old(failed) || FieldRejected(fs)
      decreases fs, 0
    {
      r := [];
      var i := 0;
      ghost var all := LowerFields(fs, tryStack, tryIndex, legacy);
      assert fs[0..] == fs;
      while i < |fs|
        invariant 0 <= i <= |fs|
        invariant replacement == None && tryStack == old(tryStack) && old(tryIndex) <= tryIndex
        invariant FieldsSoFar(all, r, LowerFields(fs[i..], tryStack, tryIndex, legacy))
        invariant (failed || FieldRejected(fs[i..])) <==> (old(failed) || FieldRejected(fs))
      {
        FieldsStep(fs, i, tryStack, tryIndex, legacy, all, r);
        var e := Visit(fs[i].val);
        r := r + [FieldExpr(fs[i].name, e)];
        i := i + 1;
      }
    }

    method VisitConds(cs: seq<Cond>) returns (r: seq<Cond>)
      requires replacement == None && Distinct(tryStack, tryIndex)
      modifies this
      ensures old(tryIndex) <= tryIndex && Distinct(tryStack, tryIndex)
      ensures replacement == None && tryStack == old(tryStack)
      ensures LowConds(r, tryIndex) == LowerConds(cs, old(tryStack), old(tryIndex), legacy)
      ensures failed <==> old(failed) || CondRejected(cs)
      decreases cs, 0
    {
      r := [];
      var i := 0;
      ghost var all := LowerConds(cs, tryStack, tryIndex, legacy);
      assert cs[0..] == cs;
      while i < |cs|
        invariant 0 <= i <= |cs|
        invariant replacement == None && tryStack == old(tryStack) && old(tryIndex) <= tryIndex
        invariant CondsSoFar(all, r, LowerConds(cs[i..], tryStack, tryIndex, legacy))
        invariant (failed || CondRejected(cs[i..])) <==> (old(failed) || CondRejected(cs))
      {
        CondsStep(cs, i, tryStack, tryIndex, legacy, all, r);
        assert cs[i].val < cs[i];
        var e := Visit(cs[i].val);
        r := r + [Cond(cs[i].pat, e)];
        i := i + 1;
      }
    }

    method VisitArms(arms: seq<Arm>) returns (r: seq<Arm>)
      requires replacement == None && Distinct(tryStack, tryIndex)
      modifies this
      ensures old(tryIndex) <= tryIndex && Distinct(tryStack, tryIndex)
      ensures replacement == None && tryStack == old(tryStack)
      ensures LowArms(r, tryIndex) == LowerArms(arms, old(tryStack), old(tryIndex), legacy)
      ensures failed <==> old(failed) || ArmRejected(arms)
      decreases arms, 0
    {
      r := [];
      var i := 0;
      ghost var all := LowerArms(arms, tryStack, tryIndex, legacy);
      assert arms[0..] == arms;
      while i < |arms|
        invariant 0 <= i <= |arms|
        invariant replacement == None && tryStack == old(tryStack) && old(tryIndex) <= tryIndex
        invariant ArmsSoFar(all, r, LowerArms(arms[i..], tryStack, tryIndex, legacy))
        invariant (failed || ArmRejected(arms[i..])) <==> (old(failed) || ArmRejected(arms))
      {
        ArmsStep(arms, i, tryStack, tryIndex, legacy, all, r);
        assert arms[i].code < arms[i];
        var e := Visit(arms[i].code);
        r := r + [Arm(arms[i].pat, e)];
        i := i + 1;
      }
    }
  }

  /** Only a single place becomes a bare binding, and that place is then the only one collected. */
  lemma BoundMeansPlace(e: Expr, k: nat)
    requires ToPat(e, k).Some? && ToPat(e, k).value.pat.PBind?
    ensures IsPlace(e) && ToPat(e, k).value.places == [e]
  {
  }
}
