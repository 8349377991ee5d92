/** The passes over the items of a module: what one pass defers is left for the next, and the last one defers nothing. */
module ItemPasses {
  import opened Wrappers
  import opened ItemLoop

  const MORE_PASSES := 5

  /** What macros expand to in the first pass, the second one, and so on. */
  type Expanders = nat -> Expander

  datatype Ending = Done | TooDeep | Unknown

  /** The items after so many passes, unless one of them nests too deep. */
  ghost function After(xs: Expanders, data: seq<Data>, n: nat): Option<seq<Data>> {
    if n == 0 then Some(data)
    else
      match After(xs, data, n - 1)
      case None => None
      case Some(d) =>
        match DepthFirst(xs(n - 1), d, 0, [])
        case Limit(_) => None
        case Finished(seen) => Some(AfterPass(xs(n - 1), seen))
  }

  /** What the last of so many passes looks at. */
  ghost function LastLooks(xs: Expanders, data: seq<Data>, n: nat): seq<Visit>
    requires n > 0 && After(xs, data, n).Some?
  {
    DepthFirst(xs(n - 1), After(xs, data, n - 1).value, 0, []).seen
  }

  /** The pass has expanded something, and has left something. */
  ghost predicate GoesOn(xs: Expanders, data: seq<Data>, n: nat)
    requires n > 0
  {
    && After(xs, data, n).Some?
    && Progressed(xs(n - 1), LastLooks(xs, data, n)) && LeftDeferred(xs(n - 1), LastLooks(xs, data, n))
  }

  /** So many passes are made before the last: one, and up to five more as long as they go on. */
  ghost predicate PassesBefore(xs: Expanders, data: seq<Data>, n: nat) {
    && 1 <= n <= 6 && (forall k :: 1 <= k < n ==> GoesOn(xs, data, k))
    && (n == 6 || !GoesOn(xs, data, n))
  }

  lemma ExpandedIsSettled(x: Expander, data: seq<Data>)
    requires AllExpanded(data)
    ensures Settled(x, data)
  {
  }

  /** Once everything is expanded, no number of passes changes anything, whatever the macros expand to. */
  lemma {:induction false} ExpandedStays(xs: Expanders, data: seq<Data>, n: nat)
    requires AllExpanded(data)
    ensures After(xs, data, n) == Some(data)
  {
    if n > 0 {
      ExpandedStays(xs, data, n - 1);
      ExpandedIsSettled(xs(n - 1), data);
      SettledStays(xs(n - 1), data);
    }
  }

  /** A pass that defers nothing leaves all expanded, and only such a pass does. */
  lemma PassCompletes(xs: Expanders, data: seq<Data>, n: nat)
    requires n > 0 && After(xs, data, n).Some?
    ensures AllExpanded(After(xs, data, n).value) <==> !LeftDeferred(xs(n - 1), LastLooks(xs, data, n))
  {
    UnmarkedWasDeferred(xs(n - 1), LastLooks(xs, data, n));
  }

  /** Everything is expanded in the end, or else the last pass comes upon a macro that is still unknown. */
  method Expand(m: Module, xs: Expanders) returns (r: Ending, n: nat)
    requires m.Valid()
    modifies m, m.Repr
    ensures r.Done? ==> m.Valid() && After(xs, old(DataOf(m.items)), n) == Some(DataOf(m.items)) && AllExpanded(DataOf(m.items))
    ensures !r.TooDeep? ==> n >= 2 && PassesBefore(xs, old(DataOf(m.items)), n - 1)
    ensures r.TooDeep? <==> After(xs, old(DataOf(m.items)), n).None?
    ensures r.Unknown? ==> LeftDeferred(xs(n - 1), LastLooks(xs, old(DataOf(m.items)), n))
    ensures AllExpanded(old(DataOf(m.items))) ==> r.Done? && DataOf(m.items) == old(DataOf(m.items))
  {
    ghost var data := DataOf(m.items);
    var o, change, missing := Pass(m, xs, 0, data);
    n := 1;
    if o.Limit? {
      Finally(xs, data, 1, TooDeep);
      return TooDeep, 1;
    }
    var n_iters := 0;
    while n_iters < MORE_PASSES && change && missing
      invariant n == n_iters + 1 <= 6 && m.Valid() && fresh(m.Repr - old(m.Repr))
      invariant After(xs, data, n) == Some(DataOf(m.items))
      invariant forall k :: 1 <= k < n ==> GoesOn(xs, data, k)
      invariant Flagged(xs, data, n, change, missing)
    {
      o, change, missing := Pass(m, xs, n, data);
      n := n + 1;
      if o.Limit? {
        Finally(xs, data, n, TooDeep);
        return TooDeep, n;
      }
      n_iters := n_iters + 1;
    }
    assert PassesBefore(xs, data, n);
    o, change, missing := Pass(m, xs, n, data);
    n := n + 1;
    r := if o.Limit? then TooDeep else if missing then Unknown else Done;
    Finally(xs, data, n, r);
  }

  /** Whether the last of so many passes has expanded something, and whether it has left something. */
  ghost predicate Flagged(xs: Expanders, data: seq<Data>, n: nat, change: bool, missing: bool)
    requires n > 0 && After(xs, data, n).Some?
  {
    && (change <==> Progressed(xs(n - 1), LastLooks(xs, data, n)))
    && (missing <==> LeftDeferred(xs(n - 1), LastLooks(xs, data, n)))
  }

  method Pass(m: Module, xs: Expanders, n: nat, ghost data: seq<Data>) returns (o: Outcome, change: bool, missing: bool)
    requires m.Valid() && After(xs, data, n) == Some(DataOf(m.items))
    modifies m, m.Repr
    ensures fresh(m.Repr - old(m.Repr))
    ensures o.Limit? <==> After(xs, data, n + 1).None?
    ensures o.Finished? ==> m.Valid() && After(xs, data, n + 1) == Some(DataOf(m.items))
    ensures o.Finished? ==> Flagged(xs, data, n + 1, change, missing)
  {
    ghost var was := DataOf(m.items);
    o, change, missing := m.ExpandItems(xs(n), 0);
    ghost var now := DataOf(m.items);
    assert was[0..] == was && now[0..] == now;
  }

  lemma Finally(xs: Expanders, data: seq<Data>, n: nat, r: Ending)
    requires n > 0
    requires r.TooDeep? <==> After(xs, data, n).None?
    requires !r.TooDeep? ==> (r.Unknown? <==> LeftDeferred(xs(n - 1), LastLooks(xs, data, n)))
    ensures r.Done? ==> AllExpanded(After(xs, data, n).value)
    ensures AllExpanded(data) ==> r.Done? && After(xs, data, n) == Some(data)
  {
    if !r.TooDeep? {
      PassCompletes(xs, data, n);
    }
    if AllExpanded(data) {
      ExpandedStays(xs, data, n);
    }
  }
}
