/** The loop over the items of a module, which splices the expansions of macro invocations into the
    list that it walks, and guards against runaway recursion with a stack of end markers. */
module ItemLoop {
  import opened Wrappers

  const MAX_MACRO_RECURSION := 200

  /** What an item is when it is looked at.  Anything but a macro invocation is only passed by. */
  datatype Data =
    | Plain(name: string)
    | Invocation(call: string, expanded: bool)

  /** An item that was looked at, and how many expansions it came out of. */
  datatype Visit = Visit(data: Data, depth: nat)

  /** What an invocation expands to, given what was looked at before it; nothing if its macro is not known (yet). */
  type Expander = (seq<Visit>, string) -> Option<seq<Data>>

  /** Everything that was looked at; `Limit` if that ended with the error about too deep a recursion. */
  datatype Outcome = Finished(seen: seq<Visit>) | Limit(seen: seq<Visit>)

  // ----- the order that is promised: depth first

  /** Each item is looked at, then what it expands to, then the items after it. */
  function DepthFirst(x: Expander, items: seq<Data>, depth: nat, seen: seq<Visit>): (r: Outcome)
    ensures |seen| <= |r.seen|
    decreases if depth <= MAX_MACRO_RECURSION then MAX_MACRO_RECURSION + 1 - depth else 0, |items|
  {
    if items == [] then Finished(seen)
    else
      var i := items[0];
      var now := seen + [Visit(i, depth)];
      if i.Invocation? && depth > MAX_MACRO_RECURSION then Limit(now)
      else
        match Expansion(x, i, seen)
        case None => DepthFirst(x, items[1..], depth, now)
        case Some(made) =>
          match DepthFirst(x, made, depth + 1, now)
          case Limit(s) => Limit(s)
          case Finished(s) => DepthFirst(x, items[1..], depth, s)
  }

  function Expansion(x: Expander, i: Data, seen: seq<Visit>): Option<seq<Data>> {
    if i.Invocation? && !i.expanded then x(seen, i.call) else None
  }

  /** No item is looked at deeper than one above the limit, and the error is about an invocation right there. */
  lemma {:induction false} DepthBounded(x: Expander, items: seq<Data>, depth: nat, seen: seq<Visit>)
    requires depth <= MAX_MACRO_RECURSION + 1
    requires forall k :: 0 <= k < |seen| ==> seen[k].depth <= 201
    ensures
      var r := DepthFirst(x, items, depth, seen);
      && (forall k :: 0 <= k < |r.seen| ==> r.seen[k].depth <= 201)
      && (r.Limit? ==> r.seen != [] && r.seen[|r.seen| - 1].depth == 201 && r.seen[|r.seen| - 1].data.Invocation?)
    decreases MAX_MACRO_RECURSION + 1 - depth, |items|
  {
    if items != [] {
      var i := items[0];
      var now := seen + [Visit(i, depth)];
      if !(i.Invocation? && depth > MAX_MACRO_RECURSION) {
        var made := Expansion(x, i, seen);
        if made.Some? {
          DepthBounded(x, made.value, depth + 1, now);
          var r := DepthFirst(x, made.value, depth + 1, now);
          if r.Finished? {
            DepthBounded(x, items[1..], depth, r.seen);
          }
        } else {
          DepthBounded(x, items[1..], depth, now);
        }
      }
    }
  }

  /** An invocation that always expands to itself ends with the error, after one look at each depth. */
  lemma {:induction false} EndlessRecursionStops(x: Expander, call: string, depth: nat, seen: seq<Visit>)
    requires depth <= MAX_MACRO_RECURSION + 1
    requires forall h :: x(h, call) == Some([Invocation(call, false)])
    ensures
      var r := DepthFirst(x, [Invocation(call, false)], depth, seen);
      r.Limit? && |r.seen| == |seen| + 202 - depth
    decreases MAX_MACRO_RECURSION + 1 - depth
  {
    var i := Invocation(call, false);
    if depth <= MAX_MACRO_RECURSION {
      assert x(seen, call) == Some([i]);
      EndlessRecursionStops(x, call, depth + 1, seen + [Visit(i, depth)]);
    }
  }

  // ----- what becomes of an invocation

  /** An invocation that no look before has expanded, and this one does. */
  ghost predicate Takes(x: Expander, before: seq<Visit>, i: Data) {
    i.Invocation? && !i.expanded && x(before, i.call).Some?
  }

  /** An invocation of a macro that is not known yet. */
  ghost predicate Defers(x: Expander, before: seq<Visit>, i: Data) {
    i.Invocation? && !i.expanded && x(before, i.call).None?
  }

  ghost predicate Progressed(x: Expander, seen: seq<Visit>) {
    exists k :: 0 <= k < |seen| && Takes(x, seen[..k], seen[k].data)
  }

  ghost predicate LeftDeferred(x: Expander, seen: seq<Visit>) {
    exists k :: 0 <= k < |seen| && Defers(x, seen[..k], seen[k].data)
  }

  /** What stays of an item after a look: it is marked if the look has expanded it, and else as it was. */
  ghost function Kept(x: Expander, before: seq<Visit>, i: Data): Data {
    if Takes(x, before, i) then Invocation(i.call, true) else i
  }

  /** The list after a pass that has looked at all of it. */
  ghost function AfterPass(x: Expander, seen: seq<Visit>): (r: seq<Data>)
    ensures |r| == |seen|
  {
    seq(|seen|, k requires 0 <= k < |seen| => Kept(x, seen[..k], seen[k].data))
  }

  ghost predicate AllExpanded(data: seq<Data>) {
    forall k :: 0 <= k < |data| && data[k].Invocation? ==> data[k].expanded
  }

  /** Nothing that is still to be expanded has a macro that is known. */
  ghost predicate Settled(x: Expander, data: seq<Data>) {
    forall k, before :: 0 <= k < |data| ==> !Takes(x, before, data[k])
  }

  function Looks(data: seq<Data>, depth: nat): (r: seq<Visit>)
    ensures |r| == |data|
  {
    seq(|data|, k requires 0 <= k < |data| => Visit(data[k], depth))
  }

  lemma {:induction false} SettledPass(x: Expander, data: seq<Data>, depth: nat, seen: seq<Visit>)
    requires Settled(x, data) && depth <= MAX_MACRO_RECURSION
    ensures DepthFirst(x, data, depth, seen) == Finished(seen + Looks(data, depth))
    decreases |data|
  {
    if data == [] {
      assert seen + Looks(data, depth) == seen;
    } else {
      var now := seen + [Visit(data[0], depth)];
      assert !Takes(x, seen, data[0]);
      SettledPass(x, data[1..], depth, now);
      assert now + Looks(data[1..], depth) == seen + Looks(data, depth);
    }
  }

  /** A pass that can expand nothing looks at every item once and leaves the list as it is. */
  lemma SettledStays(x: Expander, data: seq<Data>)
    requires Settled(x, data)
    ensures DepthFirst(x, data, 0, []) == Finished(Looks(data, 0)) && AfterPass(x, Looks(data, 0)) == data
    ensures !Progressed(x, Looks(data, 0))
  {
    SettledPass(x, data, 0, []);
    assert [] + Looks(data, 0) == Looks(data, 0);
  }

  /** What is not marked after a pass is what the pass has deferred. */
  lemma UnmarkedWasDeferred(x: Expander, seen: seq<Visit>)
    ensures forall k :: 0 <= k < |seen| && AfterPass(x, seen)[k].Invocation? && !AfterPass(x, seen)[k].expanded ==> Defers(x, seen[..k], seen[k].data)
    ensures AllExpanded(AfterPass(x, seen)) <==> !LeftDeferred(x, seen)
  {
    if LeftDeferred(x, seen) {
      var k :| 0 <= k < |seen| && Defers(x, seen[..k], seen[k].data);
      assert AfterPass(x, seen)[k] == seen[k].data;
    }
  }

  lemma OneMore(x: Expander, seen: seq<Visit>, v: Visit)
    ensures Progressed(x, seen + [v]) <==> Progressed(x, seen) || Takes(x, seen, v.data)
    ensures LeftDeferred(x, seen + [v]) <==> LeftDeferred(x, seen) || Defers(x, seen, v.data)
  {
    var now := seen + [v];
    assert now[..|seen|] == seen;
    forall k | 0 <= k < |seen| ensures now[..k] == seen[..k] && now[k] == seen[k] {
    }
    if Progressed(x, seen) {
      var k :| 0 <= k < |seen| && Takes(x, seen[..k], seen[k].data);
      assert Takes(x, now[..k], now[k].data);
    }
    if LeftDeferred(x, seen) {
      var k :| 0 <= k < |seen| && Defers(x, seen[..k], seen[k].data);
      assert Defers(x, now[..k], now[k].data);
    }
    assert Takes(x, seen, v.data) ==> Takes(x, now[..|seen|], now[|seen|].data);
    assert Defers(x, seen, v.data) ==> Defers(x, now[..|seen|], now[|seen|].data);
  }

  // ----- what is left to do

  /** A stretch of the list, and how deep its items are. */
  datatype Stretch = Stretch(items: seq<Data>, depth: nat)

  /** The stretches are done from the last to the first. */
  function Finish(x: Expander, work: seq<Stretch>, seen: seq<Visit>): Outcome
    decreases |work|
  {
    if work == [] then Finished(seen)
    else
      var top := work[|work| - 1];
      match DepthFirst(x, top.items, top.depth, seen)
      case Limit(s) => Limit(s)
      case Finished(s) => Finish(x, work[..|work| - 1], s)
  }

  lemma {:induction false} FinishKeeps(x: Expander, work: seq<Stretch>, seen: seq<Visit>)
    ensures |Finish(x, work, seen).seen| >= |seen|
    decreases |work|
  {
    if work != [] {
      var top := work[|work| - 1];
      var r := DepthFirst(x, top.items, top.depth, seen);
      if r.Finished? {
        FinishKeeps(x, work[..|work| - 1], r.seen);
      }
    }
  }

  /** An empty stretch is done. */
  lemma FinishEmpty(x: Expander, work: seq<Stretch>, depth: nat, seen: seq<Visit>)
    ensures Finish(x, work + [Stretch([], depth)], seen) == Finish(x, work, seen)
  {
    var all := work + [Stretch([], depth)];
    assert all[..|all| - 1] == work;
  }

  lemma {:induction false} FinishAllEmpty(x: Expander, work: seq<Stretch>, seen: seq<Visit>)
    requires forall j :: 0 <= j < |work| ==> work[j].items == []
    ensures Finish(x, work, seen) == Finished(seen)
    decreases |work|
  {
    if work != [] {
      FinishAllEmpty(x, work[..|work| - 1], seen);
    }
  }

  lemma DepthFirstStep(x: Expander, i: Data, rest: seq<Data>, depth: nat, seen: seq<Visit>)
    ensures DepthFirst(x, [i] + rest, depth, seen) == LookedFirst(x, i, rest, depth, seen)
  {
    assert ([i] + rest)[1..] == rest;
  }

  ghost function LookedFirst(x: Expander, i: Data, rest: seq<Data>, depth: nat, seen: seq<Visit>): Outcome {
    var now, made := seen + [Visit(i, depth)], Expansion(x, i, seen);
    if i.Invocation? && depth > MAX_MACRO_RECURSION then Limit(now)
    else if made.None? then DepthFirst(x, rest, depth, now)
    else
      var r := DepthFirst(x, made.value, depth + 1, now);
      if r.Limit? then r else DepthFirst(x, rest, depth, r.seen)
  }

  lemma FinishLast(x: Expander, work: seq<Stretch>, top: Stretch, seen: seq<Visit>)
    ensures
      var r := DepthFirst(x, top.items, top.depth, seen);
      Finish(x, work + [top], seen) == if r.Limit? then r else Finish(x, work, r.seen)
  {
    assert (work + [top])[..|work|] == work;
  }

  /** Looking at the first item of the last stretch. */
  lemma FinishStep(x: Expander, work: seq<Stretch>, i: Data, rest: seq<Data>, depth: nat, seen: seq<Visit>)
    ensures Finish(x, work + [Stretch([i] + rest, depth)], seen) == AfterLook(x, i, work + [Stretch(rest, depth)], depth, seen)
  {
    var less := work + [Stretch(rest, depth)];
    var now := seen + [Visit(i, depth)];
    DepthFirstStep(x, i, rest, depth, seen);
    FinishLast(x, work, Stretch([i] + rest, depth), seen);
    FinishLast(x, work, Stretch(rest, depth), now);
    var made := Expansion(x, i, seen);
    if made.Some? {
      FinishLast(x, less, Stretch(made.value, depth + 1), now);
      var r := DepthFirst(x, made.value, depth + 1, now);
      FinishLast(x, work, Stretch(rest, depth), r.seen);
    }
  }

  // ----- the loop

  class Item {
    var data: Data

    constructor (data: Data)
      ensures this.data == data
    {
      this.data := data;
    }
  }

  ghost predicate NoDuplicates(items: seq<Item>) {
    forall i, j :: 0 <= i < j < |items| ==> items[i] != items[j]
  }

  ghost function DataOf(items: seq<Item>): (r: seq<Data>)
    reads items
    ensures |r| == |items|
  {
    seq(|items|, i requires 0 <= i < |items| reads items => items[i].data)
  }

  /** The places in the list where the expansions under way end; they enclose one another. */
  ghost predicate Nested(ends: seq<nat>, from: nat, length: nat) {
    && (forall j :: 0 <= j < |ends| ==> from <= ends[j] <= length)
    && (forall j, k :: 0 <= j < k < |ends| ==> ends[k] <= ends[j])
  }

  /** A marker is the item that comes after the expansion, or null if none does. */
  ghost predicate Marked(stack: seq<Item?>, ends: seq<nat>, items: seq<Item>) {
    && |stack| == |ends|
    && forall j :: 0 <= j < |stack| ==> ends[j] <= |items| && stack[j] == if ends[j] < |items| then items[ends[j]] else null
  }

  /** What is left of the list, cut where expansions end: the last stretch is the innermost. */
  ghost function Stretches(data: seq<Data>, from: nat, ends: seq<nat>): (r: seq<Stretch>)
    requires from <= |data| && Nested(ends, from, |data|)
    ensures |r| == |ends| + 1
    decreases |ends|
  {
    if ends == [] then [Stretch(data[from..], 0)]
    else
      var e := ends[|ends| - 1];
      Stretches(data, e, ends[..|ends| - 1]) + [Stretch(data[from..e], |ends|)]
  }

  /** Only what is left counts, not where in the list it stands. */
  lemma {:induction false} StretchesMoved(a: seq<Data>, m: nat, endsA: seq<nat>, b: seq<Data>, n: nat, endsB: seq<nat>)
    requires m <= |a| && n <= |b| && a[m..] == b[n..]
    requires Nested(endsA, m, |a|) && Nested(endsB, n, |b|) && |endsA| == |endsB|
    requires forall j :: 0 <= j < |endsA| ==> endsA[j] - m == endsB[j] - n
    ensures Stretches(a, m, endsA) == Stretches(b, n, endsB)
    decreases |endsA|
  {
    if endsA != [] {
      var last := |endsA| - 1;
      var e, f := endsA[last], endsB[last];
      assert a[m..][..e - m] == a[m..e] && b[n..][..f - n] == b[n..f];
      assert a[m..][e - m..] == a[e..] && b[n..][f - n..] == b[f..];
      StretchesMoved(a, e, endsA[..last], b, f, endsB[..last]);
    }
  }

  /** Where the innermost expansion under way ends. */
  ghost function InnerEnd(ends: seq<nat>, length: nat): nat {
    if ends == [] then length else ends[|ends| - 1]
  }

  /** All stretches but the innermost. */
  ghost function Outer(data: seq<Data>, ends: seq<nat>): seq<Stretch>
    requires Nested(ends, 0, |data|)
  {
    if ends == [] then [] else Stretches(data, ends[|ends| - 1], ends[..|ends| - 1])
  }

  lemma StretchesInner(data: seq<Data>, from: nat, ends: seq<nat>)
    requires from <= |data| && Nested(ends, from, |data|)
    ensures Stretches(data, from, ends) == Outer(data, ends) + [Stretch(data[from..InnerEnd(ends, |data|)], |ends|)]
  {
    if ends == [] {
      assert data[from..] == data[from..|data|];
      assert [] + [Stretch(data[from..], 0)] == [Stretch(data[from..], 0)];
    }
  }

  ghost function Shifted(ends: seq<nat>, n: nat): (r: seq<nat>)
    ensures |r| == |ends|
  {
    seq(|ends|, j requires 0 <= j < |ends| => ends[j] + n)
  }

  lemma StretchesPush(data: seq<Data>, from: nat, ends: seq<nat>, e: nat)
    requires from <= e <= |data| && Nested(ends, e, |data|)
    ensures Nested(ends + [e], from, |data|)
    ensures Stretches(data, from, ends + [e]) == Stretches(data, e, ends) + [Stretch(data[from..e], |ends| + 1)]
  {
    assert (ends + [e])[..|ends|] == ends;
  }

  lemma NestedShifted(ends: seq<nat>, from: nat, length: nat, n: nat)
    requires Nested(ends, from, length)
    ensures Nested(Shifted(ends, n), from + n, length + n)
  {
  }

  /** After an expansion is put in, its items are the innermost stretch. */
  lemma StretchesSpliced(data: seq<Data>, at: nat, ends: seq<nat>, made: seq<Data>, after: seq<Data>)
    requires at < |data| && Nested(ends, at + 1, |data|)
    requires |after| == |data| + |made| && after[at + 1..] == made + data[at + 1..]
    ensures
      var ends' := Shifted(ends, |made|) + [at + 1 + |made|];
      && Nested(ends', at + 1, |after|)
      && Stretches(after, at + 1, ends') == Stretches(data, at + 1, ends) + [Stretch(made, |ends| + 1)]
  {
    var moved, e := Shifted(ends, |made|), at + 1 + |made|;
    AfterSplice(data, at, made, after);
    NestedShifted(ends, at + 1, |data|, |made|);
    assert Nested(moved, e, |after|);
    SplicedAt(data, at + 1, ends, after, e, moved);
    StretchesPush(after, at + 1, moved, e);
  }

  lemma SplicedAt(data: seq<Data>, m: nat, ends: seq<nat>, after: seq<Data>, n: nat, moved: seq<nat>)
    requires m <= n && m <= |data| && n <= |after| && after[n..] == data[m..]
    requires Nested(ends, m, |data|) && Nested(moved, n, |after|) && moved == Shifted(ends, n - m)
    ensures Stretches(after, n, moved) == Stretches(data, m, ends)
  {
    StretchesMoved(after, n, moved, data, m, ends);
  }

  lemma AfterSplice(data: seq<Data>, at: nat, made: seq<Data>, after: seq<Data>)
    requires at < |data| && |after| == |data| + |made| && after[at + 1..] == made + data[at + 1..]
    ensures after[at + 1..at + 1 + |made|] == made && after[at + 1 + |made|..] == data[at + 1..]
  {
    assert after[at + 1..][..|made|] == made && after[at + 1..at + 1 + |made|] == after[at + 1..][..|made|];
    assert after[at + 1..][|made|..] == data[at + 1..];
  }

  lemma {:induction false} StretchesOver(data: seq<Data>, ends: seq<nat>)
    requires Nested(ends, |data|, |data|)
    ensures forall j :: 0 <= j <= |ends| ==> Stretches(data, |data|, ends)[j].items == []
    decreases |ends|
  {
    if ends != [] {
      StretchesOver(data, ends[..|ends| - 1]);
    }
  }

  /** The list holds what was looked at, marked if it was expanded. */
  ghost predicate SeenInOrder(x: Expander, seen: seq<Visit>, data: seq<Data>) {
    |seen| <= |data| && forall i :: 0 <= i < |seen| ==> data[i] == Kept(x, seen[..i], seen[i].data)
  }

  /** The state of the loop: what is left to do yields what the depth-first order promises. */
  ghost predicate UnderWay(x: Expander, total: Outcome, data: seq<Data>, first: nat, idx: nat, ends: seq<nat>, seen: seq<Visit>) {
    && first <= idx <= |data| && |seen| == idx - first
    && Nested(ends, idx, |data|)
    && Finish(x, Stretches(data, idx, ends), seen) == total
    && SeenInOrder(x, seen, data[first..])
  }

  lemma Starts(x: Expander, data: seq<Data>, first: nat)
    requires first <= |data|
    ensures UnderWay(x, DepthFirst(x, data[first..], 0, []), data, first, first, [], [])
  {
    var all := [Stretch(data[first..], 0)];
    assert all[..0] == [];
  }

  lemma Popped(x: Expander, total: Outcome, data: seq<Data>, first: nat, idx: nat, ends: seq<nat>, seen: seq<Visit>)
    requires UnderWay(x, total, data, first, idx, ends, seen) && ends != [] && ends[|ends| - 1] == idx
    ensures UnderWay(x, total, data, first, idx, ends[..|ends| - 1], seen)
  {
    FinishEmpty(x, Stretches(data, idx, ends[..|ends| - 1]), |ends|, seen);
    assert data[idx..idx] == [];
  }

  lemma Looked(x: Expander, total: Outcome, data: seq<Data>, first: nat, idx: nat, ends: seq<nat>, seen: seq<Visit>)
    requires UnderWay(x, total, data, first, idx, ends, seen) && idx < |data| && Nested(ends, idx + 1, |data|)
    ensures
      var now := seen + [Visit(data[idx], |ends|)];
      |now| <= |total.seen| && total == AfterLook(x, data[idx], Stretches(data, idx + 1, ends), |ends|, seen)
  {
    var rest := HeadSplit(data, idx, ends);
    FinishStep(x, Outer(data, ends), data[idx], rest, |ends|, seen);
    AfterLookKeeps(x, data[idx], Stretches(data, idx + 1, ends), |ends|, seen);
  }

  lemma LookedAt(x: Expander, total: Outcome, data: seq<Data>, first: nat, idx: nat, ends: seq<nat>, seen: seq<Visit>)
    requires UnderWay(x, total, data, first, idx, ends, seen) && idx < |data| && Nested(ends, idx + 1, |data|)
    ensures |seen| + 1 <= |total.seen|
    ensures data[idx].Invocation? && |ends| > MAX_MACRO_RECURSION ==> total == Limit(seen + [Visit(data[idx], |ends|)])
  {
    Looked(x, total, data, first, idx, ends, seen);
  }

  lemma HeadSplit(data: seq<Data>, idx: nat, ends: seq<nat>) returns (rest: seq<Data>)
    requires idx < |data| && Nested(ends, idx + 1, |data|)
    ensures Stretches(data, idx, ends) == Outer(data, ends) + [Stretch([data[idx]] + rest, |ends|)]
    ensures Stretches(data, idx + 1, ends) == Outer(data, ends) + [Stretch(rest, |ends|)]
  {
    rest := data[idx + 1..InnerEnd(ends, |data|)];
    StretchesInner(data, idx, ends);
    StretchesInner(data, idx + 1, ends);
    assert data[idx..InnerEnd(ends, |data|)] == [data[idx]] + rest;
  }

  /** How things go on once an item was looked at, when `work` is left besides what it expands to. */
  ghost function AfterLook(x: Expander, i: Data, work: seq<Stretch>, depth: nat, seen: seq<Visit>): Outcome {
    var now := seen + [Visit(i, depth)];
    if i.Invocation? && depth > MAX_MACRO_RECURSION then Limit(now)
    else
      match Expansion(x, i, seen)
      case None => Finish(x, work, now)
      case Some(made) => Finish(x, work + [Stretch(made, depth + 1)], now)
  }

  lemma AfterLookKeeps(x: Expander, i: Data, work: seq<Stretch>, depth: nat, seen: seq<Visit>)
    ensures |seen| + 1 <= |AfterLook(x, i, work, depth, seen).seen|
  {
    var now := seen + [Visit(i, depth)];
    FinishKeeps(x, work, now);
    if Expansion(x, i, seen).Some? {
      FinishKeeps(x, work + [Stretch(Expansion(x, i, seen).value, depth + 1)], now);
    }
  }

  lemma Ends(x: Expander, total: Outcome, data: seq<Data>, first: nat, ends: seq<nat>, seen: seq<Visit>)
    requires UnderWay(x, total, data, first, |data|, ends, seen)
    ensures total == Finished(seen)
  {
    StretchesOver(data, ends);
    FinishAllEmpty(x, Stretches(data, |data|, ends), seen);
  }

  /** The next item was passed by. */
  lemma PassedBy(x: Expander, total: Outcome, data: seq<Data>, first: nat, idx: nat, ends: seq<nat>, seen: seq<Visit>)
    requires UnderWay(x, total, data, first, idx, ends, seen) && idx < |data| && Nested(ends, idx + 1, |data|)
    requires !(data[idx].Invocation? && |ends| > MAX_MACRO_RECURSION) && Expansion(x, data[idx], seen).None?
    ensures UnderWay(x, total, data, first, idx + 1, ends, seen + [Visit(data[idx], |ends|)])
  {
    Looked(x, total, data, first, idx, ends, seen);
    SeenStays(x, data, data, first, idx, seen, Visit(data[idx], |ends|));
  }

  /** The next item was expanded, and its expansion put in after it. */
  lemma Expanded(x: Expander, total: Outcome, data: seq<Data>, first: nat, idx: nat, ends: seq<nat>, seen: seq<Visit>,
                 made: seq<Data>, after: seq<Data>)
    requires UnderWay(x, total, data, first, idx, ends, seen) && idx < |data| && Nested(ends, idx + 1, |data|)
    requires |ends| <= MAX_MACRO_RECURSION && Expansion(x, data[idx], seen) == Some(made)
    requires |after| == |data| + |made| && after[..idx] == data[..idx] && after[idx] == Invocation(data[idx].call, true)
    requires after[idx + 1..] == made + data[idx + 1..]
    ensures UnderWay(x, total, after, first, idx + 1, Shifted(ends, |made|) + [idx + 1 + |made|], seen + [Visit(data[idx], |ends|)])
  {
    Looked(x, total, data, first, idx, ends, seen);
    StretchesSpliced(data, idx, ends, made, after);
    SeenStays(x, data, after, first, idx, seen, Visit(data[idx], |ends|));
  }

  lemma SeenStays(x: Expander, data: seq<Data>, after: seq<Data>, first: nat, idx: nat, seen: seq<Visit>, visit: Visit)
    requires first <= idx < |data| <= |after| && |seen| == idx - first && SeenInOrder(x, seen, data[first..])
    requires after[..idx] == data[..idx] && after[idx] == Kept(x, seen, visit.data)
    ensures SeenInOrder(x, seen + [visit], after[first..])
  {
    var now := seen + [visit];
    assert now[..|seen|] == seen;
    forall i | 0 <= i < |seen| ensures after[first..][i] == Kept(x, now[..i], now[i].data) {
      assert now[..i] == seen[..i];
      assert after[..idx][first + i] == data[..idx][first + i];
      assert data[first..][i] == data[first + i];
    }
  }

  method MakeItems(data: seq<Data>) returns (items: seq<Item>)
    ensures fresh(items) && NoDuplicates(items) && DataOf(items) == data
  {
    items := [];
    var i := 0;
    while i < |data|
      invariant 0 <= i <= |data| && |items| == i
      invariant fresh(items) && NoDuplicates(items)
      invariant forall k :: 0 <= k < i ==> items[k].data == data[k]
    {
      var item := new Item(data[i]);
      items := items + [item];
      i := i + 1;
    }
  }

  class Module {
    var items: seq<Item>
    ghost var Repr: set<Item>

    /** The items are objects of this module, each on the list once. */
    ghost predicate Valid()
      reads this
    {
      NoDuplicates(items) && forall k :: 0 <= k < |items| ==> items[k] in Repr
    }

    /** Looks at the items from `first` on, in depth-first order of expansion; the height of the guard stack is
        at every item the number of expansions that the item came out of.  What is expanded is marked, and
        nothing else changes. */
    method ExpandItems(x: Expander, first: nat) returns (r: Outcome, change: bool, missing: bool)
      requires Valid() && first <= |items|
      modifies this, Repr
      ensures fresh(Repr - old(Repr))
      ensures r == DepthFirst(x, old(DataOf(items))[first..], 0, [])
      ensures first <= |items| && DataOf(items)[..first] == old(DataOf(items))[..first]
      ensures r.Finished? ==> Valid() && DataOf(items)[first..] == AfterPass(x, r.seen)
      ensures r.Finished? ==> (change <==> Progressed(x, r.seen)) && (missing <==> LeftDeferred(x, r.seen))
      ensures Settled(x, old(DataOf(items))[first..]) ==> r.Finished? && !change && DataOf(items) == old(DataOf(items))
    {
      ghost var total := DepthFirst(x, DataOf(items)[first..], 0, []);
      ghost var before := DataOf(items);
      var stack: seq<Item?> := [];
      ghost var ends: seq<nat> := [];
      var seen: seq<Visit> := [];
      var idx := first;
      change, missing := false, false;
      Starts(x, DataOf(items), first);
      while idx < |items|
        invariant Valid() && fresh(Repr - old(Repr)) && Marked(stack, ends, items)
        invariant UnderWay(x, total, DataOf(items), first, idx, ends, seen)
        invariant Known(x, before, DataOf(items), first, seen, change, missing)
        decreases |total.seen| - |seen|
      {
        var visit, over, taken, deferred;
        ghost var was := DataOf(items);
        visit, over, taken, deferred, stack, ends := LookAt(x, total, first, idx, stack, ends, seen);
        if !over {
          OneKnown(x, before, was, DataOf(items), first, idx, seen, visit, change, missing, taken, deferred);
        }
        seen := seen + [visit];
        if over {
          PrefixKept(was, DataOf(items), before, first, idx);
          LimitUnsettled(x, before[first..]);
          return Limit(seen), change, missing;
        }
        change, missing := change || taken, missing || deferred;
        idx := idx + 1;
      }
      AtEnd(x, total, before, DataOf(items), first, ends, seen);
      r := Finished(seen);
    }

    /** Looks at one item: passes it by, expands it, or finds that it is nested too deep. */
    method LookAt(x: Expander, ghost total: Outcome, ghost first: nat, idx: nat, was: seq<Item?>, ghost ends0: seq<nat>,
                  seen: seq<Visit>)
      returns (visit: Visit, over: bool, change: bool, missing: bool, stack: seq<Item?>, ghost ends: seq<nat>)
      requires Valid() && idx < |items| && Marked(was, ends0, items)
      requires UnderWay(x, total, DataOf(items), first, idx, ends0, seen)
      modifies this, items[idx]
      ensures over ==> total == Limit(seen + [visit])
      ensures !over ==> Valid() && Marked(stack, ends, items)
      ensures !over ==> UnderWay(x, total, DataOf(items), first, idx + 1, ends, seen + [visit])
      ensures !over ==> (change <==> Takes(x, seen, visit.data)) && (missing <==> Defers(x, seen, visit.data))
      ensures |items| > idx && DataOf(items)[..idx] == old(DataOf(items))[..idx]
      ensures |seen| + 1 <= |total.seen|
      ensures fresh(Repr - old(Repr))
    {
      stack, ends := PopEnded(x, total, first, idx, was, ends0, seen);
      LookedAt(x, total, DataOf(items), first, idx, ends, seen);
      var i := items[idx];
      visit, over, change, missing := Visit(i.data, |stack|), false, false, false;
      if i.data.Invocation? {
        if |stack| > MAX_MACRO_RECURSION {
          over := true;
          return;
        }
        if !i.data.expanded {
          var expansion := x(seen, i.data.call);
          if expansion.Some? {
            change := true;
            stack, ends := ExpandItem(x, total, first, idx, expansion.value, stack, ends, seen);
            return;
          }
          missing := true;
        }
      }
      PassedBy(x, total, DataOf(items), first, idx, ends, seen);
    }

    /** Takes off the markers of the expansions that end at the current item. */
    method PopEnded(ghost x: Expander, ghost total: Outcome, ghost first: nat, idx: nat, was: seq<Item?>, ghost ends0: seq<nat>,
                    ghost seen: seq<Visit>)
      returns (stack: seq<Item?>, ghost ends: seq<nat>)
      requires Valid() && idx < |items| && Marked(was, ends0, items)
      requires UnderWay(x, total, DataOf(items), first, idx, ends0, seen)
      ensures Marked(stack, ends, items) && UnderWay(x, total, DataOf(items), first, idx, ends, seen)
      ensures Nested(ends, idx + 1, |items|)
    {
      stack, ends := was, ends0;
      while stack != [] && stack[|stack| - 1] == items[idx]
        invariant Marked(stack, ends, items)
        invariant UnderWay(x, total, DataOf(items), first, idx, ends, seen)
        decreases |stack|
      {
        EndingHere(stack, ends, items, idx);
        Popped(x, total, DataOf(items), first, idx, ends, seen);
        stack, ends := stack[..|stack| - 1], ends[..|ends| - 1];
      }
      NotEndingHere(stack, ends, items, idx);
    }

    method ExpandItem(ghost x: Expander, ghost total: Outcome, ghost first: nat, idx: nat, made: seq<Data>, was: seq<Item?>,
                      ghost ends0: seq<nat>, ghost seen: seq<Visit>)
      returns (stack: seq<Item?>, ghost ends: seq<nat>)
      requires Valid() && idx < |items| && Marked(was, ends0, items) && |was| <= MAX_MACRO_RECURSION
      requires UnderWay(x, total, DataOf(items), first, idx, ends0, seen) && Nested(ends0, idx + 1, |items|)
      requires Expansion(x, items[idx].data, seen) == Some(made)
      modifies this, items[idx]
      ensures Valid() && Marked(stack, ends, items)
      ensures UnderWay(x, total, DataOf(items), first, idx + 1, ends, seen + [Visit(old(items[idx].data), |was|)])
      ensures DataOf(items)[..idx] == old(DataOf(items))[..idx] && |items| >= |old(items)|
      ensures fresh(Repr - old(Repr))
    {
      ghost var before := DataOf(items);
      var end := Splice(idx, made, was, ends0);
      Expanded(x, total, before, first, idx, ends0, seen, made, DataOf(items));
      stack, ends := was + [end], Shifted(ends0, |made|) + [idx + 1 + |made|];
    }

    /** Puts new items after an invocation; the result is the marker of where they end. */
    method Splice(idx: nat, made: seq<Data>, ghost stack: seq<Item?>, ghost ends: seq<nat>) returns (end: Item?)
      requires Valid() && idx < |items| && items[idx].data.Invocation?
      requires Marked(stack, ends, items) && Nested(ends, idx + 1, |items|)
      modifies this, items[idx]
      ensures Valid() && Marked(stack + [end], Shifted(ends, |made|) + [idx + 1 + |made|], items)
      ensures |items| == |old(items)| + |made| && DataOf(items)[..idx] == old(DataOf(items))[..idx]
      ensures DataOf(items)[idx] == Invocation(old(items[idx].data.call), true)
      ensures DataOf(items)[idx + 1..] == made + old(DataOf(items))[idx + 1..]
      ensures fresh(Repr - old(Repr))
    {
      ghost var was, data := items, DataOf(items);
      var made' := MakeItems(made);
      var next := idx + 1 + |made'|;
      items[idx].data := items[idx].data.(expanded := true);
      items := items[..idx + 1] + made' + items[idx + 1..];
      Repr := Repr + (set i | i in made');
      end := if next == |items| then null else items[next];
      MarkersMove(stack, ends, was, idx, made', items);
      assert DataOf(was) == data[idx := Invocation(data[idx].call, true)];
      SplicedData(was, idx, made', items);
    }
  }

  lemma SplicedData(was: seq<Item>, idx: nat, made: seq<Item>, items: seq<Item>)
    requires idx < |was| && items == was[..idx + 1] + made + was[idx + 1..]
    ensures DataOf(items)[..idx] == DataOf(was)[..idx] && DataOf(items)[idx] == DataOf(was)[idx]
    ensures DataOf(items)[idx + 1..] == DataOf(made) + DataOf(was)[idx + 1..]
  {
    assert DataOf(items) == DataOf(was)[..idx + 1] + DataOf(made) + DataOf(was)[idx + 1..];
  }

  ghost predicate Known(x: Expander, before: seq<Data>, data: seq<Data>, first: nat, seen: seq<Visit>, change: bool, missing: bool)
    requires first <= |before| && first <= |data|
  {
    data[..first] == before[..first] && (change <==> Progressed(x, seen)) && (missing <==> LeftDeferred(x, seen))
  }

  lemma OneKnown(x: Expander, before: seq<Data>, was: seq<Data>, now: seq<Data>, first: nat, idx: nat, seen: seq<Visit>, v: Visit,
               change: bool, missing: bool, taken: bool, deferred: bool)
    requires first <= idx <= |was| && idx <= |now| && first <= |before| && now[..idx] == was[..idx]
    requires Known(x, before, was, first, seen, change, missing)
    requires (taken <==> Takes(x, seen, v.data)) && (deferred <==> Defers(x, seen, v.data))
    ensures Known(x, before, now, first, seen + [v], change || taken, missing || deferred)
  {
    PrefixKept(was, now, before, first, idx);
    OneMore(x, seen, v);
  }

  lemma LimitUnsettled(x: Expander, data: seq<Data>)
    requires DepthFirst(x, data, 0, []).Limit?
    ensures !Settled(x, data)
  {
    if Settled(x, data) {
      SettledStays(x, data);
    }
  }

  lemma AtEnd(x: Expander, total: Outcome, before: seq<Data>, data: seq<Data>, first: nat, ends: seq<nat>, seen: seq<Visit>)
    requires first <= |before| && first <= |data| && data[..first] == before[..first]
    requires UnderWay(x, total, data, first, |data|, ends, seen) && total == DepthFirst(x, before[first..], 0, [])
    ensures total == Finished(seen) && data[first..] == AfterPass(x, seen)
    ensures Settled(x, before[first..]) ==> data == before && !Progressed(x, seen)
  {
    Ends(x, total, data, first, ends, seen);
    assert data[first..] == AfterPass(x, seen);
    if Settled(x, before[first..]) {
      SettledStays(x, before[first..]);
      assert data == data[..first] + data[first..] && before == before[..first] + before[first..];
    }
  }

  lemma PrefixKept(was: seq<Data>, now: seq<Data>, before: seq<Data>, first: nat, idx: nat)
    requires first <= idx <= |was| && idx <= |now| && first <= |before|
    requires was[..first] == before[..first] && now[..idx] == was[..idx]
    ensures now[..first] == before[..first]
  {
    assert now[..idx][..first] == now[..first] && was[..idx][..first] == was[..first];
  }

  /** The items after the invocation, and so the markers, only move along. */
  lemma MarkersMove(stack: seq<Item?>, ends: seq<nat>, was: seq<Item>, idx: nat, made: seq<Item>, items: seq<Item>)
    requires idx < |was| && Marked(stack, ends, was) && Nested(ends, idx + 1, |was|)
    requires items == was[..idx + 1] + made + was[idx + 1..]
    ensures
      var next := idx + 1 + |made|;
      Marked(stack + [if next == |items| then null else items[next]], Shifted(ends, |made|) + [next], items)
  {
    var shifted := Shifted(ends, |made|);
    forall j | 0 <= j < |stack| ensures shifted[j] <= |items| && stack[j] == if shifted[j] < |items| then items[shifted[j]] else null {
      assert ends[j] < |was| ==> items[ends[j] + |made|] == was[ends[j]];
    }
  }

  /** A marker on top of the stack is the current item exactly if the innermost expansion ends here. */
  lemma EndingHere(stack: seq<Item?>, ends: seq<nat>, items: seq<Item>, idx: nat)
    requires Marked(stack, ends, items) && NoDuplicates(items) && idx < |items| && stack != []
    ensures stack[|stack| - 1] == items[idx] <==> ends[|ends| - 1] == idx
  {
    var last := |ends| - 1;
    assert stack[last] == if ends[last] < |items| then items[ends[last]] else null;
  }

  lemma NotEndingHere(stack: seq<Item?>, ends: seq<nat>, items: seq<Item>, idx: nat)
    requires Marked(stack, ends, items) && Nested(ends, idx, |items|) && idx < |items|
    requires stack != [] ==> stack[|stack| - 1] != items[idx]
    ensures Nested(ends, idx + 1, |items|)
  {
    if ends != [] {
      var last := |ends| - 1;
      assert stack[last] == if ends[last] < |items| then items[ends[last]] else null;
      assert ends[last] != idx;
    }
  }
}
