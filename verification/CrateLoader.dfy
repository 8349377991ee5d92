/** Loading a crate and, before it is listed, everything that it depends on. */
module CrateLoader {
  import opened Wrappers

  datatype Dep = Dep(name: string, basename: string)

  /** What a search is made for: the name of a crate and the name of its file. */
  type Key = (string, string)

  /** What a crate file says: the real name of the crate, and what it was built against. */
  datatype File = File(realName: string, deps: seq<Dep>)

  type Files = map<Key, File>

  /** A loaded crate. */
  datatype Record = Record(realName: string, shortName: string, deps: seq<Dep>)

  /** The crates that are loaded, by real name. */
  type Graph = map<string, Record>

  function UpToDash(s: string): string {
    if s == "" || s[0] == '-' then "" else [s[0]] + UpToDash(s[1..])
  }

  /** A real name without any `-` leaves the short name as the name that was asked for. */
  function ShortName(asked: string, realName: string): (s: string)
    ensures IsShortOf(s, asked, realName)
  {
    if '-' in realName then
      UpToDashEnds(realName);
      UpToDash(realName)
    else asked
  }

  ghost predicate EndsAtDash(realName: string, i: nat) {
    i < |realName| && realName[i] == '-' && '-' !in realName[..i]
  }

  ghost predicate IsShortOf(s: string, asked: string, realName: string) {
    if '-' in realName then EndsAtDash(realName, |s|) && s == realName[..|s|] else s == asked
  }

  lemma {:induction false} UpToDashEnds(s: string)
    requires '-' in s
    ensures EndsAtDash(s, |UpToDash(s)|) && UpToDash(s) == s[..|UpToDash(s)|]
  {
    if s[0] != '-' {
      UpToDashEnds(s[1..]);
    }
  }

  /** The crate in a file, as it is loaded on a search for the key. */
  ghost predicate IsRecordOf(rec: Record, found: Files, k: Key) {
    && k in found && rec.realName == found[k].realName && rec.deps == found[k].deps
    && IsShortOf(rec.shortName, k.0, rec.realName)
  }

  ghost predicate OfSomeFile(found: Files, a: string, rec: Record) {
    exists k :: k in found && found[k].realName == a && IsRecordOf(rec, found, k)
  }

  /** Every loaded crate is that of a file, under the real name that the file gives. */
  ghost predicate Recorded(found: Files, g: Graph) {
    forall a :: a in g ==> OfSomeFile(found, a, g[a])
  }

  ghost predicate DependsOn(found: Files, k: Key, l: Key) {
    k in found && Dep(l.0, l.1) in found[k].deps
  }

  /** A way from file to file, each of which names the next one as a dependency. */
  ghost predicate Trail(found: Files, k: Key, p: seq<Key>) {
    p != [] && p[0] == k && forall i :: 0 <= i < |p| - 1 ==> DependsOn(found, p[i], p[i + 1])
  }

  function End(p: seq<Key>): Key
    requires p != []
  {
    p[|p| - 1]
  }

  /** The file is there, gives a name, and as a dependency gives the name it is known by. */
  ghost predicate Good(found: Files, p: seq<Key>)
    requires p != []
  {
    End(p) in found && found[End(p)].realName != "" && (|p| > 1 ==> found[End(p)].realName == End(p).0)
  }

  /** A way over crates that are not loaded. */
  ghost predicate Past(found: Files, g: Graph, p: seq<Key>)
    requires p != []
  {
    && (|p| > 1 && p[0] in found ==> found[p[0]].realName !in g)
    && forall i :: 1 <= i < |p| ==> p[i].0 !in g
  }

  ghost predicate BrokenTrail(found: Files, g: Graph, k: Key, p: seq<Key>) {
    Trail(found, k, p) && Past(found, g, p) && !Good(found, p)
  }

  /** Over crates that are not loaded, a file is reached that is missing or is that of another crate. */
  ghost predicate Broken(found: Files, g: Graph, k: Key) {
    exists p :: BrokenTrail(found, g, k, p)
  }

  ghost predicate Brings(found: Files, k: Key, p: seq<Key>, a: string, rec: Record) {
    Trail(found, k, p) && Good(found, p) && found[End(p)].realName == a && IsRecordOf(rec, found, End(p))
  }

  ghost predicate Brought(found: Files, k: Key, a: string, rec: Record) {
    exists p :: Brings(found, k, p, a, rec)
  }

  /** Whatever is new is the crate of a file that is reached. */
  ghost predicate NewBrought(found: Files, k: Key, g: Graph, h: Graph) {
    forall a :: a in h && a !in g ==> Brought(found, k, a, h[a])
  }

  ghost predicate SameEnd(found: Files, p: seq<Key>, q: seq<Key>)
    requires p != [] && q != []
  {
    NameAt(found, p) == NameAt(found, q) ==> End(p) == End(q)
  }

  /** The name that the end of a way is known by: at the start its real one, then the one it is asked by. */
  function NameAt(found: Files, p: seq<Key>): string
    requires p != []
  {
    if |p| == 1 && p[0] in found then found[p[0]].realName else End(p).0
  }

  /** No two files that are reached are meant to be the same crate. */
  ghost predicate OneFileEach(found: Files, k: Key) {
    forall p, q :: Trail(found, k, p) && Trail(found, k, q) ==> SameEnd(found, p, q)
  }

  lemma TrailFrom(found: Files, k: Key, l: Key, p: seq<Key>)
    requires DependsOn(found, k, l) && Trail(found, l, p)
    ensures Trail(found, k, [k] + p) && End([k] + p) == End(p)
  {
    var q := [k] + p;
    forall i | 0 <= i < |q| - 1 ensures DependsOn(found, q[i], q[i + 1]) {
      if i > 0 {
        assert DependsOn(found, p[i - 1], p[i]);
      }
    }
  }

  /** A dependency that fails to load, or turns out to be another crate, breaks what needs it. */
  lemma BrokenFrom(found: Files, g: Graph, h: Graph, k: Key, l: Key)
    requires DependsOn(found, k, l) && Extends(g, h) && found[k].realName !in g && l.0 !in h
    requires Broken(found, h, l) || (l in found && found[l].realName != l.0)
    ensures Broken(found, g, k)
  {
    var p := [l];
    if Broken(found, h, l) {
      p :| BrokenTrail(found, h, l, p);
    }
    var q := [k] + p;
    TrailFrom(found, k, l, p);
    forall i | 1 <= i < |q| ensures q[i].0 !in g {
      if i > 1 {
        assert p[i - 1].0 !in h;
      }
    }
    assert BrokenTrail(found, g, k, q);
  }

  lemma BroughtFrom(found: Files, k: Key, l: Key, g: Graph, h: Graph)
    requires DependsOn(found, k, l) && l in found && found[l].realName == l.0 && NewBrought(found, l, g, h)
    ensures NewBrought(found, k, g, h)
  {
    forall a | a in h && a !in g ensures Brought(found, k, a, h[a]) {
      var p :| Brings(found, l, p, a, h[a]);
      TrailFrom(found, k, l, p);
      assert Brings(found, k, [k] + p, a, h[a]);
    }
  }

  lemma BroughtLater(found: Files, k: Key, g: Graph, before: Graph, after: Graph)
    requires Extends(before, after) && NewBrought(found, k, g, before) && NewBrought(found, k, before, after)
    ensures NewBrought(found, k, g, after)
  {
  }

  lemma BroughtItself(found: Files, k: Key, g: Graph, rec: Record)
    requires IsRecordOf(rec, found, k) && rec.realName != ""
    ensures NewBrought(found, k, g, g[rec.realName := rec])
  {
    assert Brings(found, k, [k], rec.realName, rec);
  }

  /** When a load has worked, every file on a way over crates that were not loaded is a good one. */
  lemma {:induction false} TrailLoaded(found: Files, k: Key, g: Graph, h: Graph, p: seq<Key>)
    requires OneFileEach(found, k) && NewBrought(found, k, g, h)
    requires k in found && found[k].realName != "" && found[k].realName in h
    requires forall a, b :: a in h && a !in g && Edge(h, a, b) ==> b in h
    requires Trail(found, k, p) && Past(found, g, p)
    ensures Good(found, p) && (|p| > 1 ==> End(p).0 in h)
  {
    if |p| > 1 {
      var before, last := p[..|p| - 1], End(p);
      assert Trail(found, k, before) by {
        forall i | 0 <= i < |before| - 1 ensures DependsOn(found, before[i], before[i + 1]) {
          assert DependsOn(found, p[i], p[i + 1]);
        }
      }
      TrailLoaded(found, k, g, h, before);
      assert DependsOn(found, p[|p| - 2], p[|p| - 1]);
      var a := found[End(before)].realName;
      assert a == NameAt(found, before) && a in h && a !in g;
      var q :| Brings(found, k, q, a, h[a]);
      assert SameEnd(found, q, before);
      var i :| 0 <= i < |found[End(before)].deps| && found[End(before)].deps[i] == Dep(last.0, last.1);
      assert h[a].deps[i].name == last.0;
      assert Edge(h, a, last.0);
      var to :| Brings(found, k, to, last.0, h[last.0]);
      assert SameEnd(found, to, p);
    }
  }

  /** With one file for each crate, nothing but a broken file makes a load fail. */
  lemma WorksUnlessBroken(found: Files, k: Key, g: Graph, h: Graph)
    requires OneFileEach(found, k) && NewBrought(found, k, g, h)
    requires k in found && found[k].realName != "" && found[k].realName in h
    requires forall a, b :: a in h && a !in g && Edge(h, a, b) ==> b in h
    ensures !Broken(found, g, k)
  {
    if Broken(found, g, k) {
      var p :| BrokenTrail(found, g, k, p);
      TrailLoaded(found, k, g, h, p);
    }
  }

  ghost predicate Edge(g: Graph, a: string, b: string) {
    a in g && exists i :: 0 <= i < |g[a].deps| && g[a].deps[i].name == b
  }

  ghost predicate Walk(g: Graph, p: seq<string>) {
    forall i :: 0 <= i < |p| - 1 ==> Edge(g, p[i], p[i + 1])
  }

  ghost predicate WalkFrom(g: Graph, p: seq<string>, a: string, b: string) {
    Walk(g, p) && p != [] && p[0] == a && p[|p| - 1] == b
  }

  ghost predicate Reaches(g: Graph, a: string, b: string) {
    exists p :: WalkFrom(g, p, a, b)
  }

  ghost predicate CycleAt(g: Graph, p: seq<string>) {
    Walk(g, p) && |p| >= 2 && p[0] == p[|p| - 1]
  }

  ghost predicate HasCycle(g: Graph) {
    exists p :: CycleAt(g, p)
  }

  /** Everything comes after all that it depends on. */
  ghost predicate Topological(g: Graph, order: seq<string>) {
    forall i, b :: 0 <= i < |order| && Edge(g, order[i], b) ==> b in order[..i]
  }

  ghost predicate NoDuplicates(s: seq<string>) {
    forall i, j :: 0 <= i < j < |s| ==> s[i] != s[j]
  }

  ghost predicate Closed(g: Graph, order: seq<string>) {
    forall i, b :: 0 <= i < |order| && Edge(g, order[i], b) ==> b in g
  }

  /** Crates are only ever added. */
  ghost predicate Extends(g: Graph, h: Graph) {
    forall a :: a in g ==> a in h && h[a] == g[a]
  }

  ghost predicate DepsLoaded(deps: seq<Dep>, g: Graph) {
    forall j :: 0 <= j < |deps| ==> deps[j].name in g
  }

  /** The loaded crates are those in the list and those on the stack, whose dependencies are being loaded. */
  ghost predicate Accounted(g: Graph, order: seq<string>, stack: seq<string>) {
    && NoDuplicates(order)
    && (forall a :: a in order ==> a !in stack)
    && (forall a :: a in g <==> a in order || a in stack)
    && Closed(g, order)
  }

  lemma EdgeKept(g: Graph, h: Graph, a: string, b: string)
    requires Extends(g, h) && a in g
    ensures Edge(g, a, b) <==> Edge(h, a, b)
  {
  }

  lemma WalkKept(g: Graph, h: Graph, p: seq<string>)
    requires Extends(g, h) && Walk(g, p)
    ensures Walk(h, p)
  {
  }

  lemma CycleKept(g: Graph, h: Graph)
    requires Extends(g, h) && HasCycle(g)
    ensures HasCycle(h)
  {
    var p :| CycleAt(g, p);
    WalkKept(g, h, p);
    assert CycleAt(h, p);
  }

  lemma ReachKept(g: Graph, h: Graph, a: string, b: string)
    requires Extends(g, h) && Reaches(g, a, b)
    ensures Reaches(h, a, b)
  {
    var p :| WalkFrom(g, p, a, b);
    WalkKept(g, h, p);
    assert WalkFrom(h, p, a, b);
  }

  lemma ReachStep(g: Graph, a: string, b: string, c: string)
    requires Edge(g, a, b) && Reaches(g, b, c)
    ensures Reaches(g, a, c)
  {
    var p :| WalkFrom(g, p, b, c);
    var q := [a] + p;
    forall i | 0 <= i < |q| - 1 ensures Edge(g, q[i], q[i + 1]) {
      if i > 0 {
        assert Edge(g, p[i - 1], p[i]);
      }
    }
    assert WalkFrom(g, q, a, c);
  }

  lemma ReachSelf(g: Graph, a: string)
    ensures Reaches(g, a, a)
  {
    assert WalkFrom(g, [a], a, a);
  }

  /** A dependency that is still on the stack closes a cycle. */
  lemma StackCycle(g: Graph, stack: seq<string>, b: string)
    requires Walk(g, stack) && stack != [] && b in stack && Edge(g, stack[|stack| - 1], b)
    ensures HasCycle(g)
  {
    var j :| 0 <= j < |stack| && stack[j] == b;
    var p := stack[j..] + [b];
    forall i | 0 <= i < |p| - 1 ensures Edge(g, p[i], p[i + 1]) {
      if i < |p| - 2 {
        assert Edge(g, stack[j + i], stack[j + i + 1]);
      }
    }
    assert CycleAt(g, p);
  }

  /** In a topological list no walk comes back. */
  lemma {:induction false} WalkGoesDown(g: Graph, order: seq<string>, p: seq<string>, i: nat, k: nat)
    requires Topological(g, order) && NoDuplicates(order) && Walk(g, p)
    requires i < |order| && p != [] && p[0] == order[i] && 1 <= k < |p|
    ensures p[k] in order[..i]
    decreases k
  {
    assert Edge(g, p[0], p[1]);
    if k > 1 {
      var j :| 0 <= j < i && order[..i][j] == p[1];
      forall m | 0 <= m < |p[1..]| - 1 ensures Edge(g, p[1..][m], p[1..][m + 1]) {
        assert Edge(g, p[m + 1], p[m + 2]);
      }
      WalkGoesDown(g, order, p[1..], j, k - 1);
      assert order[..j] <= order[..i];
    }
  }

  lemma TopologicalMeansAcyclic(g: Graph, order: seq<string>)
    requires Topological(g, order) && NoDuplicates(order) && (forall a :: a in g ==> a in order)
    ensures !HasCycle(g)
  {
    if HasCycle(g) {
      var p :| CycleAt(g, p);
      assert Edge(g, p[0], p[1]);
      var i :| 0 <= i < |order| && order[i] == p[0];
      assert p[0] !in order[..i];
      WalkGoesDown(g, order, p, i, |p| - 1);
    }
  }

  /** The first crate of the list that has the short name, or nothing. */
  function FirstShort(g: Graph, order: seq<string>, short: string): string
    requires forall i :: 0 <= i < |order| ==> order[i] in g
  {
    if order == [] then ""
    else
      var before := FirstShort(g, order[..|order| - 1], short);
      if before != "" then before
      else if g[order[|order| - 1]].shortName == short then order[|order| - 1]
      else ""
  }

  lemma {:induction false} FirstShortKept(g: Graph, h: Graph, order: seq<string>, short: string)
    requires Extends(g, h) && forall i :: 0 <= i < |order| ==> order[i] in g
    ensures FirstShort(g, order, short) == FirstShort(h, order, short)
    decreases order
  {
    if order != [] {
      FirstShortKept(g, h, order[..|order| - 1], short);
    }
  }

  /** The first crate found on the list is a crate of that name with none before it. */
  lemma {:induction false} FirstShortIsFirst(g: Graph, order: seq<string>, short: string)
    requires forall i :: 0 <= i < |order| ==> order[i] in g && order[i] != ""
    ensures
      var f := FirstShort(g, order, short);
      if f == "" then forall i :: 0 <= i < |order| ==> g[order[i]].shortName != short
      else exists i :: 0 <= i < |order| && order[i] == f && g[f].shortName == short && forall j :: 0 <= j < i ==> g[order[j]].shortName != short
    decreases order
  {
    if order != [] {
      var n := |order| - 1;
      FirstShortIsFirst(g, order[..n], short);
      if FirstShort(g, order[..n], short) != "" {
        var f := FirstShort(g, order[..n], short);
        var i :| 0 <= i < n && order[..n][i] == f && g[f].shortName == short && forall j :: 0 <= j < i ==> g[order[..n][j]].shortName != short;
        assert order[i] == f;
        forall j | 0 <= j < i ensures g[order[j]].shortName != short {
          assert order[j] == order[..n][j];
        }
      } else {
        forall j | 0 <= j < n ensures g[order[j]].shortName != short {
          assert order[j] == order[..n][j];
        }
      }
    }
  }

  lemma FirstShortNext(g: Graph, order: seq<string>, a: string, short: string)
    requires a in g && forall i :: 0 <= i < |order| ==> order[i] in g
    ensures
      var f := FirstShort(g, order, short);
      FirstShort(g, order + [a], short) == if f != "" then f else if g[a].shortName == short then a else ""
  {
    assert (order + [a])[..|order|] == order;
  }

  lemma OrderKept(g: Graph, h: Graph, order: seq<string>)
    requires Extends(g, h) && forall i :: 0 <= i < |order| ==> order[i] in g
    ensures Topological(g, order) ==> Topological(h, order)
  {
    forall i, b | Topological(g, order) && 0 <= i < |order| && Edge(h, order[i], b) ensures b in order[..i] {
      EdgeKept(g, h, order[i], b);
    }
  }

  /** A crate is marked as loaded before its dependencies are looked at. */
  lemma Entered(g: Graph, order: seq<string>, stack: seq<string>, a: string, rec: Record)
    requires Accounted(g, order, stack) && a !in g
    ensures
      var h := g[a := rec];
      && Extends(g, h) && Accounted(h, order, stack + [a])
      && (Walk(h, stack + [a]) ==> Walk(g, stack))
      && (Topological(g, order) || HasCycle(g) ==> Topological(h, order) || HasCycle(h))
      && Reaches(h, a, a)
      && ((forall i :: 0 <= i < |order| ==> order[i] in g) ==> FirstShort(g, order, "core") == FirstShort(h, order, "core"))
  {
    var h := g[a := rec];
    assert forall i :: 0 <= i < |order| ==> order[i] in g;
    forall i, b | 0 <= i < |order| && Edge(h, order[i], b) ensures b in h {
      EdgeKept(g, h, order[i], b);
    }
    OrderKept(g, h, order);
    if HasCycle(g) {
      CycleKept(g, h);
    }
    if Walk(h, stack + [a]) {
      forall i | 0 <= i < |stack| - 1 ensures Edge(g, stack[i], stack[i + 1]) {
        assert Edge(h, (stack + [a])[i], (stack + [a])[i + 1]);
        assert stack[i] in g;
      }
    }
    ReachSelf(h, a);
    FirstShortKept(g, h, order, "core");
  }

  /** A crate is listed once its dependencies are loaded. */
  lemma Listed(g: Graph, order: seq<string>, stack: seq<string>, a: string, rec: Record)
    requires Accounted(g, order, stack + [a]) && a !in stack && a in g && g[a] == rec
    requires DepsLoaded(rec.deps, g)
    requires Walk(g, stack + [a]) ==> Topological(g, order) || HasCycle(g)
    ensures Accounted(g, order + [a], stack)
    ensures Walk(g, stack) && (stack == [] || Edge(g, stack[|stack| - 1], a)) ==> Topological(g, order + [a]) || HasCycle(g)
  {
    var all, inner := order + [a], stack + [a];
    assert a in inner;
    forall i, b | 0 <= i < |all| && Edge(g, all[i], b) ensures b in g {
    }
    if Walk(g, stack) && (stack == [] || Edge(g, stack[|stack| - 1], a)) && !HasCycle(g) {
      forall i | 0 <= i < |inner| - 1 ensures Edge(g, inner[i], inner[i + 1]) {
        if i < |stack| - 1 {
          assert Edge(g, stack[i], stack[i + 1]);
        }
      }
      forall i, b | 0 <= i < |all| && Edge(g, all[i], b) ensures b in all[..i] {
        if i < |order| {
          assert b in order[..i];
          assert order[..i] == all[..i];
        } else {
          if b in inner {
            StackCycle(g, inner, b);
          }
          assert all[..i] == order;
        }
      }
    }
  }

  /** The new crate is that of a file, and one less is missing. */
  lemma EnteredRecord(found: Files, k: Key, g: Graph, rec: Record)
    requires IsRecordOf(rec, found, k) && rec.realName !in g && Recorded(found, g)
    ensures Recorded(found, g[rec.realName := rec])
    ensures Missing(found, g[rec.realName := rec]) < Missing(found, g)
  {
    var h := g[rec.realName := rec];
    assert OfSomeFile(found, rec.realName, rec);
    forall a | a in h ensures OfSomeFile(found, a, h[a]) {
    }
    assert rec.realName in Missing(found, g) && rec.realName !in Missing(found, h);
  }

  lemma BrokenBelow(found: Files, g: Graph, h: Graph, k: Key)
    requires Extends(g, h) && k in found && found[k].realName !in g && exists l, after :: FailsAt(found, k, l, h, after)
    ensures Broken(found, g, k)
  {
    var l, after :| FailsAt(found, k, l, h, after);
    BrokenFrom(found, g, after, k, l);
  }

  ghost function Missing(found: Files, g: Graph): set<string> {
    (set k | k in found :: found[k].realName) - g.Keys
  }

  lemma MissingShrinks(found: Files, g: Graph, h: Graph)
    requires Extends(g, h)
    ensures Missing(found, h) <= Missing(found, g)
  {
    assert g.Keys <= h.Keys;
  }

  class Crate {
    const found: Files    // what the search for a name and file name comes upon
    var externCrates: Graph
    var order: seq<string>
    var coreName: string

    constructor (found: Files)
      ensures this.found == found && externCrates == map[] && order == [] && coreName == ""
      ensures Settled()
    {
      this.found := found;
      externCrates := map[];
      order := [];
      coreName := "";
      new;
      SettledOutside();
    }

    ghost predicate Valid(stack: seq<string>)
      reads this
    {
      && Accounted(externCrates, order, stack)
      && "" !in externCrates && Recorded(found, externCrates)
      && (Walk(externCrates, stack) ==> Topological(externCrates, order) || HasCycle(externCrates))
      && CoreNamed()
    }

    ghost predicate CoreNamed()
      reads this
    {
      && (forall i :: 0 <= i < |order| ==> order[i] in externCrates)
      && coreName == FirstShort(externCrates, order, "core")
    }

    /** Between loads: the list holds every loaded crate once, with all it depends on, and it is
        topological exactly when there is no cycle. */
    ghost predicate Settled()
      reads this
    {
      && NoDuplicates(order) && (forall a :: a in externCrates <==> a in order)
      && Closed(externCrates, order)
      && (Topological(externCrates, order) <==> !HasCycle(externCrates))
      && Valid([])
    }

    lemma SettledOutside()
      requires Valid([])
      ensures Settled()
    {
      if Topological(externCrates, order) {
        TopologicalMeansAcyclic(externCrates, order);
      }
    }

    /** The real names that are not loaded yet. */
    ghost function Left(): set<string>
      reads this
    {
      Missing(found, externCrates)
    }

    /** A load from outside: what is added is the crate and what it reaches, each as its file says. It fails
        on a broken file only, and if there is one file for each crate on every one on its way. */
    method LoadExternCrate(name: string, basename: string) returns (r: Option<string>)
      requires Settled()
      modifies this
      ensures r.Some? ==> Settled() && r.value in externCrates
      ensures r.Some? ==> Extends(old(externCrates), externCrates) && old(order) <= order
      ensures r.Some? ==> NewReached(old(externCrates), externCrates, r.value)
      ensures r.Some? ==> Obtained(name, basename, r.value)
      ensures r.None? ==> Broken(found, old(externCrates), (name, basename))
      ensures OneFileEach(found, (name, basename)) ==> (r.None? <==> Broken(found, old(externCrates), (name, basename)))
    {
      r := Load(name, basename, []);
      if r.Some? {
        SettledOutside();
        if OneFileEach(found, (name, basename)) {
          WorksUnlessBroken(found, (name, basename), old(externCrates), externCrates);
        }
      }
    }

    /** The crate has the name that its file gives, and whatever is new is as its file says. */
    twostate predicate Obtained(name: string, basename: string, a: string)
      reads this
    {
      && (name, basename) in found && a == found[(name, basename)].realName && a in externCrates
      && (a !in old(externCrates) ==> IsRecordOf(externCrates[a], found, (name, basename)))
      && Adds(found, (name, basename), a, old(externCrates), externCrates)
    }

    /** What a load adds to the crates and the list, seen from below the crates on the stack. */
    twostate predicate Loaded(stack: seq<string>, a: string)
      reads this
    {
      && a in externCrates && old(order) <= order
      && Accounted(externCrates, order, stack) && "" !in externCrates && CoreNamed() && Recorded(found, externCrates)
    }

    method Load(name: string, basename: string, ghost stack: seq<string>) returns (r: Option<string>)
      requires Valid(stack)
      modifies this
      ensures r.Some? ==> Loaded(stack, r.value) && Obtained(name, basename, r.value)
      ensures r.None? ==> Broken(found, old(externCrates), (name, basename))
      ensures r.Some? && Walk(externCrates, stack) && (stack == [] || Edge(externCrates, stack[|stack| - 1], r.value)) ==>
        Topological(externCrates, order) || HasCycle(externCrates)
      decreases Left(), 0
    {
      ghost var k := (name, basename);
      assert !Good(found, [k]) ==> BrokenTrail(found, externCrates, k, [k]);
      if (name, basename) !in found {
        return None;
      }
      var file := found[(name, basename)];
      var realName := file.realName;
      if realName == "" {
        return None;
      }
      if realName in externCrates {
        return Some(realName);
      }
      var rec := Record(realName, ShortName(name, realName), file.deps);
      ghost var before := externCrates;
      Entered(before, order, stack, realName, rec);
      EnteredRecord(found, k, before, rec);
      externCrates := externCrates[realName := rec];
      ghost var entered := externCrates;
      var ok := LoadDeps(k, realName, rec, stack + [realName]);
      if !ok {
        BrokenBelow(found, before, entered, k);
        return None;
      }
      EnteredAdds(found, k, before, entered, externCrates, rec);
      List(realName, rec, stack);
      r := Some(realName);
    }

    /** Puts a crate on the list, after its dependencies. */
    method List(a: string, rec: Record, ghost stack: seq<string>)
      requires Valid(stack + [a]) && a !in stack && a in externCrates && externCrates[a] == rec
      requires DepsLoaded(rec.deps, externCrates)
      modifies `order, `coreName
      ensures order == old(order) + [a] && Accounted(externCrates, order, stack) && CoreNamed()
      ensures Walk(externCrates, stack) && (stack == [] || Edge(externCrates, stack[|stack| - 1], a)) ==>
        Topological(externCrates, order) || HasCycle(externCrates)
    {
      Listed(externCrates, order, stack, a, rec);
      FirstShortNext(externCrates, order, a, "core");
      order := order + [a];
      if rec.shortName == "core" {
        if coreName == "" {
          coreName := a;
        }
      }
    }

    /** What a load of dependencies adds, all of it reached from the crate that has them. */
    twostate predicate Grown(k: Key, a: string, rec: Record, stack: seq<string>)
      reads this
    {
      && Valid(stack) && a in externCrates && externCrates[a] == rec
      && old(order) <= order && Adds(found, k, a, old(externCrates), externCrates)
    }

    /** The dependencies that are not loaded yet are; one that turns out to be another crate is an error. */
    method LoadDeps(ghost k: Key, realName: string, rec: Record, ghost stack: seq<string>) returns (ok: bool)
      requires Valid(stack) && stack != [] && stack[|stack| - 1] == realName
      requires realName in externCrates && externCrates[realName] == rec && IsRecordOf(rec, found, k)
      modifies this
      ensures ok ==> Grown(k, realName, rec, stack)
      ensures !ok ==> exists l, g :: FailsAt(found, k, l, old(externCrates), g)
      ensures ok ==> DepsLoaded(rec.deps, externCrates)
      decreases Left(), 2
    {
      var i := 0;
      while i < |rec.deps|
        invariant 0 <= i <= |rec.deps|
        invariant Grown(k, realName, rec, stack)
        invariant Left() <= old(Left())
        invariant DepsLoaded(rec.deps[..i], externCrates)
      {
        var dep := rec.deps[i];
        if dep.name !in externCrates {
          ghost var before := externCrates;
          var loaded := LoadDep(k, realName, rec, i, stack);
          if !loaded {
            assert FailsAt(found, k, (dep.name, dep.basename), old(externCrates), before);
            return false;
          }
          GrownTwice(found, k, old(externCrates), before, externCrates, realName, rec.deps[..i]);
        }
        DepLoaded(rec.deps, i, externCrates);
        i := i + 1;
      }
      assert rec.deps[..i] == rec.deps;
      ok := true;
    }

    method LoadDep(ghost k: Key, realName: string, rec: Record, i: nat, ghost stack: seq<string>) returns (ok: bool)
      requires Valid(stack) && stack != [] && stack[|stack| - 1] == realName
      requires realName in externCrates && externCrates[realName] == rec && IsRecordOf(rec, found, k)
      requires i < |rec.deps| && rec.deps[i].name !in externCrates
      modifies this
      ensures !ok ==> FailsAt(found, k, (rec.deps[i].name, rec.deps[i].basename), old(externCrates), old(externCrates))
      ensures ok ==> Grown(k, realName, rec, stack) && rec.deps[i].name in externCrates
      decreases Left(), 1
    {
      var dep := rec.deps[i];
      assert Edge(externCrates, realName, dep.name);
      var loaded := Load(dep.name, dep.basename, stack);
      if loaded.None? || loaded.value != dep.name {
        return false;
      }
      EdgeKept(old(externCrates), externCrates, realName, dep.name);
      BroughtFrom(found, k, (dep.name, dep.basename), old(externCrates), externCrates);
      forall c | c in externCrates && c !in old(externCrates) ensures Reaches(externCrates, realName, c) {
        ReachStep(externCrates, realName, dep.name, c);
      }
      ok := true;
    }
  }

  /** A dependency that was not loaded when it was asked for, and did not load as the crate it should be. */
  ghost predicate FailsAt(found: Files, k: Key, l: Key, g: Graph, h: Graph) {
    && DependsOn(found, k, l) && Extends(g, h) && l.0 !in h
    && (Broken(found, h, l) || (l in found && found[l].realName != l.0))
  }

  ghost predicate Adds(found: Files, k: Key, a: string, g: Graph, h: Graph) {
    Extends(g, h) && NewReached(g, h, a) && NewBrought(found, k, g, h)
  }

  lemma GrownTwice(found: Files, k: Key, g: Graph, before: Graph, after: Graph, a: string, deps: seq<Dep>)
    requires Adds(found, k, a, g, before) && Adds(found, k, a, before, after) && DepsLoaded(deps, before)
    ensures Adds(found, k, a, g, after)
    ensures DepsLoaded(deps, after) && Missing(found, after) <= Missing(found, before)
  {
    NewReachedLater(g, before, after, a);
    BroughtLater(found, k, g, before, after);
    MissingShrinks(found, before, after);
  }

  lemma DepLoaded(deps: seq<Dep>, i: nat, g: Graph)
    requires i < |deps| && DepsLoaded(deps[..i], g) && deps[i].name in g
    ensures DepsLoaded(deps[..i + 1], g)
  {
    assert deps[..i + 1] == deps[..i] + [deps[i]];
  }

  /** Whatever is new is reached from the crate. */
  ghost predicate NewReached(g: Graph, h: Graph, a: string) {
    forall b :: b in h && b !in g ==> Reaches(h, a, b)
  }

  lemma NewReachedLater(g: Graph, before: Graph, after: Graph, a: string)
    requires Extends(before, after) && NewReached(g, before, a) && NewReached(before, after, a)
    ensures NewReached(g, after, a)
  {
    forall b | b in after && b !in g ensures Reaches(after, a, b) {
      if b in before {
        ReachKept(before, after, a, b);
      }
    }
  }

  lemma EnteredAdds(found: Files, k: Key, before: Graph, entered: Graph, after: Graph, rec: Record)
    requires IsRecordOf(rec, found, k) && rec.realName != ""
    requires entered == before[rec.realName := rec] && rec.realName !in before
    requires Adds(found, k, rec.realName, entered, after)
    ensures Adds(found, k, rec.realName, before, after)
  {
    ReachSelf(entered, rec.realName);
    BroughtItself(found, k, before, rec);
    GrownTwice(found, k, before, entered, after, rec.realName, []);
  }
}
