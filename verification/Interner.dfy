/** The string interner: a sorted collection held in blocks, and a cache of the ranks of its strings. */
module Interner {
  import opened Sequences

  type Bytes = seq<bv8>

  // ----- ordering of strings

  datatype Ordering = Less | Equal | Greater

  /** The sign of the first difference among the first `n` bytes, as `memcmp` reports it. */
  function Memcmp(a: Bytes, b: Bytes, n: nat): Ordering
    requires n <= |a| && n <= |b|
    decreases n
  {
    if n == 0 then Equal
    else if a[0] < b[0] then Less
    else if a[0] > b[0] then Greater
    else Memcmp(a[1..], b[1..], n - 1)
  }

  function OrdSize(a: nat, b: nat): Ordering {
    if a < b then Less else if a == b then Equal else Greater
  }

  /** The common part decides; if it does not, the shorter string comes first. */
  function Ord(a: Bytes, b: Bytes): Ordering {
    var n := if |a| <= |b| then |a| else |b|;
    var c := Memcmp(a, b, n);
    if c != Equal then c else OrdSize(|a|, |b|)
  }

  /** Byte-wise lexicographic order: at the first difference, the smaller byte or the end of the string. */
  ghost predicate LexLess(a: Bytes, b: Bytes) {
    exists k: nat :: DifferAt(a, b, k)
  }

  /** The strings agree on the first `k` bytes, and there the first one ends or has the smaller byte. */
  predicate DifferAt(a: Bytes, b: Bytes, k: nat) {
    k <= |a| && k < |b| && a[..k] == b[..k] && (k < |a| ==> a[k] < b[k])
  }

  lemma {:induction false} OrdByHead(a: Bytes, b: Bytes)
    ensures Ord(a, b) ==
      if a == [] then (if b == [] then Equal else Less)
      else if b == [] then Greater
      else if a[0] < b[0] then Less
      else if a[0] > b[0] then Greater
      else Ord(a[1..], b[1..])
  {
  }

  lemma LexByHead(a: Bytes, b: Bytes)
    ensures LexLess(a, b) <==> b != [] && (a == [] || a[0] < b[0] || (a[0] == b[0] && LexLess(a[1..], b[1..])))
  {
    if b != [] {
      assert DifferAt(a, b, 0) <==> a == [] || a[0] < b[0];
      if a != [] {
        if a[0] == b[0] && LexLess(a[1..], b[1..]) {
          var k: nat :| DifferAt(a[1..], b[1..], k);
          DifferByHead(a, b, k);
        }
        forall k: nat | DifferAt(a, b, k) && k > 0 ensures a[0] == b[0] && DifferAt(a[1..], b[1..], k - 1) {
          DifferByHead(a, b, k - 1);
        }
      }
    }
  }

  lemma DifferByHead(a: Bytes, b: Bytes, k: nat)
    requires a != [] && b != []
    ensures DifferAt(a, b, k + 1) <==> a[0] == b[0] && DifferAt(a[1..], b[1..], k)
  {
    if k < |a| && k + 1 < |b| {
      assert a[..k + 1] == [a[0]] + a[1..][..k] && b[..k + 1] == [b[0]] + b[1..][..k];
      assert a[1..][..k] == a[..k + 1][1..] && b[1..][..k] == b[..k + 1][1..];
      assert a[..k + 1][0] == a[0] && b[..k + 1][0] == b[0];
    }
  }

  /** `Ord` is the byte-wise lexicographic order. */
  lemma {:induction false} OrdIsLexicographic(a: Bytes, b: Bytes)
    ensures Ord(a, b) == Less <==> LexLess(a, b)
    ensures Ord(a, b) == Greater <==> LexLess(b, a)
    ensures Ord(a, b) == Equal <==> a == b
    decreases a
  {
    OrdByHead(a, b);
    LexByHead(a, b);
    LexByHead(b, a);
    if a != [] && b != [] && a[0] == b[0] {
      OrdIsLexicographic(a[1..], b[1..]);
      assert a == [a[0]] + a[1..] && b == [b[0]] + b[1..];
    }
  }

  predicate Before(a: Bytes, b: Bytes) {
    Ord(a, b) == Less
  }

  lemma {:induction false} BeforeTransitive(a: Bytes, b: Bytes, c: Bytes)
    requires Before(a, b) && Before(b, c)
    ensures Before(a, c)
    decreases a
  {
    OrdByHead(a, b);
    OrdByHead(b, c);
    OrdByHead(a, c);
    if a != [] && a[0] == b[0] && b[0] == c[0] {
      BeforeTransitive(a[1..], b[1..], c[1..]);
    }
  }

  lemma BeforeTotal(a: Bytes, b: Bytes)
    ensures !Before(a, a)
    ensures Before(a, b) ==> !Before(b, a)
    ensures Before(a, b) || a == b || Before(b, a)
    ensures Ord(a, b) == if Before(a, b) then Less else if a == b then Equal else Greater
  {
    OrdIsLexicographic(a, b);
    OrdIsLexicographic(b, a);
    OrdIsLexicographic(a, a);
  }

  // ----- strings

  /** A string as it is stored.  The empty string is not: it is a null pointer. */
  class RcString {
    const data: Bytes
    var ordering: nat            // 0 unless interned

    constructor (data: Bytes)
      ensures this.data == data && ordering == 0
    {
      this.data := data;
      ordering := 0;
    }
  }

  ghost predicate Sorted(es: seq<RcString>) {
    forall i, j :: 0 <= i < j < |es| ==> Before(es[i].data, es[j].data)
  }

  ghost predicate Holds(es: seq<RcString>, s: Bytes) {
    exists i :: 0 <= i < |es| && es[i].data == s
  }

  /** In a sorted list, a string between two neighbours is not in the list and may go in there. */
  lemma InsertSorted(es: seq<RcString>, q: nat, x: RcString)
    requires Sorted(es) && q <= |es|
    requires q > 0 ==> Before(es[q - 1].data, x.data)
    requires q < |es| ==> Before(x.data, es[q].data)
    ensures Sorted(es[..q] + [x] + es[q..]) && !Holds(es, x.data)
  {
    forall i | 0 <= i < q ensures Before(es[i].data, x.data) {
      if i < q - 1 {
        BeforeTransitive(es[i].data, es[q - 1].data, x.data);
      }
    }
    forall i | q <= i < |es| ensures Before(x.data, es[i].data) {
      if i > q {
        BeforeTransitive(x.data, es[q].data, es[i].data);
      }
    }
    forall i | 0 <= i < |es| ensures es[i].data != x.data {
      BeforeTotal(x.data, x.data);
    }
  }

  /** Equal strings of a sorted list are the same object. */
  lemma SortedDistinct(es: seq<RcString>, i: nat, j: nat)
    requires Sorted(es) && i < |es| && j < |es|
    ensures es[i].data == es[j].data <==> i == j
    ensures Ord(es[i].data, es[j].data) == OrdSize(i, j)
  {
    BeforeTotal(es[i].data, es[j].data);
    BeforeTotal(es[j].data, es[i].data);
  }

  // ----- blocks

  function Flatten<T>(ss: seq<seq<T>>): seq<T> {
    if ss == [] then [] else ss[0] + Flatten(ss[1..])
  }

  lemma {:induction false} FlattenConcat<T>(a: seq<seq<T>>, b: seq<seq<T>>)
    ensures Flatten(a + b) == Flatten(a) + Flatten(b)
    decreases a
  {
    if a == [] {
      assert a + b == b;
    } else {
      FlattenConcat(a[1..], b);
      FlattenCons(a[0], a[1..] + b);
      assert a + b == [a[0]] + (a[1..] + b);
      Assoc(a[0], Flatten(a[1..]), Flatten(b));
    }
  }

  lemma FlattenCons<T>(s: seq<T>, ss: seq<seq<T>>)
    ensures Flatten([s] + ss) == s + Flatten(ss)
  {
    assert ([s] + ss)[1..] == ss;
  }

  lemma FlattenOne<T>(s: seq<T>)
    ensures Flatten([s]) == s
  {
    assert [s][1..] == [];
    assert s + [] == s;
  }

  lemma SplitAround<T>(s: seq<T>, b: nat)
    requires b < |s|
    ensures s == s[..b] + [s[b]] + s[b + 1..]
  {
  }

  /** What is before block `b`, block `b`, and what is after it. */
  lemma FlattenAt<T>(ss: seq<seq<T>>, b: nat)
    requires b < |ss|
    ensures Flatten(ss) == Flatten(ss[..b]) + ss[b] + Flatten(ss[b + 1..])
  {
    SplitAround(ss, b);
    FlattenMiddle(ss[..b], ss[b], ss[b + 1..]);
  }

  lemma FlattenMiddle<T>(a: seq<seq<T>>, s: seq<T>, c: seq<seq<T>>)
    ensures Flatten(a + [s] + c) == Flatten(a) + s + Flatten(c)
  {
    FlattenConcat(a + [s], c);
    FlattenConcat(a, [s]);
    FlattenOne(s);
  }

  lemma FlattenReplaced<T>(ss: seq<seq<T>>, b: nat, halves: seq<seq<T>>)
    requires b < |ss|
    ensures Flatten(ss[..b] + halves + ss[b + 1..]) == Flatten(ss[..b]) + Flatten(halves) + Flatten(ss[b + 1..])
  {
    FlattenConcat(ss[..b] + halves, ss[b + 1..]);
    FlattenConcat(ss[..b], halves);
  }

  lemma {:induction false} MemberOfBlock<T>(ss: seq<seq<T>>, x: T) returns (b: nat)
    requires x in Flatten(ss)
    ensures b < |ss| && x in ss[b]
    decreases ss
  {
    if x in ss[0] {
      b := 0;
    } else {
      b := MemberOfBlock(ss[1..], x);
      b := b + 1;
    }
  }

  /** The number of entries before block `b`. */
  function Offset<T>(ss: seq<seq<T>>, b: nat): nat
    requires b <= |ss|
  {
    |Flatten(ss[..b])|
  }

  lemma EntryAt<T>(ss: seq<seq<T>>, b: nat, k: nat)
    requires b < |ss| && k < |ss[b]|
    ensures Offset(ss, b) + k < |Flatten(ss)| && Flatten(ss)[Offset(ss, b) + k] == ss[b][k]
  {
    FlattenAt(ss, b);
  }

  lemma OffsetNext<T>(ss: seq<seq<T>>, b: nat)
    requires b < |ss|
    ensures Offset(ss, b + 1) == Offset(ss, b) + |ss[b]|
    ensures b + 1 == |ss| ==> Offset(ss, b + 1) == |Flatten(ss)|
  {
    assert ss[..b + 1] == ss[..b] + [ss[b]];
    FlattenConcat(ss[..b], [ss[b]]);
    FlattenOne(ss[b]);
    if b + 1 == |ss| {
      assert ss[..b + 1] == ss;
    }
  }

  /** One list is the other with an entry put in. */
  ghost predicate WithOneMore(es: seq<RcString>, x: RcString, all: seq<RcString>) {
    exists q: nat :: PutIn(es, q, x, all)
  }

  ghost predicate PutIn(es: seq<RcString>, q: nat, x: RcString, all: seq<RcString>) {
    q <= |es| && all == es[..q] + [x] + es[q..]
  }

  lemma OneMoreAt(es: seq<RcString>, q: nat, x: RcString, all: seq<RcString>)
    requires PutIn(es, q, x, all)
    ensures WithOneMore(es, x, all)
  {
  }

  lemma OneMoreMembers(es: seq<RcString>, x: RcString, all: seq<RcString>)
    requires WithOneMore(es, x, all)
    ensures forall y :: y in all <==> y in es || y == x
  {
    var q: nat :| PutIn(es, q, x, all);
    assert es == es[..q] + es[q..];
  }

  const BLOCK_SIZE := 1024

  /** No block is empty or over-full, and once there are two, each is at least half full. */
  ghost predicate BlocksFit(blocks: seq<seq<RcString>>) {
    forall b :: 0 <= b < |blocks| ==>
      0 < |blocks[b]| <= 1024 && (|blocks| >= 2 ==> 512 <= |blocks[b]|)
  }

  class TieredSet {
    var blocks: seq<seq<RcString>>

    constructor ()
      ensures blocks == []
    {
      blocks := [];
    }

    ghost predicate Valid()
      reads this
    {
      BlocksFit(blocks) && Sorted(Entries())
    }

    /** The strings of the set, in order. */
    ghost function Entries(): seq<RcString>
      reads this
    {
      Flatten(blocks)
    }

    /** The first block that does not start before the string. */
    method BlockAfter(s: Bytes) returns (m: nat)
      requires Valid()
      ensures m <= |blocks|
      ensures forall b :: 0 <= b < m ==> Before(blocks[b][0].data, s)
      ensures forall b :: m <= b < |blocks| ==> !Before(blocks[b][0].data, s)
    {
      var lo, len := 0, |blocks|;
      while len > 0
        invariant 0 <= lo && 0 <= len && lo + len <= |blocks|
        invariant forall b :: 0 <= b < lo ==> Before(blocks[b][0].data, s)
        invariant forall b :: lo + len <= b < |blocks| ==> !Before(blocks[b][0].data, s)
      {
        var half := len / 2;
        var mid := lo + half;
        if Before(blocks[mid][0].data, s) {
          forall b | 0 <= b < mid ensures Before(blocks[b][0].data, s) {
            FrontsSorted(b, mid);
            BeforeTransitive(blocks[b][0].data, blocks[mid][0].data, s);
          }
          lo, len := mid + 1, len - half - 1;
        } else {
          forall b | mid < b < |blocks| ensures !Before(blocks[b][0].data, s) {
            FrontsSorted(mid, b);
            if Before(blocks[b][0].data, s) {
              BeforeTransitive(blocks[mid][0].data, blocks[b][0].data, s);
            }
          }
          len := half;
        }
      }
      m := lo;
    }

    lemma FrontsSorted(a: nat, b: nat)
      requires Valid() && a < b < |blocks|
      ensures Before(blocks[a][0].data, blocks[b][0].data)
    {
      EntryAt(blocks, a, 0);
      EntryAt(blocks, b, 0);
      OffsetGrows(blocks, a, b);
    }

    /** The first entry of a block that is not before the string. */
    method SlotFor(b: nat, s: Bytes) returns (k: nat)
      requires Valid() && b < |blocks|
      ensures k <= |blocks[b]|
      ensures forall i :: 0 <= i < k ==> Before(blocks[b][i].data, s)
      ensures forall i :: k <= i < |blocks[b]| ==> !Before(blocks[b][i].data, s)
    {
      var ents := blocks[b];
      var lo, len := 0, |ents|;
      while len > 0
        invariant 0 <= lo && 0 <= len && lo + len <= |ents|
        invariant forall i :: 0 <= i < lo ==> Before(ents[i].data, s)
        invariant forall i :: lo + len <= i < |ents| ==> !Before(ents[i].data, s)
      {
        var half := len / 2;
        var mid := lo + half;
        if Before(ents[mid].data, s) {
          forall i | 0 <= i < mid ensures Before(ents[i].data, s) {
            SlotsSorted(b, i, mid);
            BeforeTransitive(ents[i].data, ents[mid].data, s);
          }
          lo, len := mid + 1, len - half - 1;
        } else {
          forall i | mid < i < |ents| ensures !Before(ents[i].data, s) {
            SlotsSorted(b, mid, i);
            if Before(ents[i].data, s) {
              BeforeTransitive(ents[mid].data, ents[i].data, s);
            }
          }
          len := half;
        }
      }
      k := lo;
    }

    lemma SlotsSorted(b: nat, i: nat, j: nat)
      requires Valid() && b < |blocks| && i < j < |blocks[b]|
      ensures Before(blocks[b][i].data, blocks[b][j].data)
    {
      EntryAt(blocks, b, i);
      EntryAt(blocks, b, j);
    }

    /** The slot of the string, which is added if it is not there yet; `added` tells which. */
    method LookupOrAdd(s: Bytes) returns (b: nat, k: nat, added: bool)
      requires Valid()
      modifies this
      ensures Valid()
      ensures b < |blocks| && k < |blocks[b]| && blocks[b][k].data == s
      ensures added <==> !Holds(old(Entries()), s)
      ensures !added ==> blocks == old(blocks)
      ensures added ==>
        && fresh(blocks[b][k]) && blocks[b][k].ordering == 0
        && WithOneMore(old(Entries()), blocks[b][k], Entries())
    {
      if |blocks| == 0 {
        var x := new RcString(s);
        blocks := [[x]];
        FlattenOne([x]);
        OneMoreAt(old(Entries()), 0, x, Entries());
        return 0, 0, true;
      }
      var m := BlockAfter(s);
      if m < |blocks| && Ord(blocks[m][0].data, s) == Equal {
        FoundAt(m, 0, s);
        return m, 0, false;
      }
      if m == 0 {
        b, k := AddEntry(0, 0, m, s);
        return b, k, true;
      }
      var slot := SlotFor(m - 1, s);
      if slot < |blocks[m - 1]| && Ord(blocks[m - 1][slot].data, s) == Equal {
        FoundAt(m - 1, slot, s);
        return m - 1, slot, false;
      }
      b, k := AddEntry(m - 1, slot, m, s);
      added := true;
    }

    lemma FoundAt(b: nat, k: nat, s: Bytes)
      requires b < |blocks| && k < |blocks[b]| && Ord(blocks[b][k].data, s) == Equal
      ensures blocks[b][k].data == s && Holds(Entries(), s)
    {
      BeforeTotal(blocks[b][k].data, s);
      EntryAt(blocks, b, k);
    }

    /** The slot found for a string that is not there is where it belongs. */
    ghost predicate Belongs(at: nat, slot: nat, m: nat, s: Bytes)
      reads this
      requires BlocksFit(blocks)
    {
      && m <= |blocks| && at < |blocks| && slot <= |blocks[at]| && at == (if m == 0 then 0 else m - 1)
      && (m < |blocks| ==> !Before(blocks[m][0].data, s) && Ord(blocks[m][0].data, s) != Equal)
      && (if m == 0 then slot == 0 else slot > 0)
      && (m > 0 ==> Before(blocks[at][slot - 1].data, s))
      && (m > 0 && slot < |blocks[at]| ==> !Before(blocks[at][slot].data, s) && Ord(blocks[at][slot].data, s) != Equal)
    }

    method AddEntry(at: nat, slot: nat, m: nat, s: Bytes) returns (b: nat, k: nat)
      requires Valid() && Belongs(at, slot, m, s)
      modifies this
      ensures Valid() && !Holds(old(Entries()), s)
      ensures b < |blocks| && k < |blocks[b]| && blocks[b][k].data == s
      ensures fresh(blocks[b][k]) && blocks[b][k].ordering == 0
      ensures WithOneMore(old(Entries()), blocks[b][k], Entries())
    {
      ghost var before, q := Entries(), Offset(blocks, at) + slot;
      Neighbours(at, slot, m, s);
      var x := new RcString(s);
      InsertSorted(before, q, x);
      b, k := InsertIntoBlock(at, slot, x);
      OneMoreAt(before, q, x, Entries());
    }

    /** The string falls between the entries around the slot that was found for it. */
    lemma Neighbours(at: nat, slot: nat, m: nat, s: Bytes)
      requires Valid() && Belongs(at, slot, m, s)
      ensures
        var es, q := Entries(), Offset(blocks, at) + slot;
        && q <= |es|
        && (q > 0 ==> Before(es[q - 1].data, s))
        && (q < |es| ==> Before(s, es[q].data))
    {
      var es, q := Entries(), Offset(blocks, at) + slot;
      FlattenAt(blocks, at);
      OffsetNext(blocks, at);
      if m > 0 {
        EntryAt(blocks, at, slot - 1);
      } else {
        assert blocks[..0] == [];
      }
      if slot < |blocks[at]| {
        EntryAt(blocks, at, slot);
        BeforeTotal(blocks[at][slot].data, s);
      } else if at + 1 < |blocks| {
        EntryAt(blocks, at + 1, 0);
        BeforeTotal(blocks[at + 1][0].data, s);
      }
    }

    /** A full block is split in two first; the halves stay next to each other. */
    method InsertIntoBlock(at: nat, slot: nat, x: RcString) returns (b: nat, k: nat)
      requires BlocksFit(blocks) && at < |blocks| && slot <= |blocks[at]|
      modifies this
      ensures BlocksFit(blocks)
      ensures b < |blocks| && k < |blocks[b]| && blocks[b][k] == x
      ensures
        var q := old(Offset(blocks, at)) + slot;
        0 <= q <= |old(Entries())| && Entries() == old(Entries())[..q] + [x] + old(Entries())[q..]
    {
      var ents := blocks[at];
      ghost var was := blocks;
      ghost var halves: seq<seq<RcString>>;
      if |ents| == BLOCK_SIZE {
        var split := |ents| / 2;
        HalvesJoin(ents, split, slot, x);
        if slot >= split {
          var upper := ents[split..slot] + [x] + ents[slot..];
          halves := [ents[..split], upper];
          blocks := blocks[..at] + [ents[..split], upper] + blocks[at + 1..];
          b, k := at + 1, slot - split;
        } else {
          var lower := ents[..slot] + [x] + ents[slot..split];
          halves := [lower, ents[split..]];
          blocks := blocks[..at] + [lower, ents[split..]] + blocks[at + 1..];
          b, k := at, slot;
        }
        FlattenTwo(halves[0], halves[1]);
      } else {
        halves := [ents[..slot] + [x] + ents[slot..]];
        blocks := blocks[..at] + [ents[..slot] + [x] + ents[slot..]] + blocks[at + 1..];
        b, k := at, slot;
        FlattenOne(halves[0]);
      }
      BlocksReplaced(was, at, halves);
      Inserted(was, at, slot, x, halves);
    }
  }

  lemma HalvesJoin<T>(ents: seq<T>, split: nat, slot: nat, x: T)
    requires split <= |ents| && slot <= |ents|
    ensures slot >= split ==> ents[..split] + (ents[split..slot] + [x] + ents[slot..]) == ents[..slot] + [x] + ents[slot..]
    ensures slot < split ==> ents[..slot] + [x] + ents[slot..split] + ents[split..] == ents[..slot] + [x] + ents[slot..]
  {
    if slot >= split {
      assert ents[..split] + ents[split..slot] == ents[..slot];
    } else {
      assert ents[slot..split] + ents[split..] == ents[slot..];
    }
  }

  lemma BlocksReplaced(blocks: seq<seq<RcString>>, at: nat, halves: seq<seq<RcString>>)
    requires BlocksFit(blocks) && at < |blocks| && 1 <= |halves|
    requires forall h :: 0 <= h < |halves| ==> 0 < |halves[h]| <= BLOCK_SIZE
    requires |halves| >= 2 ==> |blocks[at]| == BLOCK_SIZE && forall h :: 0 <= h < |halves| ==> |halves[h]| >= BLOCK_SIZE / 2
    requires |halves| == 1 ==> |halves[0]| >= |blocks[at]|
    ensures BlocksFit(blocks[..at] + halves + blocks[at + 1..])
  {
  }

  lemma FlattenTwo<T>(a: seq<T>, b: seq<T>)
    ensures Flatten([a, b]) == a + b
  {
    assert [a, b] == [a] + [b];
    FlattenConcat([a], [b]);
    FlattenOne(a);
    FlattenOne(b);
  }

  lemma {:induction false} OffsetGrows<T>(ss: seq<seq<T>>, a: nat, b: nat)
    requires a < b <= |ss| && forall i :: 0 <= i < |ss| ==> |ss[i]| > 0
    ensures Offset(ss, a) < Offset(ss, b)
    decreases b
  {
    OffsetNext(ss, b - 1);
    if a < b - 1 {
      OffsetGrows(ss, a, b - 1);
    }
  }

  /** Replacing a block by blocks that hold one more entry inserts that entry into the whole. */
  lemma Inserted<T>(ss: seq<seq<T>>, at: nat, slot: nat, x: T, halves: seq<seq<T>>)
    requires at < |ss| && slot <= |ss[at]| && Flatten(halves) == ss[at][..slot] + [x] + ss[at][slot..]
    ensures
      var q, all := Offset(ss, at) + slot, Flatten(ss);
      q <= |all| && Flatten(ss[..at] + halves + ss[at + 1..]) == all[..q] + [x] + all[q..]
  {
    FlattenAt(ss, at);
    FlattenReplaced(ss, at, halves);
    InsertedInMiddle(Flatten(ss[..at]), ss[at], Flatten(ss[at + 1..]), slot, x);
  }

  lemma InsertedInMiddle<T>(a: seq<T>, e: seq<T>, z: seq<T>, slot: nat, x: T)
    requires slot <= |e|
    ensures a + (e[..slot] + [x] + e[slot..]) + z == (a + e + z)[..|a| + slot] + [x] + (a + e + z)[|a| + slot..]
  {
    var all := a + e + z;
    assert all[..|a| + slot] == a + e[..slot];
    assert all[|a| + slot..] == e[slot..] + z;
  }

  // ----- walking over the set

  /** A position of the walk. */
  datatype It = It(block: nat, slot: nat)

  ghost predicate ItValid(blocks: seq<seq<RcString>>, it: It) {
    it == End(blocks) || (it.block < |blocks| && it.slot < |blocks[it.block]|)
  }

  /** Past the last slot of the last block; both numbers are compared. */
  function End(blocks: seq<seq<RcString>>): It {
    It(|blocks|, if blocks == [] then 0 else |blocks[|blocks| - 1]|)
  }

  /** How many entries the walk has passed. */
  ghost function Passed(blocks: seq<seq<RcString>>, it: It): nat
    requires ItValid(blocks, it)
  {
    if it == End(blocks) then |Flatten(blocks)| else Offset(blocks, it.block) + it.slot
  }

  /** To the next slot, or to the start of the next block; the last block leaves its slot where it is. */
  function Step(blocks: seq<seq<RcString>>, it: It): It
    requires it.block < |blocks|
  {
    if it.slot + 1 < |blocks[it.block]| then It(it.block, it.slot + 1)
    else if it.block + 1 < |blocks| then It(it.block + 1, 0)
    else It(it.block + 1, it.slot + 1)
  }

  /** The walk meets the entries one by one, in order, and after the last one it is at the end position. */
  lemma StepPasses(blocks: seq<seq<RcString>>, it: It)
    requires BlocksFit(blocks) && ItValid(blocks, it) && it != End(blocks)
    ensures it.block < |blocks|
    ensures Passed(blocks, it) < |Flatten(blocks)|
    ensures Flatten(blocks)[Passed(blocks, it)] == blocks[it.block][it.slot]
    ensures ItValid(blocks, Step(blocks, it)) && Passed(blocks, Step(blocks, it)) == Passed(blocks, it) + 1
    ensures Step(blocks, it) == End(blocks) <==> Passed(blocks, it) + 1 == |Flatten(blocks)|
  {
    EntryAt(blocks, it.block, it.slot);
    OffsetNext(blocks, it.block);
    var next := Step(blocks, it);
    if next.block < |blocks| {
      EntryAt(blocks, next.block, next.slot);
    }
  }

  // ----- the interner

  function Data(x: RcString?): Bytes {
    if x == null then [] else x.data
  }

  /** The entries carry their ranks, counted from one. */
  ghost predicate Ranked(es: seq<RcString>)
    reads es
  {
    forall i :: 0 <= i < |es| ==> es[i].ordering == i + 1
  }

  /** The entries are non-empty strings that are marked as interned. */
  ghost predicate Marked(es: seq<RcString>)
    reads es
  {
    forall i :: 0 <= i < |es| ==> es[i].data != [] && es[i].ordering != 0
  }

  lemma OneMoreMarked(es: seq<RcString>, x: RcString, all: seq<RcString>)
    requires Marked(es) && x.data != [] && x.ordering != 0 && WithOneMore(es, x, all)
    ensures Marked(all)
  {
    var q: nat :| PutIn(es, q, x, all);
  }

  class Interner {
    const strings: TieredSet
    var orderingValid: bool

    constructor ()
      ensures Valid() && strings.Entries() == [] && !orderingValid && fresh(strings)
    {
      strings := new TieredSet();
      orderingValid := false;
    }

    ghost predicate Valid()
      reads this, strings, strings.Entries()
    {
      && strings.Valid()
      && Marked(strings.Entries())
      && (orderingValid ==> Ranked(strings.Entries()))
    }

    /** Either not interned, or one of the entries. */
    ghost predicate Known(x: RcString?)
      reads strings, x
    {
      x != null ==> x.data != [] && (x.ordering != 0 ==> x in strings.Entries())
    }

    /** The one object for a string; a new one makes the ranks out of date. */
    method NewInterned(s: Bytes) returns (r: RcString?)
      requires Valid()
      modifies this, strings
      ensures Valid() && Data(r) == s
      ensures s == [] <==> r == null
      ensures r != null ==> r in strings.Entries()
      ensures s == [] || Holds(old(strings.Entries()), s) ==>
        strings.blocks == old(strings.blocks) && orderingValid == old(orderingValid)
      ensures s != [] && !Holds(old(strings.Entries()), s) ==>
        fresh(r) && WithOneMore(old(strings.Entries()), r, strings.Entries()) && !orderingValid
    {
      if |s| == 0 {
        return null;
      }
      ghost var es, was := strings.Entries(), strings.blocks;
      forall x | x in es ensures allocated(x) {
        var _ := MemberOfBlock(was, x);
      }
      assert Marked(es);
      var b, k, added := strings.LookupOrAdd(s);
      assert Marked(es);
      r := strings.blocks[b][k];
      assert r in strings.Entries() by {
        EntryAt(strings.blocks, b, k);
      }
      if added {
        r.ordering := 1;
        orderingValid := false;
        assert Marked(es);
        OneMoreMarked(es, r, strings.Entries());
      }
    }

    /** Compares ranks, which are renewed first if they are out of date. */
    method OrdInterned(x: RcString, y: RcString) returns (r: Ordering)
      requires Valid() && x in strings.Entries() && y in strings.Entries()
      modifies this, strings.Entries()
      ensures Valid() && orderingValid && strings.blocks == old(strings.blocks)
      ensures r == Ord(x.data, y.data)
    {
      if !orderingValid {
        RenewRanks();
      }
      r := OrdSize(x.ordering, y.ordering);
      ghost var es := strings.Entries();
      ghost var i :| 0 <= i < |es| && es[i] == x;
      ghost var j :| 0 <= j < |es| && es[j] == y;
      SortedDistinct(es, i, j);
    }

    method RenewRanks()
      requires Valid() && strings.blocks != []
      modifies this, strings.Entries()
      ensures Valid() && orderingValid && strings.blocks == old(strings.blocks)
    {
      ghost var es := strings.Entries();
      var it := It(0, 0);
      var i := 1;
      assert strings.blocks[..0] == [];
      while it != End(strings.blocks)
        invariant ItValid(strings.blocks, it) && Passed(strings.blocks, it) == i - 1 <= |es|
        invariant strings.Entries() == es && BlocksFit(strings.blocks) && strings.blocks == old(strings.blocks)
        invariant forall k :: 0 <= k < i - 1 ==> es[k].ordering == k + 1
        modifies es
        decreases |es| - i
      {
        StepPasses(strings.blocks, it);
        forall k | 0 <= k < i - 1 ensures es[k] != es[i - 1] {
          SortedDistinct(es, k, i - 1);
        }
        strings.blocks[it.block][it.slot].ordering := i;
        it := Step(strings.blocks, it);
        i := i + 1;
      }
      orderingValid := true;
    }

    /** Comparison of any two strings, interned or not: always the byte-wise order. */
    method OrdStrings(x: RcString?, y: RcString?) returns (r: Ordering)
      requires Valid() && Known(x) && Known(y)
      modifies this, strings.Entries()
      ensures Valid() && strings.blocks == old(strings.blocks)
      ensures r == Ord(Data(x), Data(y))
    {
      OrdIsLexicographic(Data(x), Data(y));
      if x == y {
        return Equal;
      }
      if x == null || y == null {
        OrdByHead(Data(x), Data(y));
        return if x != null then Greater else Less;
      }
      if x.ordering != 0 && y.ordering != 0 {
        r := OrdInterned(x, y);
      } else {
        r := Ord(x.data, y.data);
      }
    }
  }

  // ----- runs

  /** What a user of the interner does: intern a string, or compare two of the strings got so far. */
  datatype Request = Intern(s: Bytes) | Compare(i: nat, j: nat)

  function Names(rs: seq<Request>): seq<Bytes> {
    if rs == [] then []
    else
      var n := Names(rs[..|rs| - 1]);
      var last := rs[|rs| - 1];
      if last.Intern? then n + [last.s] else n
  }

  predicate InRange(rs: seq<Request>) {
    rs == [] || (
      var last := rs[|rs| - 1];
      InRange(rs[..|rs| - 1]) && (last.Compare? ==> last.i < |Names(rs[..|rs| - 1])| && last.j < |Names(rs[..|rs| - 1])|))
  }

  /** The byte-wise comparisons that are asked for. */
  function Answers(rs: seq<Request>): seq<Ordering>
    requires InRange(rs)
  {
    if rs == [] then []
    else
      var n, a := Names(rs[..|rs| - 1]), Answers(rs[..|rs| - 1]);
      var last := rs[|rs| - 1];
      if last.Compare? then a + [Ord(n[last.i], n[last.j])] else a
  }

  lemma {:induction false} InRangePrefix(rs: seq<Request>, k: nat)
    requires InRange(rs) && k <= |rs|
    ensures InRange(rs[..k])
    decreases rs
  {
    if k < |rs| {
      InRangePrefix(rs[..|rs| - 1], k);
      assert rs[..|rs| - 1][..k] == rs[..k];
    } else {
      assert rs[..k] == rs;
    }
  }

  /** Same strings are the same object, and different strings are not. */
  ghost predicate OneObjectEach(got: seq<RcString?>, names: seq<Bytes>) {
    |got| == |names| && forall i, j :: 0 <= i < |got| && 0 <= j < |got| ==> (got[i] == got[j] <==> names[i] == names[j])
  }

  ghost predicate GotNames(es: seq<RcString>, got: seq<RcString?>, names: seq<Bytes>) {
    |got| == |names| && forall i :: 0 <= i < |got| ==> Data(got[i]) == names[i] && (got[i] != null ==> got[i] in es)
  }

  lemma GotNamesOnce(es: seq<RcString>, got: seq<RcString?>, names: seq<Bytes>)
    requires Sorted(es) && Marked(es) && GotNames(es, got, names)
    ensures OneObjectEach(got, names)
  {
    forall i, j | 0 <= i < |got| && 0 <= j < |got| && names[i] == names[j] ensures got[i] == got[j] {
      if got[i] != null && got[j] != null {
        var a :| 0 <= a < |es| && es[a] == got[i];
        var b :| 0 <= b < |es| && es[b] == got[j];
        SortedDistinct(es, a, b);
      }
    }
  }

  lemma OneMoreGot(es: seq<RcString>, all: seq<RcString>, got: seq<RcString?>, names: seq<Bytes>, x: RcString?, s: Bytes)
    requires GotNames(es, got, names) && Data(x) == s && (x != null ==> x in all)
    requires all == es || (x != null && WithOneMore(es, x, all))
    ensures GotNames(all, got + [x], names + [s])
  {
    if all != es {
      OneMoreMembers(es, x, all);
    }
  }

  lemma NamesNext(rs: seq<Request>, n: nat)
    requires n < |rs| && InRange(rs)
    ensures InRange(rs[..n]) && InRange(rs[..n + 1])
    ensures Names(rs[..n + 1]) == if rs[n].Intern? then Names(rs[..n]) + [rs[n].s] else Names(rs[..n])
    ensures rs[n].Compare? ==> rs[n].i < |Names(rs[..n])| && rs[n].j < |Names(rs[..n])|
    ensures Answers(rs[..n + 1]) ==
      if rs[n].Compare? then Answers(rs[..n]) + [Ord(Names(rs[..n])[rs[n].i], Names(rs[..n])[rs[n].j])] else Answers(rs[..n])
  {
    InRangePrefix(rs, n + 1);
    assert rs[..n + 1][..n] == rs[..n] && rs[..n + 1][n] == rs[n];
  }

  /** Over every run, in whatever order strings are interned and compared: equal strings are always the same
      object, different ones never are, and every comparison is the byte-wise one. */
  method Run(interner: Interner, rs: seq<Request>) returns (got: seq<RcString?>, answers: seq<Ordering>)
    requires interner.Valid() && interner.strings.Entries() == [] && InRange(rs)
    modifies interner, interner.strings
    ensures interner.Valid()
    ensures GotNames(interner.strings.Entries(), got, Names(rs)) && OneObjectEach(got, Names(rs))
    ensures answers == Answers(rs)
  {
    got, answers := [], [];
    var n := 0;
    while n < |rs|
      invariant 0 <= n <= |rs|
      invariant interner.Valid() && fresh(interner.strings.Entries())
      invariant InRange(rs[..n]) && answers == Answers(rs[..n])
      invariant GotNames(interner.strings.Entries(), got, Names(rs[..n]))
    {
      NamesNext(rs, n);
      match rs[n] {
        case Intern(s) =>
          var x := Fetch(interner, got, Names(rs[..n]), s);
          got := got + [x];
          assert forall i :: 0 <= i < |interner.strings.Entries()| ==> fresh(interner.strings.Entries()[i]);
        case Compare(i, j) =>
          var o := interner.OrdStrings(got[i], got[j]);
          answers := answers + [o];
      }
      n := n + 1;
    }
    assert rs[..n] == rs;
    GotNamesOnce(interner.strings.Entries(), got, Names(rs));
  }

  method Fetch(interner: Interner, ghost got: seq<RcString?>, ghost names: seq<Bytes>, s: Bytes) returns (x: RcString?)
    requires interner.Valid() && GotNames(interner.strings.Entries(), got, names)
    modifies interner, interner.strings
    ensures interner.Valid() && GotNames(interner.strings.Entries(), got + [x], names + [s])
    ensures forall i :: 0 <= i < |interner.strings.Entries()| ==>
      interner.strings.Entries()[i] in old(interner.strings.Entries()) || fresh(interner.strings.Entries()[i])
  {
    ghost var es := interner.strings.Entries();
    x := interner.NewInterned(s);
    OneMoreGot(es, interner.strings.Entries(), got, names, x, s);
    if interner.strings.Entries() != es {
      OneMoreMembers(es, x, interner.strings.Entries());
    }
  }
}
