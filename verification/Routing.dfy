/** Spreading an appended batch over the shards. */
module Routing {
  import opened Types
  import opened ChunkIndex
  import Memtable

  // ----- The shard mask -----

  /** Bitwise and. */
  function BitAnd(a: nat, b: nat): nat {
    if a == 0 || b == 0 then 0 else (a % 2) * (b % 2) + 2 * BitAnd(a / 2, b / 2)
  }

  function Pow2(k: nat): (p: nat)
    ensures p > 0
  {
    if k == 0 then 1 else 2 * Pow2(k - 1)
  }

  ghost predicate PowerOfTwo(n: nat) {
    exists k: nat :: Pow2(k) == n
  }

  predicate AllOnes(m: nat) {
    m == 0 || (m % 2 == 1 && AllOnes(m / 2))
  }

  lemma {:induction false} AllOnesIs(m: nat)
    ensures AllOnes(m) <==> PowerOfTwo(m + 1)
  {
    if m == 0 {
      assert Pow2(0) == 1;
    } else {
      AllOnesIs(m / 2);
      if k: nat :| Pow2(k) == m / 2 + 1 && m % 2 == 1 {
        assert Pow2(k + 1) == m + 1;
      }
      if k: nat :| Pow2(k) == m + 1 {
        assert k > 0 && Pow2(k - 1) == m / 2 + 1;
      }
    }
  }

  lemma {:induction false} MaskIsMod(x: nat, k: nat)
    ensures BitAnd(x, Pow2(k) - 1) == x % Pow2(k)
  {
    if k > 0 {
      var p := Pow2(k - 1);
      MaskIsMod(x / 2, k - 1);
      assert (2 * p - 1) / 2 == p - 1 && (2 * p - 1) % 2 == 1;
      ModHalves(x, p);
    }
  }

  lemma ModHalves(x: nat, p: nat)
    requires p > 0
    ensures x % (2 * p) == x % 2 + 2 * ((x / 2) % p)
  {
    var q, r := (x / 2) / p, (x / 2) % p;
    assert x == (2 * p) * q + (x % 2 + 2 * r);
    DivModUnique(x, 2 * p, q, x % 2 + 2 * r);
  }

  /** A mask with a hole loses some value below it. */
  lemma {:induction false} HoleLoses(m: nat) returns (x: nat)
    requires !AllOnes(m)
    ensures x <= m && BitAnd(x, m) != x
  {
    if m % 2 == 0 {
      x := 1;
      assert BitAnd(0, m / 2) == 0;
    } else {
      var y := HoleLoses(m / 2);
      x := 2 * y;
    }
  }

  /** Masking with `n - 1` is the remainder by `n` for every id exactly when `n` is a power of two. */
  lemma MaskExact(n: nat)
    requires n > 0
    ensures (forall x: nat :: BitAnd(x, n - 1) == x % n) <==> PowerOfTwo(n)
  {
    hide BitAnd, AllOnes;
    AllOnesIs(n - 1);
    if k: nat :| Pow2(k) == n {
      forall x: nat ensures BitAnd(x, n - 1) == x % n {
        MaskIsMod(x, k);
      }
    } else {
      var x := HoleLoses(n - 1);
      assert x % n == x;
    }
  }

  /** The shard of a point: the low bits of its series id. */
  function ShardIndex(hash: Hash, p: DataPoint, shards: nat): nat
    requires shards > 0
  {
    BitAnd(hash(p.key), shards - 1)
  }

  lemma {:induction false} MaskBounded(x: nat, m: nat)
    ensures BitAnd(x, m) <= m
  {
    if x != 0 && m != 0 {
      MaskBounded(x / 2, m / 2);
    }
  }

  /** Every point gets one of the shards, and with a power of two of them the one its series id leaves as remainder. */
  lemma ShardIsRemainder(hash: Hash, p: DataPoint, shards: nat)
    requires shards > 0
    ensures ShardIndex(hash, p, shards) < shards
    ensures PowerOfTwo(shards) ==> ShardIndex(hash, p, shards) == hash(p.key) % shards
  {
    hide BitAnd;
    MaskBounded(hash(p.key), shards - 1);
    MaskExact(shards);
  }

  // ----- Grouping a batch -----

  type Tagged = (nat, nat)

  /** The batch as (shard, position) pairs in order of shard; equal shards may come in any order. */
  ghost predicate Sorts(hash: Hash, pts: seq<DataPoint>, shards: nat, s: seq<Tagged>)
    requires shards > 0
  {
    && |s| == |pts|
    && (forall k :: 0 <= k < |s| ==> s[k].1 < |pts| && s[k].0 == ShardIndex(hash, pts[s[k].1], shards))
    && (forall j, k :: 0 <= j < k < |s| ==> s[j].1 != s[k].1)
    && (forall j, k :: 0 <= j < k < |s| ==> s[j].0 <= s[k].0)
  }

  ghost predicate InBounds(pts: seq<DataPoint>, s: seq<Tagged>) {
    forall k :: 0 <= k < |s| ==> s[k].1 < |pts|
  }

  function Picked(pts: seq<DataPoint>, s: seq<Tagged>): seq<DataPoint>
    requires InBounds(pts, s)
  {
    seq(|s|, k requires 0 <= k < |s| => pts[s[k].1])
  }

  datatype Group = Group(shard: nat, points: seq<DataPoint>)

  /** A group has points, and all belong to its shard. */
  ghost predicate Routed(hash: Hash, shards: nat, g: Group)
    requires shards > 0
  {
    g.points != [] && forall k :: 0 <= k < |g.points| ==> ShardIndex(hash, g.points[k], shards) == g.shard
  }

  ghost function Flat(groups: seq<Group>): seq<DataPoint> {
    if groups == [] then [] else Flat(groups[..|groups| - 1]) + groups[|groups| - 1].points
  }

  /** First position from `j` on with another shard, by bisection. */
  method PartitionPoint(s: seq<Tagged>, j: nat) returns (end: nat)
    requires j < |s| && forall i, k :: 0 <= i < k < |s| ==> s[i].0 <= s[k].0
    ensures j < end <= |s|
    ensures forall k :: j <= k < end ==> s[k].0 == s[j].0
    ensures forall k :: end <= k < |s| ==> s[k].0 > s[j].0
  {
    var lo, hi := j + 1, |s|;
    while lo < hi
      invariant j < lo <= hi <= |s|
      invariant forall k :: j <= k < lo ==> s[k].0 == s[j].0
      invariant forall k :: hi <= k < |s| ==> s[k].0 > s[j].0
    {
      var mid := (lo + hi) / 2;
      if s[mid].0 == s[j].0 {
        lo := mid + 1;
      } else {
        hi := mid;
      }
    }
    end := lo;
  }

  lemma FlatSnoc(groups: seq<Group>, g: Group)
    ensures Flat(groups + [g]) == Flat(groups) + g.points
  {
    assert (groups + [g])[..|groups|] == groups;
  }

  /** The entries of one shard form a group. */
  lemma NextGroup(hash: Hash, pts: seq<DataPoint>, shards: nat, s: seq<Tagged>, j: nat, end: nat)
    requires shards > 0 && Sorts(hash, pts, shards, s) && j < end <= |s| && forall k :: j <= k < end ==> s[k].0 == s[j].0
    ensures InBounds(pts, s[j..end]) && InBounds(pts, s[..end]) && InBounds(pts, s[..j])
    ensures Routed(hash, shards, Group(s[j].0, Picked(pts, s[j..end])))
    ensures Picked(pts, s[..end]) == Picked(pts, s[..j]) + Picked(pts, s[j..end])
  {
    hide ShardIndex;
    assert s[..end] == s[..j] + s[j..end];
    forall k | 0 <= k < end - j ensures ShardIndex(hash, Picked(pts, s[j..end])[k], shards) == s[j].0 {
      assert s[j..end][k] == s[j + k];
    }
  }

  /** One group per shard, in increasing order, and together they are the sorted batch. */
  method GroupByShard(hash: Hash, pts: seq<DataPoint>, shards: nat, s: seq<Tagged>) returns (groups: seq<Group>)
    requires shards > 0 && Sorts(hash, pts, shards, s)
    ensures Flat(groups) == Picked(pts, s) && multiset(Flat(groups)) == multiset(pts)
    ensures forall i, j :: 0 <= i < j < |groups| ==> groups[i].shard < groups[j].shard
    ensures forall i :: 0 <= i < |groups| ==> groups[i].shard < shards && groups[i].points != []
    ensures PowerOfTwo(shards) ==>
              forall i, p :: 0 <= i < |groups| && p in groups[i].points ==> hash(p.key) % shards == groups[i].shard
  {
    hide ShardIndex, Routed, Flat, Picked;
    groups := [];
    FlatEmpty(pts, s);
    var j := 0;
    while j < |s|
      invariant 0 <= j <= |s|
      invariant InBounds(pts, s[..j]) && Flat(groups) == Picked(pts, s[..j])
      invariant forall i :: 0 <= i < |groups| ==> Routed(hash, shards, groups[i]) && (j < |s| ==> groups[i].shard < s[j].0)
      invariant forall i, k :: 0 <= i < k < |groups| ==> groups[i].shard < groups[k].shard
    {
      var end := PartitionPoint(s, j);
      NextGroup(hash, pts, shards, s, j, end);
      var g := Group(s[j].0, Picked(pts, s[j..end]));
      FlatSnoc(groups, g);
      groups := groups + [g];
      j := end;
    }
    assert s[..j] == s;
    PickedKeepsAll(pts, s);
    forall i | 0 <= i < |groups|
      ensures groups[i].shard < shards && groups[i].points != []
      ensures PowerOfTwo(shards) ==> forall p :: p in groups[i].points ==> hash(p.key) % shards == groups[i].shard
    {
      RoutedByRemainder(hash, shards, groups[i]);
    }
  }

  lemma RoutedByRemainder(hash: Hash, shards: nat, g: Group)
    requires shards > 0 && Routed(hash, shards, g)
    ensures g.shard < shards && g.points != []
    ensures PowerOfTwo(shards) ==> forall p :: p in g.points ==> hash(p.key) % shards == g.shard
  {
    hide ShardIndex, PowerOfTwo;
    ShardIsRemainder(hash, g.points[0], shards);
    forall p | p in g.points && PowerOfTwo(shards) ensures hash(p.key) % shards == g.shard {
      ShardIsRemainder(hash, p, shards);
    }
  }

  lemma FlatEmpty(pts: seq<DataPoint>, s: seq<Tagged>)
    ensures InBounds(pts, s[..0]) && Flat([]) == Picked(pts, s[..0])
  {
  }

  // ----- What the order of a batch decides -----

  lemma PickedRemove(pts: seq<DataPoint>, s: seq<Tagged>, k: nat)
    requires InBounds(pts, s) && k < |s|
    ensures multiset(Picked(pts, s)) == multiset(Picked(pts, s[..k] + s[k + 1..])) + multiset{pts[s[k].1]}
  {
    var a, b := Picked(pts, s[..k]), Picked(pts, s[k + 1..]);
    assert Picked(pts, s) == a + [pts[s[k].1]] + b;
    assert Picked(pts, s[..k] + s[k + 1..]) == a + b;
  }

  ghost predicate Permutes(n: nat, s: seq<Tagged>) {
    |s| == n && (forall k :: 0 <= k < |s| ==> s[k].1 < n) && forall j, k :: 0 <= j < k < |s| ==> s[j].1 != s[k].1
  }

  ghost function Below(n: nat): set<nat> {
    if n == 0 then {} else Below(n - 1) + {n - 1}
  }

  ghost function Targets(s: seq<Tagged>): set<nat> {
    if s == [] then {} else Targets(s[..|s| - 1]) + {s[|s| - 1].1}
  }

  lemma {:induction false} BelowIs(n: nat)
    ensures |Below(n)| == n && forall i: nat :: i in Below(n) <==> i < n
  {
    if n > 0 {
      BelowIs(n - 1);
      assert n - 1 !in Below(n - 1);
    }
  }

  lemma {:induction false} TargetsAre(s: seq<Tagged>, n: nat)
    requires (forall k :: 0 <= k < |s| ==> s[k].1 < n) && forall j, k :: 0 <= j < k < |s| ==> s[j].1 != s[k].1
    ensures |Targets(s)| == |s| && forall i: nat :: i in Targets(s) ==> i < n && exists k :: 0 <= k < |s| && s[k].1 == i
  {
    if s != [] {
      var m := |s| - 1;
      TargetsAre(s[..m], n);
      forall i: nat | i in Targets(s[..m]) ensures exists k :: 0 <= k < m && s[k].1 == i {
        var k :| 0 <= k < m && s[..m][k].1 == i;
        assert s[k].1 == i;
      }
    }
  }

  lemma PositionOf(n: nat, s: seq<Tagged>, i: nat) returns (k: nat)
    requires Permutes(n, s) && i < n
    ensures k < |s| && s[k].1 == i
  {
    hide Below, Targets;
    BelowIs(n);
    TargetsAre(s, n);
    assert Targets(s) <= Below(n);
    SubsetFull(Targets(s), Below(n));
    assert i in Targets(s);
    k :| 0 <= k < |s| && s[k].1 == i;
  }

  lemma SubsetFull(a: set<nat>, b: set<nat>)
    requires a <= b && |a| == |b|
    ensures a == b
  {
    assert b == a + (b - a);
  }

  /** Every point of the batch is in exactly one group, as often as the batch has it. */
  lemma {:induction false} PickedKeepsAll(pts: seq<DataPoint>, s: seq<Tagged>)
    requires Permutes(|pts|, s)
    ensures multiset(Picked(pts, s)) == multiset(pts)
  {
    if pts != [] {
      var n := |pts| - 1;
      var k := PositionOf(|pts|, s, n);
      var t := s[..k] + s[k + 1..];
      PickedRemove(pts, s, k);
      PickedKeepsAll(pts[..n], t);
      assert Picked(pts, t) == Picked(pts[..n], t);
      assert pts == pts[..n] + [pts[n]];
    }
  }

  /** Points of the batch that share a slot carry the same value. */
  ghost predicate Consistent(pts: seq<DataPoint>) {
    forall p, r :: p in pts && r in pts && SlotOf(p) == SlotOf(r) ==> p.value == r.value
  }

  /** A batch without conflicting points has the same effect in whatever order its shards are sorted. */
  lemma ConsistentBatch(pts: seq<DataPoint>, s: seq<Tagged>, slot: Slot)
    requires Permutes(|pts|, s) && Consistent(pts)
    ensures Memtable.Latest(Picked(pts, s), slot) == Memtable.Latest(pts, slot)
  {
    var picked := Picked(pts, s);
    PickedKeepsAll(pts, s);
    assert forall p :: p in picked <==> p in multiset(picked);
    assert forall p :: p in pts <==> p in multiset(pts);
    Memtable.LatestFrom(pts, slot);
    Memtable.LatestFrom(picked, slot);
  }

  lemma {:induction false} LatestAt(pts: seq<DataPoint>, k: nat)
    requires k < |pts| && forall i :: k < i < |pts| ==> SlotOf(pts[i]) != SlotOf(pts[k])
    ensures Memtable.Latest(pts, SlotOf(pts[k])) == Some(pts[k].value)
  {
    if k < |pts| - 1 {
      LatestAt(pts[..|pts| - 1], k);
    }
  }

  lemma {:induction false} LastOf(pts: seq<DataPoint>, slot: Slot) returns (k: nat)
    requires exists i :: 0 <= i < |pts| && SlotOf(pts[i]) == slot
    ensures k < |pts| && SlotOf(pts[k]) == slot && forall i :: k < i < |pts| ==> SlotOf(pts[i]) != slot
  {
    var n := |pts| - 1;
    if SlotOf(pts[n]) == slot {
      k := n;
    } else {
      var i :| 0 <= i < |pts| && SlotOf(pts[i]) == slot;
      assert pts[..n][i] == pts[i];
      k := LastOf(pts[..n], slot);
      assert forall i :: k < i < n ==> pts[..n][i] == pts[i];
    }
  }

  /**
   * The batch is sorted by shard with a sort that need not keep the order of equal shards. For a batch with
   * conflicting points, every way of sorting it has another one that leaves a different value behind.
   */
  lemma OrderDecides(hash: Hash, pts: seq<DataPoint>, shards: nat, s: seq<Tagged>, i: nat, j: nat) returns (t: seq<Tagged>, slot: Slot)
    requires shards > 0 && Sorts(hash, pts, shards, s)
    requires i < |s| && j < |s| && SlotOf(pts[s[i].1]) == SlotOf(pts[s[j].1]) && pts[s[i].1].value != pts[s[j].1].value
    ensures Sorts(hash, pts, shards, t)
    ensures Memtable.Latest(Picked(pts, s), slot) != Memtable.Latest(Picked(pts, t), slot)
  {
    hide ShardIndex;
    var picked := Picked(pts, s);
    slot := SlotOf(pts[s[i].1]);
    assert SlotOf(picked[i]) == slot;
    var k := LastOf(picked, slot);
    var o := if picked[k].value == picked[i].value then j else i;
    LatestAt(picked, k);
    t := s[k := s[o]][o := s[k]];
    SwapSorts(hash, pts, shards, s, k, o);
    var swapped := Picked(pts, t);
    assert swapped == picked[k := picked[o]][o := picked[k]];
    LatestAt(swapped, k);
  }

  lemma SwapSorts(hash: Hash, pts: seq<DataPoint>, shards: nat, s: seq<Tagged>, k: nat, o: nat)
    requires shards > 0 && Sorts(hash, pts, shards, s) && k < |s| && o < |s| && pts[s[k].1].key == pts[s[o].1].key
    ensures Sorts(hash, pts, shards, s[k := s[o]][o := s[k]])
  {
    hide BitAnd;
    assert s[k].0 == s[o].0;
  }
}
