/** The in-memory write buffer of one shard. */
module Memtable {
  import opened Types
  import SeriesKeys

  type Table = map<SeriesKey, Points>

  predicate Sorted(v: Points) {
    forall i, j :: 0 <= i < j < |v| ==> v[i].0 < v[j].0
  }

  // ----- One series -----

  /** A point overwrites the one with its timestamp, or goes to its place in time order. */
  function Upsert(v: Points, ts: i64, value: F64): Points {
    if v == [] then [(ts, value)]
    else if v[0].0 < ts then [v[0]] + Upsert(v[1..], ts, value)
    else if v[0].0 == ts then [(ts, value)] + v[1..]
    else [(ts, value)] + v
  }

  predicate HasTime(v: Points, ts: i64) {
    exists i :: 0 <= i < |v| && v[i].0 == ts
  }

  lemma {:induction false} UpsertMembers(v: Points, ts: i64, value: F64)
    requires Sorted(v)
    ensures forall p :: p in Upsert(v, ts, value) <==> p == (ts, value) || (p in v && p.0 != ts)
  {
    if v != [] {
      assert v == [v[0]] + v[1..];
      if v[0].0 < ts {
        UpsertMembers(v[1..], ts, value);
      }
    }
  }

  lemma SortedCons(p: (i64, F64), w: Points)
    requires Sorted(w) && forall i :: 0 <= i < |w| ==> p.0 < w[i].0
    ensures Sorted([p] + w)
  {
  }

  lemma {:induction false} UpsertSorted(v: Points, ts: i64, value: F64)
    requires Sorted(v)
    ensures Sorted(Upsert(v, ts, value))
  {
    if v != [] && v[0].0 < ts {
      var w := Upsert(v[1..], ts, value);
      UpsertSorted(v[1..], ts, value);
      UpsertMembers(v[1..], ts, value);
      forall i | 0 <= i < |w| ensures v[0].0 < w[i].0 {
        assert w[i] in w;
      }
      assert Upsert(v, ts, value) == [v[0]] + w;
      SortedCons(v[0], w);
    } else if v != [] && v[0].0 == ts {
      SortedCons((ts, value), v[1..]);
    }
  }

  lemma {:induction false} UpsertLength(v: Points, ts: i64, value: F64)
    requires Sorted(v)
    ensures |Upsert(v, ts, value)| == |v| + (if HasTime(v, ts) then 0 else 1)
  {
    if v != [] && v[0].0 < ts {
      UpsertLength(v[1..], ts, value);
      if HasTime(v[1..], ts) {
        var i :| 0 <= i < |v[1..]| && v[1..][i].0 == ts;
        assert v[i + 1].0 == ts;
      } else {
        assert forall i :: 0 < i < |v| ==> v[i] == v[1..][i - 1];
      }
    }
  }

  /** Position of a timestamp in a sorted series, or where it would have to go. */
  predicate Located(v: Points, ts: i64, found: bool, pos: nat) {
    && pos <= |v|
    && (found ==> pos < |v| && v[pos].0 == ts)
    && (forall i :: 0 <= i < pos ==> v[i].0 < ts)
    && (forall i :: pos <= i < |v| ==> if found then ts <= v[i].0 else ts < v[i].0)
  }

  method BinarySearch(v: Points, ts: i64) returns (found: bool, pos: nat)
    requires Sorted(v)
    ensures Located(v, ts, found, pos)
  {
    var lo, hi := 0, |v|;
    while lo < hi
      invariant 0 <= lo <= hi <= |v|
      invariant forall i :: 0 <= i < lo ==> v[i].0 < ts
      invariant forall i :: hi <= i < |v| ==> ts < v[i].0
    {
      var mid := (lo + hi) / 2;
      if v[mid].0 < ts {
        lo := mid + 1;
      } else if v[mid].0 == ts {
        return true, mid;
      } else {
        hi := mid;
      }
    }
    return false, lo;
  }

  function Placed(v: Points, ts: i64, value: F64, found: bool, pos: nat): Points
    requires pos <= |v| && (found ==> pos < |v|)
  {
    if found then v[pos := (ts, value)] else v[..pos] + [(ts, value)] + v[pos..]
  }

  lemma PlacedCons(v: Points, ts: i64, value: F64, found: bool, pos: nat)
    requires 0 < pos <= |v| && (found ==> pos < |v|)
    ensures Placed(v, ts, value, found, pos) == [v[0]] + Placed(v[1..], ts, value, found, pos - 1)
  {
    if !found {
      assert v[..pos] == [v[0]] + v[1..][..pos - 1];
      assert v[pos..] == v[1..][pos - 1..];
    }
  }

  /** Updating or inserting at the searched position is the upsert. */
  lemma {:induction false} PlacedIsUpsert(v: Points, ts: i64, value: F64, found: bool, pos: nat)
    requires Located(v, ts, found, pos)
    ensures Placed(v, ts, value, found, pos) == Upsert(v, ts, value)
  {
    if pos == 0 {
      if found {
        assert v[0 := (ts, value)] == [(ts, value)] + v[1..];
      } else {
        assert v[..0] + [(ts, value)] + v[0..] == [(ts, value)] + v;
      }
    } else {
      assert Located(v[1..], ts, found, pos - 1);
      PlacedIsUpsert(v[1..], ts, value, found, pos - 1);
      PlacedCons(v, ts, value, found, pos);
      assert v[0].0 < ts;
      hide Placed, Located;
    }
  }

  // ----- The whole table -----

  /** `key` has value `value` at `ts`. */
  predicate Holds(t: Table, key: SeriesKey, ts: i64, value: F64) {
    key in t && (ts, value) in t[key]
  }

  /** Every series is non-empty and strictly sorted by time. */
  predicate TableOk(t: Table) {
    forall k :: k in t ==> t[k] != [] && Sorted(t[k])
  }

  function Series(t: Table, key: SeriesKey): Points {
    if key in t then t[key] else []
  }

  function Inserted(t: Table, p: DataPoint): Table {
    t[p.key := Upsert(Series(t, p.key), p.ts, p.value)]
  }

  function InsertedAll(t: Table, ps: seq<DataPoint>): Table {
    if ps == [] then t else Inserted(InsertedAll(t, ps[..|ps| - 1]), ps[|ps| - 1])
  }

  /** The value a slot has after a sequence of writes: that of the last write to it. */
  function Latest(ps: seq<DataPoint>, slot: Slot): Option<F64> {
    if ps == [] then None
    else if SlotOf(ps[|ps| - 1]) == slot then Some(ps[|ps| - 1].value)
    else Latest(ps[..|ps| - 1], slot)
  }

  /** The latest value of a slot is that of some point for it; without a value there is no such point. */
  lemma {:induction false} LatestFrom(pts: seq<DataPoint>, slot: Slot)
    ensures match Latest(pts, slot)
            case None => forall p :: p in pts ==> SlotOf(p) != slot
            case Some(v) => exists p :: p in pts && SlotOf(p) == slot && p.value == v
  {
    if pts != [] {
      var n := |pts| - 1;
      LatestFrom(pts[..n], slot);
      assert pts == pts[..n] + [pts[n]];
    }
  }

  lemma InsertedOk(t: Table, p: DataPoint)
    requires TableOk(t)
    ensures TableOk(Inserted(t, p))
    ensures forall k, ts: i64, v: F64 :: Holds(Inserted(t, p), k, ts, v) <==>
              if (k, ts) == SlotOf(p) then v == p.value else Holds(t, k, ts, v)
  {
    UpsertSorted(Series(t, p.key), p.ts, p.value);
    UpsertMembers(Series(t, p.key), p.ts, p.value);
  }

  /** After any sequence of inserts the table is the last-write-wins map of the points. */
  lemma {:induction false} TableIsLastWriteWins(ps: seq<DataPoint>)
    ensures TableOk(InsertedAll(map[], ps))
    ensures forall k, ts: i64, v: F64 :: Holds(InsertedAll(map[], ps), k, ts, v) <==> Latest(ps, (k, ts)) == Some(v)
  {
    if ps != [] {
      TableIsLastWriteWins(ps[..|ps| - 1]);
      InsertedOk(InsertedAll(map[], ps[..|ps| - 1]), ps[|ps| - 1]);
    }
  }

  // ----- Accounting -----

  const POINT_COST: nat := 32
  const NODE_COST: nat := 8

  function TextCost(tags: map<Text, Text>, ks: seq<Text>): nat
    requires forall k :: k in ks ==> k in tags
  {
    if ks == [] then 0 else |ks[0]| + |tags[ks[0]]| + TextCost(tags, ks[1..])
  }

  /** Heap cost of a series key: its strings and one tree node. */
  function KeyCost(key: SeriesKey): nat {
    |key.metric| + TextCost(key.tags, SeriesKeys.SortedKeys(key.tags.Keys)) + NODE_COST
  }

  /** A key costs what it takes to print it without its separators, and eight bytes more. */
  lemma KeyCostExact(key: SeriesKey)
    ensures KeyCost(key) + 2 * |key.tags| == |SeriesKeys.ToBytes(key)| + 8
  {
    var ks := SeriesKeys.SortedKeys(key.tags.Keys);
    SeriesKeys.SortedLength(key.tags.Keys);
    TextCostPrinted(key.tags, ks);
    assert |key.tags| == |key.tags.Keys|;
  }

  lemma {:induction false} TextCostPrinted(tags: map<Text, Text>, ks: seq<Text>)
    requires forall k :: k in ks ==> k in tags
    ensures TextCost(tags, ks) + 2 * |ks| == |SeriesKeys.TagBytes(ks, tags)|
  {
    if ks != [] {
      TextCostPrinted(tags, ks[1..]);
    }
  }

  /** Points and key costs summed over the series of a table. */
  ghost function PointCount(t: Table): nat {
    if t == map[] then 0 else var k :| k in t; |t[k]| + PointCount(t - {k})
  }

  ghost function KeyCosts(ks: set<SeriesKey>): nat {
    if ks == {} then 0 else var k :| k in ks; KeyCost(k) + KeyCosts(ks - {k})
  }

  lemma {:induction false} PointCountOf(t: Table, k: SeriesKey)
    requires k in t
    ensures PointCount(t) == |t[k]| + PointCount(t - {k})
    decreases |t|
  {
    var j :| j in t && PointCount(t) == |t[j]| + PointCount(t - {j});
    if j != k {
      assert |t - {j}| < |t| by {
        assert (t - {j}).Keys == t.Keys - {j};
      }
      assert |t - {k}| < |t| by {
        assert (t - {k}).Keys == t.Keys - {k};
      }
      PointCountOf(t - {j}, k);
      PointCountOf(t - {k}, j);
      assert t - {j} - {k} == t - {k} - {j};
    }
  }

  lemma {:induction false} KeyCostsOf(ks: set<SeriesKey>, k: SeriesKey)
    requires k in ks
    ensures KeyCosts(ks) == KeyCost(k) + KeyCosts(ks - {k})
  {
    hide KeyCost;
    var j :| j in ks && KeyCosts(ks) == KeyCost(j) + KeyCosts(ks - {j});
    if j != k {
      KeyCostsOf(ks - {j}, k);
      KeyCostsOf(ks - {k}, j);
      assert ks - {j} - {k} == ks - {k} - {j};
    }
  }

  /** One upserted series changes the totals by its own change. */
  lemma UpdateTotals(t: Table, key: SeriesKey, v: Points)
    ensures PointCount(t[key := v]) == PointCount(t) - |Series(t, key)| + |v|
    ensures KeyCosts(t[key := v].Keys) == KeyCosts(t.Keys) + (if key in t then 0 else KeyCost(key))
  {
    hide KeyCost;
    var t' := t[key := v];
    PointCountOf(t', key);
    KeyCostsOf(t'.Keys, key);
    assert t' - {key} == t - {key};
    if key in t {
      PointCountOf(t, key);
      assert t'.Keys == t.Keys;
    } else {
      assert t - {key} == t;
      assert t'.Keys - {key} == t.Keys;
    }
  }

  class Memtable {
    var entries: Table
    var sizeBytes: nat
    var entryCount: nat
    const flushThreshold: nat

    /** The table is well formed and the counters are exact. */
    ghost predicate Valid()
      reads this
    {
      && TableOk(entries)
      && entryCount == PointCount(entries)
      && sizeBytes == POINT_COST * entryCount + KeyCosts(entries.Keys)
    }

    constructor (threshold: nat)
      ensures Valid() && entries == map[] && flushThreshold == threshold
    {
      entries, sizeBytes, entryCount := map[], 0, 0;
      flushThreshold := threshold;
    }

    method Insert(p: DataPoint)
      requires Valid()
      modifies this
      ensures Valid() && entries == Inserted(old(entries), p)
    {
      hide TableOk, Sorted, PointCount, KeyCosts, KeyCost, Upsert, Located, HasTime;
      var isNew := p.key !in entries;
      var v := Series(entries, p.key);
      SeriesSorted(entries, p.key);
      var found, pos := BinarySearch(v, p.ts);
      InsertTotals(entries, p, v, found, pos);
      if found {
        entries := entries[p.key := v[pos := (p.ts, p.value)]];
      } else {
        entries := entries[p.key := v[..pos] + [(p.ts, p.value)] + v[pos..]];
        sizeBytes := sizeBytes + POINT_COST;
        if isNew {
          sizeBytes := sizeBytes + KeyCost(p.key);
        }
        entryCount := entryCount + 1;
      }
    }

    /** A flush is due when the points and keys that are stored cost at least the threshold. */
    method ShouldFlush() returns (b: bool)
      requires Valid()
      ensures b <==> 32 * PointCount(entries) + KeyCosts(entries.Keys) >= flushThreshold
    {
      b := sizeBytes >= flushThreshold;
    }

    /** Hands out the whole table and starts an empty one. */
    method Drain() returns (t: Table)
      requires Valid()
      modifies this
      ensures Valid() && t == old(entries) && entries == map[] && sizeBytes == 0 && entryCount == 0
    {
      t := entries;
      entries, sizeBytes, entryCount := map[], 0, 0;
    }
  }

  lemma SeriesSorted(t: Table, key: SeriesKey)
    requires TableOk(t)
    ensures Sorted(Series(t, key))
  {
  }

  /** What an insert at the searched position does to the table and its totals. */
  lemma InsertTotals(t: Table, p: DataPoint, v: Points, found: bool, pos: nat)
    requires TableOk(t) && v == Series(t, p.key) && Located(v, p.ts, found, pos)
    ensures found ==> p.key in t
    ensures var t' := t[p.key := Placed(v, p.ts, p.value, found, pos)];
            && TableOk(t') && t' == Inserted(t, p)
            && PointCount(t') == PointCount(t) + (if found then 0 else 1)
            && KeyCosts(t'.Keys) == KeyCosts(t.Keys) + (if p.key in t then 0 else KeyCost(p.key))
  {
    hide TableOk, Sorted, PointCount, KeyCosts, KeyCost, Upsert, Located, HasTime, Placed;
    SeriesSorted(t, p.key);
    PlacedIsUpsert(v, p.ts, p.value, found, pos);
    InsertedOk(t, p);
    UpsertLength(v, p.ts, p.value);
    UpdateTotals(t, p.key, Upsert(v, p.ts, p.value));
    LocatedIsPresence(v, p.ts, found, pos);
  }

  lemma LocatedIsPresence(v: Points, ts: i64, found: bool, pos: nat)
    requires Located(v, ts, found, pos)
    ensures (found <==> HasTime(v, ts)) && (found ==> v != [])
  {
  }
}
