/** Merging a group of chunks into one, and what the index shows afterwards. */
module Merging {
  import opened Types
  import opened Memtable

  /** The contents of the chunk files. */
  type Disk = map<ChunkId, Table>

  // ----- Merging tables -----

  /** The value of the last chunk of the group that has the slot. */
  function RightBiased(disk: Disk, group: seq<ChunkId>, key: SeriesKey, ts: i64): Option<F64> {
    if group == [] then None
    else
      var c := group[|group| - 1];
      if c in disk then
        match ValueAt(Series(disk[c], key), ts)
        case Some(v) => Some(v)
        case None => RightBiased(disk, group[..|group| - 1], key, ts)
      else RightBiased(disk, group[..|group| - 1], key, ts)
  }

  function ValueAt(v: Points, ts: i64): Option<F64> {
    if v == [] then None else if v[0].0 == ts then Some(v[0].1) else ValueAt(v[1..], ts)
  }

  lemma {:induction false} ValueAtIs(v: Points, ts: i64, value: F64)
    requires Sorted(v)
    ensures ValueAt(v, ts) == Some(value) <==> (ts, value) in v
  {
    if v != [] {
      ValueAtIs(v[1..], ts, value);
      assert v == [v[0]] + v[1..];
    }
  }

  /** The points of one chunk, as reading the file returns them. */
  ghost predicate ReadsAs(points: seq<DataPoint>, t: Table) {
    && (forall i :: 0 <= i < |points| ==> Holds(t, points[i].key, points[i].ts, points[i].value))
    && (forall k, ts: i64, v: F64 :: Holds(t, k, ts, v) ==> DataPoint(k, ts, v) in points)
  }

  /** One point goes into its series: overwritten when its timestamp is there, inserted in order otherwise. */
  method MergePoint(before: Table, p: DataPoint) returns (t: Table)
    requires TableOk(before)
    ensures t == Inserted(before, p)
  {
    var v := Series(before, p.key);
    var found, pos := BinarySearch(v, p.ts);
    PlacedIsUpsert(v, p.ts, p.value, found, pos);
    t := before[p.key := if found then v[pos := (p.ts, p.value)] else v[..pos] + [(p.ts, p.value)] + v[pos..]];
  }

  /** Merges all points of a chunk, in file order. */
  method MergePoints(before: Table, points: seq<DataPoint>) returns (t: Table)
    requires TableOk(before)
    ensures t == InsertedAll(before, points)
  {
    hide TableOk, Inserted;
    t := before;
    for i := 0 to |points|
      invariant t == InsertedAll(before, points[..i]) && TableOk(t)
    {
      InsertedOk(t, points[i]);
      assert points[..i + 1][..i] == points[..i];
      t := MergePoint(t, points[i]);
    }
    assert points[..|points|] == points;
  }

  /** Inserting all points of a chunk overwrites exactly the slots the chunk has. */
  lemma {:induction false} InsertedChunk(before: Table, points: seq<DataPoint>, t: Table, key: SeriesKey, ts: i64, v: F64)
    requires TableOk(before) && TableOk(t)
    requires forall i :: 0 <= i < |points| ==> Holds(t, points[i].key, points[i].ts, points[i].value)
    ensures TableOk(InsertedAll(before, points))
    ensures Holds(InsertedAll(before, points), key, ts, v) <==>
            if exists i :: 0 <= i < |points| && SlotOf(points[i]) == (key, ts) then Holds(t, key, ts, v)
            else Holds(before, key, ts, v)
  {
    if points != [] {
      var n := |points| - 1;
      InsertedChunk(before, points[..n], t, key, ts, v);
      InsertedOk(InsertedAll(before, points[..n]), points[n]);
      if SlotOf(points[n]) == (key, ts) {
        SameSlotSameValue(t, key, ts, points[n].value, v);
      } else if i :| 0 <= i < |points| && SlotOf(points[i]) == (key, ts) {
        assert SlotOf(points[..n][i]) == (key, ts);
      }
    }
  }

  /** A well-formed table has one value per slot. */
  lemma SameSlotSameValue(t: Table, key: SeriesKey, ts: i64, a: F64, b: F64)
    requires TableOk(t) && Holds(t, key, ts, a)
    ensures Holds(t, key, ts, b) <==> a == b
  {
    ValueAtIs(t[key], ts, a);
    ValueAtIs(t[key], ts, b);
  }

  /** `merged` is the right-biased union of the group. */
  ghost predicate Merges(disk: Disk, group: seq<ChunkId>, merged: Table) {
    && TableOk(merged)
    && forall k, ts: i64, v: F64 :: Holds(merged, k, ts, v) <==> RightBiased(disk, group, k, ts) == Some(v)
  }

  /** One more chunk on the right. */
  lemma MergesSnoc(disk: Disk, group: seq<ChunkId>, c: ChunkId, before: Table, points: seq<DataPoint>)
    requires Merges(disk, group, before) && c in disk && TableOk(disk[c]) && ReadsAs(points, disk[c])
    ensures Merges(disk, group + [c], InsertedAll(before, points))
  {
    var after := InsertedAll(before, points);
    forall k, ts: i64, v: F64
      ensures TableOk(after) && (Holds(after, k, ts, v) <==> RightBiased(disk, group + [c], k, ts) == Some(v))
    {
      InsertedChunk(before, points, disk[c], k, ts, v);
      MergesSnocAt(disk, group, c, before, points, k, ts, v);
    }
    var k0, ts0: i64, v0: F64 := SeriesKey([], map[]), 0, 0;
    InsertedChunk(before, points, disk[c], k0, ts0, v0);
  }

  lemma MergesSnocAt(disk: Disk, group: seq<ChunkId>, c: ChunkId, before: Table, points: seq<DataPoint>, k: SeriesKey, ts: i64, v: F64)
    requires Merges(disk, group, before) && c in disk && TableOk(disk[c]) && ReadsAs(points, disk[c])
    requires Holds(InsertedAll(before, points), k, ts, v) <==>
             if exists i :: 0 <= i < |points| && SlotOf(points[i]) == (k, ts) then Holds(disk[c], k, ts, v)
             else Holds(before, k, ts, v)
    ensures Holds(InsertedAll(before, points), k, ts, v) <==> RightBiased(disk, group + [c], k, ts) == Some(v)
  {
    hide InsertedAll;
    assert (group + [c])[..|group|] == group;
    var s := Series(disk[c], k);
    ValueAtIs(s, ts, v);
    match ValueAt(s, ts) {
      case Some(u) =>
        ValueAtIs(s, ts, u);
        assert DataPoint(k, ts, u) in points;
        var i :| 0 <= i < |points| && points[i] == DataPoint(k, ts, u);
        assert SlotOf(points[i]) == (k, ts);
      case None =>
        forall i | 0 <= i < |points| ensures SlotOf(points[i]) != (k, ts) {
          ValueAtIs(s, ts, points[i].value);
        }
    }
  }

  /** Reads the chunks of a group in order and merges them. */
  method MergeGroup(disk: Disk, group: seq<ChunkId>, files: seq<seq<DataPoint>>) returns (merged: Table)
    requires |files| == |group|
    requires forall i :: 0 <= i < |group| ==> group[i] in disk && TableOk(disk[group[i]]) && ReadsAs(files[i], disk[group[i]])
    ensures Merges(disk, group, merged)
  {
    merged := map[];
    for i := 0 to |group|
      invariant Merges(disk, group[..i], merged)
    {
      hide Merges, InsertedAll;
      assert group[..i + 1] == group[..i] + [group[i]];
      MergesSnoc(disk, group[..i], group[i], merged, files[i]);
      MergesOk(disk, group[..i], merged);
      merged := MergePoints(merged, files[i]);
    }
    assert group[..|group|] == group;
  }

  lemma MergesOk(disk: Disk, group: seq<ChunkId>, merged: Table)
    requires Merges(disk, group, merged)
    ensures TableOk(merged)
  {
  }

  // ----- What a merge keeps -----

  ghost predicate GroupOk(disk: Disk, group: seq<ChunkId>) {
    forall i :: 0 <= i < |group| ==> group[i] in disk && TableOk(disk[group[i]])
  }

  /** Some chunk of the group holds the value. */
  ghost predicate GroupHolds(disk: Disk, group: seq<ChunkId>, key: SeriesKey, ts: i64, v: F64) {
    exists i :: 0 <= i < |group| && group[i] in disk && Holds(disk[group[i]], key, ts, v)
  }

  /** A merged value comes from a chunk of the group. */
  lemma {:induction false} RightBiasedFrom(disk: Disk, group: seq<ChunkId>, key: SeriesKey, ts: i64, v: F64)
    requires GroupOk(disk, group) && RightBiased(disk, group, key, ts) == Some(v)
    ensures GroupHolds(disk, group, key, ts, v)
  {
    var n := |group| - 1;
    var s := Series(disk[group[n]], key);
    if ValueAt(s, ts) == Some(v) {
      ValueAtIs(s, ts, v);
      assert Holds(disk[group[n]], key, ts, v);
    } else {
      RightBiasedFrom(disk, group[..n], key, ts, v);
      var i :| 0 <= i < n && Holds(disk[group[..n][i]], key, ts, v);
      assert Holds(disk[group[i]], key, ts, v);
    }
  }

  /** A slot of a chunk of the group is in the merge. */
  lemma {:induction false} RightBiasedHas(disk: Disk, group: seq<ChunkId>, key: SeriesKey, ts: i64, v: F64)
    requires GroupOk(disk, group) && GroupHolds(disk, group, key, ts, v)
    ensures RightBiased(disk, group, key, ts).Some?
  {
    var n := |group| - 1;
    var i :| 0 <= i <= n && Holds(disk[group[i]], key, ts, v);
    if i == n {
      ValueAtIs(Series(disk[group[n]], key), ts, v);
    } else if ValueAt(Series(disk[group[n]], key), ts).None? {
      assert Holds(disk[group[..n][i]], key, ts, v);
      RightBiasedHas(disk, group[..n], key, ts, v);
    }
  }

  /** Some chunk holds the value, and no later one of the group has the slot. */
  ghost predicate LastHolds(disk: Disk, group: seq<ChunkId>, key: SeriesKey, ts: i64, v: F64)
    requires GroupOk(disk, group)
  {
    exists i :: 0 <= i < |group| && Holds(disk[group[i]], key, ts, v)
      && forall j, w: F64 :: i < j < |group| ==> !Holds(disk[group[j]], key, ts, w)
  }

  /** The merged value of a slot is that of the last chunk in the order of the group that has the slot. */
  lemma {:induction false} RightBiasedExact(disk: Disk, group: seq<ChunkId>, key: SeriesKey, ts: i64, v: F64)
    requires GroupOk(disk, group)
    ensures RightBiased(disk, group, key, ts) == Some(v) <==> LastHolds(disk, group, key, ts, v)
  {
    if group != [] {
      hide LastHolds;
      var n := |group| - 1;
      RightBiasedExact(disk, group[..n], key, ts, v);
      var s := Series(disk[group[n]], key);
      forall w: F64 ensures ValueAt(s, ts) == Some(w) <==> Holds(disk[group[n]], key, ts, w) {
        ValueAtIs(s, ts, w);
      }
      LastHoldsSnoc(disk, group, key, ts, v);
    } else {
      assert !LastHolds(disk, group, key, ts, v);
    }
  }

  lemma LastHoldsSnoc(disk: Disk, group: seq<ChunkId>, key: SeriesKey, ts: i64, v: F64)
    requires GroupOk(disk, group) && group != []
    ensures var n := |group| - 1;
      LastHolds(disk, group, key, ts, v) <==>
      Holds(disk[group[n]], key, ts, v) || ((forall w: F64 :: !Holds(disk[group[n]], key, ts, w)) && LastHolds(disk, group[..n], key, ts, v))
  {
    hide Holds, TableOk;
    var n := |group| - 1;
    var front := group[..n];
    assert forall i :: 0 <= i < n ==> front[i] == group[i];
    if LastHolds(disk, group, key, ts, v) {
      var i :| 0 <= i < |group| && Holds(disk[group[i]], key, ts, v) && forall j, w: F64 :: i < j < |group| ==> !Holds(disk[group[j]], key, ts, w);
      if i < n {
        assert Holds(disk[front[i]], key, ts, v);
      }
    }
    if (forall w: F64 :: !Holds(disk[group[n]], key, ts, w)) && LastHolds(disk, front, key, ts, v) {
      var i :| 0 <= i < n && Holds(disk[front[i]], key, ts, v) && forall j, w: F64 :: i < j < n ==> !Holds(disk[front[j]], key, ts, w);
      assert Holds(disk[group[i]], key, ts, v);
      forall j, w: F64 | i < j < |group| ensures !Holds(disk[group[j]], key, ts, w) {
        if j < n {
          assert !Holds(disk[front[j]], key, ts, w);
        }
      }
    }
  }

  /** A merged series starts where one of the merged chunks starts it. */
  lemma FirstFromGroup(disk: Disk, group: seq<ChunkId>, merged: Table, key: SeriesKey) returns (i: nat)
    requires GroupOk(disk, group) && Merges(disk, group, merged) && key in merged
    ensures i < |group| && key in disk[group[i]] && disk[group[i]][key][0].0 == merged[key][0].0
  {
    var (ts, v) := merged[key][0];
    assert Holds(merged, key, ts, v);
    RightBiasedFrom(disk, group, key, ts, v);
    i :| 0 <= i < |group| && Holds(disk[group[i]], key, ts, v);
    var (t0, v0) := disk[group[i]][key][0];
    assert Holds(disk[group[i]], key, t0, v0);
    RightBiasedHas(disk, group, key, t0, v0);
    var w := RightBiased(disk, group, key, t0).value;
    assert Holds(merged, key, t0, w);
  }

  /** Two chunks of the group that share a slot have the same value there. */
  ghost predicate Agree(disk: Disk, group: seq<ChunkId>) {
    forall k, ts: i64, v: F64, w: F64 ::
      GroupHolds(disk, group, k, ts, v) && GroupHolds(disk, group, k, ts, w) ==> v == w
  }

  /** A merge invents no value; it keeps all of them exactly when the chunks agree where they overlap. */
  lemma MergeExact(disk: Disk, group: seq<ChunkId>, merged: Table)
    requires GroupOk(disk, group) && Merges(disk, group, merged)
    ensures forall k, ts: i64, v: F64 :: Holds(merged, k, ts, v) ==> GroupHolds(disk, group, k, ts, v)
    ensures (forall k, ts: i64, v: F64 :: GroupHolds(disk, group, k, ts, v) ==> Holds(merged, k, ts, v)) <==> Agree(disk, group)
  {
    forall k, ts: i64, v: F64 | Holds(merged, k, ts, v) ensures GroupHolds(disk, group, k, ts, v) {
      RightBiasedFrom(disk, group, k, ts, v);
    }
    if Agree(disk, group) {
      forall k, ts: i64, v: F64 | GroupHolds(disk, group, k, ts, v) ensures Holds(merged, k, ts, v) {
        RightBiasedHas(disk, group, k, ts, v);
        RightBiasedFrom(disk, group, k, ts, RightBiased(disk, group, k, ts).value);
      }
    }
  }
}
