/** Where opening after a crash hides an acknowledged point. */
module OpeningLimits {
  import opened Types
  import opened ChunkIndex
  import opened Compaction
  import opened ChunkStore
  import opened Catalog
  import opened Opening
  import P = Durability
  import I = DurabilityInvariant
  import D = DurabilityTheorems
  import L = DurabilityLimits
  import Memtable

  // ----- Runs that register at known places -----

  predicate NoRegister(steps: seq<P.Step>) {
    forall i :: 0 <= i < |steps| ==> !steps[i].Register?
  }

  predicate NoCopy(steps: seq<P.Step>) {
    forall i :: 0 <= i < |steps| ==> !steps[i].Register? && !steps[i].WriteTmp? && !steps[i].Rename?
  }

  lemma {:induction false} FreeQuiet(hash: Hash, r: Reporter, keys: set<SeriesKey>, s: P.State, c: Cat, steps: seq<P.Step>)
    requires D.Valid(s, steps) && NoRegister(steps)
    ensures FreeRun(hash, r, keys, s, c, steps)
    ensures NoCopy(steps) ==> ExecCat(hash, r, s, c, steps) == c
    decreases |steps|
  {
    if steps != [] {
      hide P.Enabled, P.Next;
      FreeQuiet(hash, r, keys, P.Next(s, steps[0]), NextCat(hash, r, s, c, steps[0]), steps[1..]);
    }
  }

  lemma {:induction false} FreeConcat(hash: Hash, r: Reporter, keys: set<SeriesKey>, s: P.State, c: Cat, before: seq<P.Step>, after: seq<P.Step>)
    requires D.Valid(s, before) && D.Valid(D.Exec(s, before), after)
    requires FreeRun(hash, r, keys, s, c, before) && FreeRun(hash, r, keys, D.Exec(s, before), ExecCat(hash, r, s, c, before), after)
    ensures D.Valid(s, before + after) && FreeRun(hash, r, keys, s, c, before + after)
    decreases |before|
  {
    D.RunConcat(s, before, after);
    if before == [] {
      assert before + after == after;
    } else {
      hide P.Enabled, P.Next, NextCat, Free;
      assert (before + after)[1..] == before[1..] + after;
      FreeConcat(hash, r, keys, P.Next(s, before[0]), NextCat(hash, r, s, c, before[0]), before[1..], after);
    }
  }

  /** A run with one registration, into an empty index, has free starts. */
  lemma OneRegisterFree(hash: Hash, r: Reporter, keys: set<SeriesKey>, s: P.State, before: seq<P.Step>, step: P.Step, after: seq<P.Step>)
    requires D.Valid(s, before) && NoCopy(before) && NoRegister(after) && step.Register?
    requires P.Enabled(D.Exec(s, before), step) && D.Valid(P.Next(D.Exec(s, before), step), after)
    requires var m := D.Exec(s, before); forall k :: k in ChunkTable(m, m.shards[step.shard].flush.chunk) ==> k in keys
    ensures D.Valid(s, before + ([step] + after)) && FreeRun(hash, r, keys, s, NOTHING, before + ([step] + after))
  {
    var m := D.Exec(s, before);
    FreeQuiet(hash, r, keys, s, NOTHING, before);
    FreeQuiet(hash, r, keys, P.Next(m, step), NextCat(hash, r, m, NOTHING, step), after);
    assert ([step] + after)[1..] == after;
    assert Free(hash, r, keys, m, NOTHING, step) by {
      hide D.Valid, D.Exec, ChunkTable;
    }
    hide P.Enabled, P.Next, Free, NextCat, ChunkTable;
    assert D.Valid(m, [step] + after) && FreeRun(hash, r, keys, m, NOTHING, [step] + after);
    FreeConcat(hash, r, keys, s, NOTHING, before, [step] + after);
  }

  // ----- The run -----

  const SERIES := SeriesKey([], map[])
  const FIRST := [DataPoint(SERIES, 5, 1), DataPoint(SERIES, 6, 1)]
  const SECOND := [DataPoint(SERIES, 5, 2)]
  const OLDER: Memtable.Table := map[SERIES := [(5, 1), (6, 1)]]
  const NEWER: Memtable.Table := map[SERIES := [(5, 2)]]

  lemma OneBatch(e: P.Entry)
    ensures TableOf([e]) == Memtable.InsertedAll(map[], e.points)
  {
    hide Memtable.InsertedAll;
    assert [e][..0] == [] && D.PointsOf([e]) == [] + e.points && [] + e.points == e.points;
  }

  lemma Tables(a: P.Entry, b: P.Entry)
    requires a.points == FIRST && b.points == SECOND
    ensures TableOf([a]) == OLDER && TableOf([b]) == NEWER
  {
    hide TableOf;
    OneBatch(a);
    OneBatch(b);
    assert FIRST[..1] == [FIRST[0]] && FIRST[..1][..0] == [] && SECOND[..0] == [];
    assert Memtable.InsertedAll(map[], FIRST[..1]) == map[SERIES := [(5, 1)]];
    assert Memtable.Upsert([(5, 1)], 6, 1) == [(5, 1), (6, 1)];
  }

  /** Up to the flush of the first batch. */
  lemma FirstFlushed() returns (before: seq<P.Step>, run: seq<P.Step>, a: P.Entry)
    ensures D.Valid(P.Init(1), before) && NoCopy(before) && P.Enabled(D.Exec(P.Init(1), before), P.Register(0))
    ensures run == before + [P.Register(0)] && D.Valid(P.Init(1), run) && D.GuardedRun(P.Init(1), run)
    ensures before == [P.Sync(0, [FIRST]), P.PublishSeq(0), P.Insert(0, a), P.Drain(0), P.WriteChunk(0, 1)]
    ensures var m := D.Exec(P.Init(1), before); |m.shards| == 1 && m.shards[0].flush == P.Written(1) && m.chunks == map[1 := [a]]
    ensures a == P.Entry(0, 1, FIRST)
    ensures D.Exec(P.Init(1), run) == P.Init(1).(shards := [P.FreshShard().(current := 1, last := 1, history := {a}, wal := [a], flush := P.Registered)],
                                                 chunks := map[1 := [a]], index := {1})
  {
    hide D.Valid, D.Exec, D.GuardedRun;
    L.NoSteps(1);
    var steps;
    steps, a := L.CommitOne(P.Init(1), [], FIRST);
    assert [] + [a] == [a] && {} + {a} == {a};
    before := L.WriteOne(P.Init(1), steps, 1);
    L.Extend(P.Init(1), before, P.Register(0));
    run := before + [P.Register(0)];
  }

  /** Then the watermark is published, a snapshot is taken, and the second batch is appended. */
  lemma SecondAppended(run: seq<P.Step>, a: P.Entry) returns (steps: seq<P.Step>, after: seq<P.Step>, b: P.Entry)
    requires D.Valid(P.Init(1), run) && D.GuardedRun(P.Init(1), run) && a == P.Entry(0, 1, FIRST)
    requires D.Exec(P.Init(1), run) == P.Init(1).(shards := [P.FreshShard().(current := 1, last := 1, history := {a}, wal := [a], flush := P.Registered)],
                                                  chunks := map[1 := [a]], index := {1})
    ensures D.Valid(P.Init(1), steps) && D.GuardedRun(P.Init(1), steps) && steps == run + after && NoRegister(after)
    ensures b == P.Entry(0, 2, SECOND)
    ensures var s := D.Exec(P.Init(1), steps);
      |s.shards| == 1 && s.shards[0].wal == [a, b] && s.disk == P.Snapshot({1}, [1]) && s.chunks == map[1 := [a]]
  {
    hide D.Valid, D.Exec, D.GuardedRun;
    steps := L.StoreOne(P.Init(1), run);
    steps := L.LoadOne(P.Init(1), steps, 0);
    steps := L.FinishSnapshot(P.Init(1), steps, 0, 1);
    steps, b := L.CommitOne(P.Init(1), steps, SECOND);
    assert [a] + [b] == [a, b];
    after := [P.ReadSeq(0), P.StoreWatermark(0)] + [P.StartSnapshot(0), P.LoadWatermark(0)]
           + [P.LockIndex(0), P.WriteTmp(0), P.Rename(0), P.StorePersisted(0), P.Unlock(0)] + [P.Sync(0, [SECOND]), P.PublishSeq(0), P.Insert(0, b)];
    assert steps == run + after;
  }

  /**
    Append points at 5 and 6, flush, publish, snapshot, append another point at 5, crash. The recovery chunk starts where
    the snapshot's entry does and takes its place: the acknowledged point at 6 is on disk, and no entry leads to it.
  */
  lemma RecoveryHidesAcked(hash: Hash, r: Reporter) returns (steps: seq<P.Step>, recs: seq<Recovered>, p: DataPoint)
    requires Faithful(hash, r)
    ensures D.Valid(P.Init(1), steps) && D.GuardedRun(P.Init(1), steps) && FreeRun(hash, r, {SERIES}, P.Init(1), NOTHING, steps)
    ensures Acked(steps, p) && Rebuilds(D.Exec(P.Init(1), steps), recs) && RecsOk(SnapshotStore(hash, r, 1, steps), {SERIES}, recs)
    ensures !Shows(hash, r, SnapshotStore(hash, r, 1, steps), recs, p)
  {
    hide D.Valid, D.Exec, D.GuardedRun, FreeRun, Faithful, P.Init, ExecCat, TableOf, Shows, OnlyDisplaced, SnapshotStore, RecsOk;
    var before, run, a := FirstFlushed();
    var after, b;
    steps, after, b := SecondAppended(run, a);
    Tables(a, b);
    p, recs := DataPoint(SERIES, 6, 1), [Recovered(2, NEWER)];
    WholeFree(hash, r, before, run, steps, after, a);
    assert steps[2] == P.Insert(0, a) && p in FIRST by {
      assert FIRST[1] == p;
    }
    assert Acked(steps, p);
    RunHides(hash, r, steps, recs, a, b, p);
  }

  lemma WholeFree(hash: Hash, r: Reporter, before: seq<P.Step>, run: seq<P.Step>, steps: seq<P.Step>, after: seq<P.Step>, a: P.Entry)
    requires D.Valid(P.Init(1), before) && NoCopy(before) && NoRegister(after) && run == before + [P.Register(0)] && steps == run + after
    requires P.Enabled(D.Exec(P.Init(1), before), P.Register(0)) && D.Valid(P.Init(1), steps)
    requires var m := D.Exec(P.Init(1), before); |m.shards| == 1 && m.shards[0].flush == P.Written(1) && m.chunks == map[1 := [a]]
    requires TableOf([a]) == OLDER
    ensures FreeRun(hash, r, {SERIES}, P.Init(1), NOTHING, steps)
  {
    hide FreeRun, P.Init, TableOf, P.Enabled, P.Next;
    assert steps == before + ([P.Register(0)] + after);
    ValidTail(P.Init(1), before, [P.Register(0)] + after);
    assert ([P.Register(0)] + after)[1..] == after;
    OneRegisterFree(hash, r, {SERIES}, P.Init(1), before, P.Register(0), after);
  }

  lemma {:induction false} ValidTail(s: P.State, before: seq<P.Step>, after: seq<P.Step>)
    requires D.Valid(s, before) && D.Valid(s, before + after)
    ensures D.Valid(D.Exec(s, before), after)
    decreases |before|
  {
    if before == [] {
      assert before + after == after;
    } else {
      hide P.Enabled, P.Next;
      assert (before + after)[1..] == before[1..] + after;
      ValidTail(P.Next(s, before[0]), before[1..], after);
    }
  }

  lemma RunHides(hash: Hash, r: Reporter, steps: seq<P.Step>, recs: seq<Recovered>, a: P.Entry, b: P.Entry, p: DataPoint)
    requires Faithful(hash, r) && D.Valid(P.Init(1), steps) && D.GuardedRun(P.Init(1), steps) && FreeRun(hash, r, {SERIES}, P.Init(1), NOTHING, steps)
    requires var s := D.Exec(P.Init(1), steps);
      |s.shards| == 1 && s.shards[0].wal == [a, b] && s.disk == P.Snapshot({1}, [1]) && s.chunks == map[1 := [a]]
    requires a == P.Entry(0, 1, FIRST) && b == P.Entry(0, 2, SECOND) && TableOf([a]) == OLDER && TableOf([b]) == NEWER
    requires recs == [Recovered(2, NEWER)] && p == DataPoint(SERIES, 6, 1) && Acked(steps, p)
    ensures Rebuilds(D.Exec(P.Init(1), steps), recs) && RecsOk(SnapshotStore(hash, r, 1, steps), {SERIES}, recs)
    ensures !Shows(hash, r, SnapshotStore(hash, r, 1, steps), recs, p)
  {
    hide D.Valid, D.Exec, D.GuardedRun, FreeRun, Faithful, P.Init, ExecCat, TableOf, Shows, Linked, I.Inv, OnlyDisplaced, Rebuilds, RecsOk, StoreOk;
    var s, c := D.Exec(P.Init(1), steps), ExecCat(hash, r, P.Init(1), NOTHING, steps);
    I.InitInv(1);
    InitLinked(hash, {SERIES}, 1);
    RunLinked(hash, r, {SERIES}, P.Init(1), NOTHING, steps);
    ReplaysSecond(s, a, b, recs);
    OldHidden(hash, s, c, a, recs);
    var k :| 0 <= k < |steps| && steps[k].Insert? && p in steps[k].entry.points;
    AckedVisibleExact(hash, r, {SERIES}, 1, steps, recs, k, p);
  }

  lemma ReplaysSecond(s: P.State, a: P.Entry, b: P.Entry, recs: seq<Recovered>)
    requires |s.shards| == 1 && s.shards[0].wal == [a, b] && s.disk == P.Snapshot({1}, [1])
    requires a == P.Entry(0, 1, FIRST) && b == P.Entry(0, 2, SECOND) && recs == [Recovered(2, NEWER)]
    ensures Rebuilds(s, recs)
  {
    forall j, e, p | 0 <= j < |recs| && e in D.Replay(s.shards[j].wal, s.disk.watermarks[j]) && p in e.points
      ensures HasSlot(recs[j].table, p.key, p.ts)
    {
      assert e == b && p == SECOND[0];
      assert NEWER[SERIES][0] == (5, 2);
      assert Memtable.Holds(recs[j].table, p.key, p.ts, 2);
    }
  }

  lemma OldHidden(hash: Hash, s: P.State, c: Cat, a: P.Entry, recs: seq<Recovered>)
    requires Linked(hash, {SERIES}, s, c) && s.disk == P.Snapshot({1}, [1]) && s.chunks == map[1 := [a]] && TableOf([a]) == OLDER
    requires recs == [Recovered(2, NEWER)]
    ensures RecsOk(Store(c.disk, c.tables), {SERIES}, recs)
    ensures OnlyDisplaced(hash, Store(c.disk, c.tables), recs, (SERIES, 6))
  {
    hide TableOf, IndexOk, Linked, RecsOk, Backed, Memtable.TableOk;
    var st := Store(c.disk, c.tables);
    OldLinked(hash, s, c, a, recs);
    assert Filed(hash, st, 1, SERIES);
    assert OLDER[SERIES][1] == (6, 1) && Memtable.Holds(OLDER, SERIES, 6, 1);
    assert LedTo(hash, st, SERIES, 6, 1, 5);
    assert Starts(hash, recs[0], hash(SERIES), 5) by {
      assert SERIES in NEWER && NEWER[SERIES][0].0 == 5;
    }
    assert Displaces(hash, recs, hash(SERIES), 5);
    forall t: i64, v: F64 | LedTo(hash, st, SERIES, 6, v, t) ensures t == 5 {
      assert Owned(st, hash(SERIES), t);
    }
  }

  lemma OldLinked(hash: Hash, s: P.State, c: Cat, a: P.Entry, recs: seq<Recovered>)
    requires Linked(hash, {SERIES}, s, c) && s.disk == P.Snapshot({1}, [1]) && s.chunks == map[1 := [a]] && TableOf([a]) == OLDER
    requires recs == [Recovered(2, NEWER)]
    ensures StoreOk(hash, Store(c.disk, c.tables)) && RecsOk(Store(c.disk, c.tables), {SERIES}, recs)
    ensures 1 in c.tables && c.tables[1] == OLDER && 1 in c.disk.files && forall id :: id in c.tables ==> id == 1
  {
    hide TableOf, StoreOk;
    assert OLDER != map[] by {
      assert SERIES in OLDER;
    }
  }
}
