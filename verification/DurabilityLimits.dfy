/**
  Where the durability protocol ends: an unsettled watermark read leads to a lost acknowledged
  point, by an append that overlaps a flush or by a failed chunk write, and persisted watermarks
  can move backwards although nothing is lost by that.
*/
module DurabilityLimits {
  import opened Types
  import opened Durability
  import opened DurabilityInvariant
  import opened DurabilityTheorems
  import Memtable

  ghost predicate Loses(s: State, p: DataPoint) {
    |s.disk.watermarks| == |s.shards| && forall v :: !Recovers(s, SlotOf(p), v)
  }

  /** No entry but `e` writes the slot of `p`. */
  ghost predicate SoleWriter(s: State, e: Entry, p: DataPoint) {
    forall i, f, q :: 0 <= i < |s.shards| && f in s.shards[i].history && f != e && q in f.points ==> SlotOf(q) != SlotOf(p)
  }

  function Loads(w: nat, k: nat): seq<Step> {
    seq(k, _ => LoadWatermark(w))
  }

  function Watermarks(s: State): seq<nat> {
    seq(|s.shards|, j requires 0 <= j < |s.shards| => s.shards[j].watermark)
  }

  lemma {:induction false} LoadRun(s: State, w: nat, k: nat)
    requires w in s.workers && s.workers[w].Loading? && |s.workers[w].loaded| + k == |s.shards|
    requires s.workers[w].loaded == Watermarks(s)[..|s.workers[w].loaded|]
    ensures Valid(s, Loads(w, k))
    ensures Exec(s, Loads(w, k)) == s.(workers := s.workers[w := Loading(Watermarks(s))])
    decreases k
  {
    if k == 0 {
      assert s.workers[w].loaded == Watermarks(s);
      assert s.workers == s.workers[w := Loading(Watermarks(s))];
    } else {
      var s' := Next(s, LoadWatermark(w));
      assert Watermarks(s') == Watermarks(s);
      assert Loads(w, k)[1..] == Loads(w, k - 1);
      LoadRun(s', w, k - 1);
      assert s'.workers[w := Loading(Watermarks(s))] == s.workers[w := Loading(Watermarks(s))];
    }
  }

  /** A whole snapshot by a fresh worker puts the live index and watermarks on disk. */
  lemma SnapshotRun(s: State, w: nat) returns (steps: seq<Step>)
    requires w !in s.workers
    ensures Valid(s, steps)
    ensures var end := Exec(s, steps);
      end.shards == s.shards && end.chunks == s.chunks && end.disk == Snapshot(s.index, Watermarks(s))
  {
    var s1 := Next(s, StartSnapshot(w));
    assert Watermarks(s1) == Watermarks(s);
    LoadRun(s1, w, |s.shards|);
    var s2 := Exec(s1, Loads(w, |s.shards|));
    var s3 := Next(s2, LockIndex(w));
    var s4 := Next(s3, WriteTmp(w));
    RunOf3(s2, LockIndex(w), WriteTmp(w), Rename(w));
    RunConcat(s1, Loads(w, |s.shards|), [LockIndex(w), WriteTmp(w), Rename(w)]);
    var tail := Loads(w, |s.shards|) + [LockIndex(w), WriteTmp(w), Rename(w)];
    steps := [StartSnapshot(w)] + tail;
    assert steps[1..] == tail;
  }

  lemma RunOf3(s: State, a: Step, b: Step, c: Step)
    requires Enabled(s, a) && Enabled(Next(s, a), b) && Enabled(Next(Next(s, a), b), c)
    ensures Valid(s, [a, b, c]) && Exec(s, [a, b, c]) == Next(Next(Next(s, a), b), c)
  {
    var s1, s2 := Next(s, a), Next(Next(s, a), b);
    RunOf1(s2, c);
    RunOf1(s1, b);
    RunOf1(s, a);
    RunConcat(s1, [b], [c]);
    RunConcat(s, [a], [b] + [c]);
    assert [a] + ([b] + [c]) == [a, b, c];
  }

  lemma RunOf1(s: State, a: Step)
    requires Enabled(s, a)
    ensures Valid(s, [a]) && Exec(s, [a]) == Next(s, a)
    ensures GuardedRun(s, [a]) <==> Guarded(s, a)
  {
    assert [a][1..] == [];
    assert Valid(Next(s, a), []);
    assert Exec(Next(s, a), []) == Next(s, a) && GuardedRun(Next(s, a), []);
  }

  /**
    Reading the last committed sequence while an entry is outstanding lets a crash after the next
    snapshot lose the points that only this entry holds.
  */
  lemma UnsettledReadLoses(s: State, j: nat, e: Entry, p: DataPoint, w: nat) returns (steps: seq<Step>)
    requires Inv(s) && Enabled(s, ReadSeq(j)) && w !in s.workers
    requires Outstanding(s.shards[j], e) && p in e.points && SoleWriter(s, e, p)
    ensures Valid(s, steps) && Loses(Exec(s, steps), p)
  {
    var s1 := Next(s, ReadSeq(j));
    var s2 := Next(s1, StoreWatermark(j));
    var snap := SnapshotRun(s2, w);
    steps := [ReadSeq(j), StoreWatermark(j)] + snap;
    assert steps[1..] == [StoreWatermark(j)] + snap && steps[1..][1..] == snap;
    assert Valid(s1, steps[1..]);
    assert ShardOk(s, j);
    LostInSnapshot(s, s2, Exec(s2, snap), j, e, p);
  }

  lemma LostInSnapshot(s: State, s2: State, end: State, j: nat, e: Entry, p: DataPoint)
    requires Inv(s) && j < |s.shards| && Outstanding(s.shards[j], e) && p in e.points && SoleWriter(s, e, p)
    requires s2.index == s.index && s2.chunks == s.chunks && |s2.shards| == |s.shards|
    requires forall i :: 0 <= i < |s.shards| ==> s2.shards[i].wal == s.shards[i].wal
    requires s2.shards[j].watermark == s.shards[j].last
    requires end.shards == s2.shards && end.chunks == s2.chunks && end.disk == Snapshot(s2.index, Watermarks(s2))
    ensures Loses(end, p)
  {
    assert ShardOk(s, j);
    forall id, v | id in s.index ensures !Holds(s.chunks[id], SlotOf(p), v) {
      forall f | f in s.chunks[id] ensures f != e {
        assert Filed(s.chunks, s.chunks.Keys, f);
      }
      HoldsNone(s.chunks[id], SlotOf(p), v);
    }
    forall i, v | 0 <= i < |s.shards| ensures !Holds(Replay(end.shards[i].wal, end.disk.watermarks[i]), SlotOf(p), v) {
      assert ShardOk(s, i);
      HoldsNone(Replay(end.shards[i].wal, end.disk.watermarks[i]), SlotOf(p), v);
    }
  }

  lemma HoldsNone(es: seq<Entry>, slot: Slot, v: F64)
    requires forall e, p :: e in es && p in e.points ==> SlotOf(p) != slot
    ensures !Holds(es, slot, v)
  {
    Memtable.LatestFrom(PointsOf(es), slot);
  }

  // ----- Concrete runs -----

  lemma Extend(s: State, steps: seq<Step>, step: Step)
    requires Valid(s, steps) && GuardedRun(s, steps) && Enabled(Exec(s, steps), step) && Guarded(Exec(s, steps), step)
    ensures Valid(s, steps + [step]) && GuardedRun(s, steps + [step])
    ensures Exec(s, steps + [step]) == Next(Exec(s, steps), step)
  {
    RunOf1(Exec(s, steps), step);
    RunConcat(s, steps, [step]);
  }

  lemma NoSteps(n: nat)
    ensures Valid(Init(n), []) && GuardedRun(Init(n), []) && Exec(Init(n), []) == Init(n)
  {
  }

  function CpuPoint(ts: i64): DataPoint {
    DataPoint(SeriesKey([99, 112, 117], map[]), ts, 0)
  }

  /** Group commit of one batch on shard 0, followed by its memtable insert. */
  lemma CommitOne(s0: State, steps: seq<Step>, points: seq<DataPoint>) returns (run: seq<Step>, e: Entry)
    requires Valid(s0, steps) && GuardedRun(s0, steps)
    requires var s := Exec(s0, steps); |s.shards| == 1 && s.shards[0].unpublished == [] && s.shards[0].inflight == {}
    ensures Valid(s0, run) && GuardedRun(s0, run)
    ensures run == steps + [Sync(0, [points]), PublishSeq(0), Insert(0, e)] && e.shard == 0 && e.points == points
    ensures var s, h := Exec(s0, steps), Exec(s0, steps).shards[0];
      && e.seqno == h.current + 1
      && Exec(s0, run) == s.(shards := [h.(current := e.seqno, last := e.seqno, history := h.history + {e},
                                           wal := h.wal + [e], mem := h.mem + [e])])
  {
    hide Valid, Exec, GuardedRun;
    var s := Exec(s0, steps);
    e := Entry(0, s.shards[0].current + 1, points);
    var es := Numbered(0, s.shards[0].current, [points]);
    assert es == [e] && Elems([e]) == {e};
    Extend(s0, steps, Sync(0, [points]));
    run := steps + [Sync(0, [points])];
    Extend(s0, run, PublishSeq(0));
    run := run + [PublishSeq(0)];
    Extend(s0, run, Insert(0, e));
    run := run + [Insert(0, e)];
  }

  /** Shard 0 is drained into the file of chunk `id`. */
  lemma WriteOne(s0: State, steps: seq<Step>, id: ChunkId) returns (run: seq<Step>)
    requires Valid(s0, steps) && GuardedRun(s0, steps)
    requires var s := Exec(s0, steps); |s.shards| == 1 && s.shards[0].flush.Idle? && id !in s.chunks
    ensures Valid(s0, run) && GuardedRun(s0, run) && run == steps + [Drain(0), WriteChunk(0, id)]
    ensures var s, h := Exec(s0, steps), Exec(s0, steps).shards[0];
      Exec(s0, run) == s.(shards := [h.(mem := [], flush := Written(id))], chunks := s.chunks[id := h.mem])
  {
    hide Valid, Exec, GuardedRun;
    Extend(s0, steps, Drain(0));
    run := steps + [Drain(0)];
    Extend(s0, run, WriteChunk(0, id));
    run := run + [WriteChunk(0, id)];
  }

  /** Shard 0 is drained into chunk `id`, which is registered. */
  lemma FlushOne(s0: State, steps: seq<Step>, id: ChunkId) returns (run: seq<Step>)
    requires Valid(s0, steps) && GuardedRun(s0, steps)
    requires var s := Exec(s0, steps);
      |s.shards| == 1 && s.shards[0].flush.Idle? && id !in s.chunks && (forall w :: w in s.workers ==> s.workers[w].Loading?)
    ensures Valid(s0, run) && GuardedRun(s0, run) && run == steps + [Drain(0), WriteChunk(0, id), Register(0)]
    ensures var s, h := Exec(s0, steps), Exec(s0, steps).shards[0];
      Exec(s0, run) == s.(shards := [h.(mem := [], flush := Registered)], chunks := s.chunks[id := h.mem], index := s.index + {id})
  {
    hide Valid, Exec, GuardedRun;
    run := WriteOne(s0, steps, id);
    Extend(s0, run, Register(0));
    run := run + [Register(0)];
  }

  /** An append between the drain of its shard and the watermark read is acknowledged and lost. */
  lemma OverlappingAppendLoses() returns (steps: seq<Step>, k: nat, p: DataPoint)
    ensures Valid(Init(1), steps) && k < |steps| && steps[k].Insert? && p in steps[k].entry.points
    ensures Loses(Exec(Init(1), steps), p)
  {
    hide Valid, Exec, GuardedRun, Inv, Loses;
    NoSteps(1);
    var run, a := CommitOne(Init(1), [], [CpuPoint(1)]);
    run := FlushOne(Init(1), run, 7);
    k := |run| + 2;
    var b;
    run, b := CommitOne(Init(1), run, [CpuPoint(2)]);
    p := CpuPoint(2);
    InitInv(1);
    RunInv(Init(1), run);
    var rest := UnsettledReadLoses(Exec(Init(1), run), 0, b, p, 0);
    RunConcat(Init(1), run, rest);
    steps := run + rest;
  }

  lemma DropOne(s0: State, steps: seq<Step>) returns (run: seq<Step>)
    requires Valid(s0, steps) && GuardedRun(s0, steps)
    requires var s := Exec(s0, steps); |s.shards| == 1 && s.shards[0].flush.Idle?
    ensures Valid(s0, run) && GuardedRun(s0, run) && steps <= run
    ensures var s, h := Exec(s0, steps), Exec(s0, steps).shards[0];
      Exec(s0, run) == s.(shards := [h.(mem := [], dropped := h.dropped + Elems(h.mem))])
  {
    hide Valid, Exec, GuardedRun;
    Extend(s0, steps, Drain(0));
    run := steps + [Drain(0)];
    Extend(s0, run, FailFlush(0));
    run := run + [FailFlush(0)];
  }

  /** A failed chunk write drops acknowledged points; the next successful flush hides them from replay. */
  lemma FailedFlushLoses() returns (steps: seq<Step>, k: nat, p: DataPoint)
    ensures Valid(Init(1), steps) && k < |steps| && steps[k].Insert? && p in steps[k].entry.points
    ensures Loses(Exec(Init(1), steps), p)
  {
    hide Valid, Exec, GuardedRun, Inv, Loses;
    NoSteps(1);
    var run, a := CommitOne(Init(1), [], [CpuPoint(1)]);
    k := 2;
    p := CpuPoint(1);
    run := DropOne(Init(1), run);
    var b;
    run, b := CommitOne(Init(1), run, [CpuPoint(2)]);
    run := FlushOne(Init(1), run, 7);
    InitInv(1);
    RunInv(Init(1), run);
    var rest := UnsettledReadLoses(Exec(Init(1), run), 0, a, p, 0);
    RunConcat(Init(1), run, rest);
    steps := run + rest;
  }

  /** A worker that has loaded watermark `m` of the only shard completes its snapshot. */
  lemma FinishSnapshot(s0: State, steps: seq<Step>, w: nat, m: nat) returns (run: seq<Step>)
    requires Valid(s0, steps) && GuardedRun(s0, steps)
    requires var s := Exec(s0, steps); |s.shards| == 1 && w in s.workers && s.workers[w] == Loading([m])
    ensures Valid(s0, run) && GuardedRun(s0, run)
    ensures run == steps + [LockIndex(w), WriteTmp(w), Rename(w), StorePersisted(w), Unlock(w)]
    ensures var s := Exec(s0, steps);
      && Exec(s0, run).shards == [s.shards[0].(persisted := m)]
      && Exec(s0, run).disk == Snapshot(s.index, [m])
      && Exec(s0, run).workers == s.workers - {w} && Exec(s0, run).chunks == s.chunks
  {
    hide Valid, Exec, GuardedRun;
    Extend(s0, steps, LockIndex(w));
    run := steps + [LockIndex(w)];
    Extend(s0, run, WriteTmp(w));
    run := run + [WriteTmp(w)];
    Extend(s0, run, Rename(w));
    run := run + [Rename(w)];
    Extend(s0, run, StorePersisted(w));
    run := run + [StorePersisted(w)];
    Extend(s0, run, Unlock(w));
    run := run + [Unlock(w)];
  }

  /** A fresh worker loads the watermark of the only shard. */
  lemma LoadOne(s0: State, steps: seq<Step>, w: nat) returns (run: seq<Step>)
    requires Valid(s0, steps) && GuardedRun(s0, steps)
    requires var s := Exec(s0, steps); |s.shards| == 1 && w !in s.workers
    ensures Valid(s0, run) && GuardedRun(s0, run) && run == steps + [StartSnapshot(w), LoadWatermark(w)]
    ensures var s := Exec(s0, steps);
      Exec(s0, run) == s.(workers := s.workers[w := Loading([s.shards[0].watermark])])
  {
    hide Valid, Exec, GuardedRun;
    Extend(s0, steps, StartSnapshot(w));
    run := steps + [StartSnapshot(w)];
    Extend(s0, run, LoadWatermark(w));
    run := run + [LoadWatermark(w)];
    var s := Exec(s0, steps);
    assert [] + [s.shards[0].watermark] == [s.shards[0].watermark];
    assert s.workers[w := Loading([])][w := Loading([s.shards[0].watermark])] == s.workers[w := Loading([s.shards[0].watermark])];
  }

  /** One committed batch is flushed and its watermark published. */
  lemma PublishOne(s0: State, steps: seq<Step>) returns (run: seq<Step>)
    requires Valid(s0, steps) && GuardedRun(s0, steps)
    requires var s := Exec(s0, steps);
      |s.shards| == 1 && s.shards[0] == FreshShard() && s.chunks == map[] && (forall w :: w in s.workers ==> s.workers[w].Loading?)
    ensures Valid(s0, run) && GuardedRun(s0, run) && steps <= run
    ensures var end := Exec(s0, run);
      && |end.shards| == 1 && end.shards[0].watermark == 1 && end.workers == Exec(s0, steps).workers
      && end.shards[0].flush == Published && end.shards[0].abandoned == {}
      && var e := Entry(0, 1, [CpuPoint(1)]); end.shards[0].wal == [e] && end.shards[0].history == {e}
  {
    hide Valid, Exec, GuardedRun;
    var a;
    run, a := CommitOne(s0, steps, [CpuPoint(1)]);
    assert a == Entry(0, 1, [CpuPoint(1)]) && [] + [a] == [a] && {} + {a} == {a};
    run := FlushOne(s0, run, 7);
    run := StoreOne(s0, run);
  }

  /** A settled shard reads its last committed sequence and publishes it. */
  lemma StoreOne(s0: State, steps: seq<Step>) returns (run: seq<Step>)
    requires Valid(s0, steps) && GuardedRun(s0, steps)
    requires var s := Exec(s0, steps); |s.shards| == 1 && s.shards[0].flush.Registered? && Settled(s.shards[0])
    ensures Valid(s0, run) && GuardedRun(s0, run) && run == steps + [ReadSeq(0), StoreWatermark(0)]
    ensures var s, h := Exec(s0, steps), Exec(s0, steps).shards[0];
      Exec(s0, run) == s.(shards := [h.(flush := Published, watermark := h.last)])
  {
    hide Valid, Exec, GuardedRun;
    Extend(s0, steps, ReadSeq(0));
    run := steps + [ReadSeq(0)];
    Extend(s0, run, StoreWatermark(0));
    run := run + [StoreWatermark(0)];
  }

  lemma StepOne(s0: State, steps: seq<Step>, step: Step) returns (run: seq<Step>)
    requires Valid(s0, steps) && GuardedRun(s0, steps) && |Exec(s0, steps).shards| == 1
    requires Enabled(Exec(s0, steps), step) && ShardStep(step) && (step.LoadBound? || step.DeleteSegments?)
    ensures Valid(s0, run) && GuardedRun(s0, run) && steps <= run
    ensures var s := Exec(s0, steps); Exec(s0, run) == s.(shards := [AfterShard(s.shards[0], step)])
  {
    hide Valid, Exec, GuardedRun, Ready, AfterShard;
    Extend(s0, steps, step);
    run := steps + [step];
  }

  /** Two overlapping snapshots of a guarded run can take the persisted watermark backwards. */
  lemma PersistedMovesBackwards() returns (before: seq<Step>, after: seq<Step>)
    ensures Valid(Init(1), before) && Valid(Init(1), after) && GuardedRun(Init(1), after) && before <= after
    ensures |Exec(Init(1), before).shards| == |Exec(Init(1), after).shards| == 1
    ensures Exec(Init(1), after).shards[0].persisted < Exec(Init(1), before).shards[0].persisted
  {
    hide Valid, Exec, GuardedRun;
    NoSteps(1);
    var run := LoadOne(Init(1), [], 1);
    run := PublishOne(Init(1), run);
    run := LoadOne(Init(1), run, 2);
    before := FinishSnapshot(Init(1), run, 2, 1);
    after := FinishSnapshot(Init(1), before, 1, 0);
  }

  /**
    Two overlapping snapshots of a guarded run can put a watermark on disk that is lower than a bound deletion
    uses: an entry above the watermark on disk is no longer in the log.
  */
  lemma DeletedAboveSnapshot() returns (steps: seq<Step>, e: Entry)
    ensures Valid(Init(1), steps) && GuardedRun(Init(1), steps)
    ensures var s := Exec(Init(1), steps);
      && |s.shards| == |s.disk.watermarks| == 1 && e in s.shards[0].history && e !in s.shards[0].abandoned
      && s.disk.watermarks[0] < e.seqno && e !in s.shards[0].wal
  {
    hide Valid, Exec, GuardedRun;
    NoSteps(1);
    e := Entry(0, 1, [CpuPoint(1)]);
    steps := LoadOne(Init(1), [], 1);
    steps := PublishOne(Init(1), steps);
    steps := LoadOne(Init(1), steps, 2);
    steps := FinishSnapshot(Init(1), steps, 2, 1);
    steps := StepOne(Init(1), steps, LoadBound(0));
    steps := FinishSnapshot(Init(1), steps, 1, 0);
    steps := DeleteOne(Init(1), steps, e);
  }

  /** A sweep that may delete up to the sequence of the only entry deletes it. */
  lemma DeleteOne(s0: State, steps: seq<Step>, e: Entry) returns (run: seq<Step>)
    requires Valid(s0, steps) && GuardedRun(s0, steps)
    requires var s := Exec(s0, steps); |s.shards| == 1 && s.shards[0].flush == Collecting(e.seqno) && s.shards[0].wal == [e]
    ensures Valid(s0, run) && GuardedRun(s0, run) && steps <= run
    ensures var s := Exec(s0, steps); Exec(s0, run) == s.(shards := [s.shards[0].(wal := [])])
  {
    hide Valid, Exec, GuardedRun;
    assert [e][1..] == [] && Without([e], {e.seqno}) == [];
    run := StepOne(s0, steps, DeleteSegments(0, {e.seqno}));
  }
}
