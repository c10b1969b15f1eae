/** Safety of the durability protocol over whole runs, and the runs that break it when its condition fails. */
module DurabilityTheorems {
  import opened Types
  import opened Durability
  import opened DurabilityInvariant
  import Memtable

  // ----- Runs -----

  ghost predicate Valid(s: State, steps: seq<Step>)
    decreases |steps|
  {
    steps == [] || (Enabled(s, steps[0]) && Valid(Next(s, steps[0]), steps[1..]))
  }

  ghost function Exec(s: State, steps: seq<Step>): State
    requires Valid(s, steps)
    decreases |steps|
  {
    if steps == [] then s else Exec(Next(s, steps[0]), steps[1..])
  }

  /** Every watermark read of the run happens while its shard is settled. */
  ghost predicate GuardedRun(s: State, steps: seq<Step>)
    requires Valid(s, steps)
    decreases |steps|
  {
    steps == [] || (Guarded(s, steps[0]) && GuardedRun(Next(s, steps[0]), steps[1..]))
  }

  lemma {:induction false} RunInv(s: State, steps: seq<Step>)
    requires Inv(s) && Valid(s, steps) && GuardedRun(s, steps)
    ensures Inv(Exec(s, steps)) && |Exec(s, steps).shards| == |s.shards|
    decreases |steps|
  {
    if steps != [] {
      InvStep(s, steps[0]);
      RunInv(Next(s, steps[0]), steps[1..]);
    }
  }

  lemma {:induction false} RunConcat(s: State, before: seq<Step>, after: seq<Step>)
    requires Valid(s, before) && Valid(Exec(s, before), after)
    ensures Valid(s, before + after) && Exec(s, before + after) == Exec(Exec(s, before), after)
    ensures GuardedRun(s, before + after) <==> GuardedRun(s, before) && GuardedRun(Exec(s, before), after)
    decreases |before|
  {
    if before == [] {
      assert before + after == after;
    } else {
      assert (before + after)[1..] == before[1..] + after;
      RunConcat(Next(s, before[0]), before[1..], after);
    }
  }

  // ----- What a restart finds -----

  function PointsOf(es: seq<Entry>): (points: seq<DataPoint>)
    ensures forall p :: p in points <==> exists e :: e in es && p in e.points
  {
    if es == [] then [] else PointsOf(es[..|es| - 1]) + es[|es| - 1].points
  }

  /** The log entries a recovery replays: those above the watermark of the snapshot. */
  function Replay(log: seq<Entry>, watermark: nat): (es: seq<Entry>)
    ensures forall e :: e in es <==> e in log && watermark < e.seqno
  {
    if log == [] then []
    else if log[0].seqno <= watermark then Replay(log[1..], watermark)
    else [log[0]] + Replay(log[1..], watermark)
  }

  /** What recovery reads after a crash in `s`: chunks named by the snapshot, and the replayed log. */
  ghost predicate Recovers(s: State, slot: Slot, v: F64) {
    || (exists id :: id in s.disk.index && id in s.chunks && Holds(s.chunks[id], slot, v))
    || (exists j :: 0 <= j < |s.shards| && j < |s.disk.watermarks| && Holds(Replay(s.shards[j].wal, s.disk.watermarks[j]), slot, v))
  }

  ghost predicate Holds(es: seq<Entry>, slot: Slot, v: F64) {
    Memtable.Latest(PointsOf(es), slot) == Some(v)
  }

  /** A point of a surviving entry is found, possibly with the value of a later point for its slot. */
  lemma HoldsEntry(es: seq<Entry>, e: Entry, p: DataPoint)
    requires e in es && p in e.points
    ensures exists v :: Holds(es, SlotOf(p), v)
  {
    assert p in PointsOf(es);
    Memtable.LatestFrom(PointsOf(es), SlotOf(p));
    assert Holds(es, SlotOf(p), Memtable.Latest(PointsOf(es), SlotOf(p)).value);
  }

  lemma HoldsOnly(es: seq<Entry>, slot: Slot, v: F64)
    requires Holds(es, slot, v)
    ensures exists e, p :: e in es && p in e.points && SlotOf(p) == slot && p.value == v
  {
    Memtable.LatestFrom(PointsOf(es), slot);
  }

  // ----- No acknowledged point is lost -----

  /** In every reachable state, a crash loses no entry whose append was not abandoned. */
  lemma CrashKeeps(s: State, j: nat, e: Entry, p: DataPoint)
    requires Inv(s) && j < |s.shards|
    requires e in s.shards[j].history && e !in s.shards[j].abandoned && p in e.points
    ensures exists v :: Recovers(s, SlotOf(p), v)
  {
    var h := s.shards[j];
    assert ShardOk(s, j);
    if e in h.wal && s.disk.watermarks[j] < e.seqno {
      HoldsEntry(Replay(h.wal, s.disk.watermarks[j]), e, p);
      var v :| Holds(Replay(h.wal, s.disk.watermarks[j]), SlotOf(p), v);
      assert Recovers(s, SlotOf(p), v);
    } else {
      assert Filed(s.chunks, s.disk.index, e);
      var id :| id in s.disk.index && id in s.chunks && e in s.chunks[id];
      HoldsEntry(s.chunks[id], e, p);
      var v :| Holds(s.chunks[id], SlotOf(p), v);
      assert Recovers(s, SlotOf(p), v);
    }
  }

  /** The entry reached the memtable: from here on it is never abandoned. */
  ghost predicate Landed(h: Shard, e: Entry) {
    e in h.history && e !in h.unpublished && e !in h.inflight && e !in h.abandoned
  }

  lemma LandedStep(s: State, step: Step, j: nat, e: Entry)
    requires Inv(s) && Enabled(s, step) && j < |s.shards| && Landed(s.shards[j], e)
    ensures Landed(Next(s, step).shards[j], e)
  {
    hide Inv, LogOk, AfterShard, Ready, WorkerEnabled;
    if ShardStep(step) {
      ShardLogOk(s, j);
      if step.shard == j {
        LandedShard(j, s.shards[j], step, e);
      }
    } else {
      PersistedOnly(s, step, j);
    }
  }

  lemma LandedShard(j: nat, h: Shard, step: Step, e: Entry)
    requires ShardStep(step) && step.shard == j && Ready(h, step) && LogOk(j, h) && Landed(h, e)
    ensures Landed(AfterShard(h, step), e)
  {
  }

  lemma {:induction false} LandedRun(s: State, steps: seq<Step>, j: nat, e: Entry)
    requires Inv(s) && Valid(s, steps) && GuardedRun(s, steps) && j < |s.shards| && Landed(s.shards[j], e)
    ensures j < |Exec(s, steps).shards| && Landed(Exec(s, steps).shards[j], e)
    decreases |steps|
  {
    if steps != [] {
      InvStep(s, steps[0]);
      LandedStep(s, steps[0], j, e);
      LandedRun(Next(s, steps[0]), steps[1..], j, e);
    }
  }

  lemma {:induction false} InsertedKept(s: State, steps: seq<Step>, k: nat, p: DataPoint)
    requires Inv(s) && Valid(s, steps) && GuardedRun(s, steps)
    requires k < |steps| && steps[k].Insert? && p in steps[k].entry.points
    ensures var end := Exec(s, steps);
      |end.disk.watermarks| == |end.shards| && exists v :: Recovers(end, SlotOf(p), v)
    decreases |steps|
  {
    var s' := Next(s, steps[0]);
    InvStep(s, steps[0]);
    if k > 0 {
      InsertedKept(s', steps[1..], k - 1, p);
    } else {
      var j, e := steps[0].shard, steps[0].entry;
      assert ShardOk(s, j);
      LandedRun(s', steps[1..], j, e);
      RunInv(s', steps[1..]);
      CrashKeeps(Exec(s', steps[1..]), j, e, p);
    }
  }

  /**
    An append is acknowledged after the inserts of all its entries. After a crash at the end of any
    guarded run from a fresh start, every point of every inserted entry is recovered.
  */
  lemma NoAckedPointLost(n: nat, steps: seq<Step>, k: nat, p: DataPoint)
    requires Valid(Init(n), steps) && GuardedRun(Init(n), steps)
    requires k < |steps| && steps[k].Insert? && p in steps[k].entry.points
    ensures exists v :: Recovers(Exec(Init(n), steps), SlotOf(p), v)
  {
    InitInv(n);
    InsertedKept(Init(n), steps, k, p);
  }

  /**
    The snapshot on disk is consistent with itself: its chunks hold every entry up to its watermarks,
    and every other entry is in one of its chunks or replayed from the log.
  */
  lemma SnapshotSelfConsistent(n: nat, steps: seq<Step>, j: nat)
    requires j < n && Valid(Init(n), steps) && GuardedRun(Init(n), steps)
    ensures var s := Exec(Init(n), steps);
      && |s.shards| == |s.disk.watermarks| == n
      && Safe(s, s.disk.index, j, s.disk.watermarks[j])
      && forall e :: e in s.shards[j].history && e !in s.shards[j].abandoned ==>
           Filed(s.chunks, s.disk.index, e) || e in Replay(s.shards[j].wal, s.disk.watermarks[j])
  {
    InitInv(n);
    RunInv(Init(n), steps);
    assert ShardOk(Exec(Init(n), steps), j);
  }

  // ----- Recovery invents nothing -----

  ghost predicate Appended(steps: seq<Step>, p: DataPoint) {
    exists k, b :: 0 <= k < |steps| && steps[k].Sync? && b in steps[k].batches && p in b
  }

  lemma {:induction false} HistoryAppended(s: State, steps: seq<Step>, j: nat, e: Entry, p: DataPoint)
    requires Valid(s, steps) && j < |s.shards| && |Exec(s, steps).shards| == |s.shards|
    requires e in Exec(s, steps).shards[j].history && e !in s.shards[j].history && p in e.points
    ensures Appended(steps, p)
    decreases |steps|
  {
    var s' := Next(s, steps[0]);
    if e in s'.shards[j].history {
      assert steps[0].Sync? && e.points in steps[0].batches;
    } else {
      HistoryAppended(s', steps[1..], j, e, p);
      var k, b :| 0 <= k < |steps[1..]| && steps[1..][k].Sync? && b in steps[1..][k].batches && p in b;
      assert steps[k + 1].Sync? && b in steps[k + 1].batches;
    }
  }

  /** After a crash at the end of any guarded run from a fresh start, only appended points are found. */
  lemma OnlyAppendedRecovered(n: nat, steps: seq<Step>, slot: Slot, v: F64)
    requires Valid(Init(n), steps) && GuardedRun(Init(n), steps)
    requires Recovers(Exec(Init(n), steps), slot, v)
    ensures exists p :: Appended(steps, p) && SlotOf(p) == slot && p.value == v
  {
    InitInv(n);
    RunInv(Init(n), steps);
    var s := Exec(Init(n), steps);
    if id :| id in s.disk.index && id in s.chunks && Holds(s.chunks[id], slot, v) {
      HoldsOnly(s.chunks[id], slot, v);
      var e, p :| e in s.chunks[id] && p in e.points && SlotOf(p) == slot && p.value == v;
      HistoryAppended(Init(n), steps, e.shard, e, p);
    } else {
      var j :| 0 <= j < |s.shards| && j < |s.disk.watermarks| && Holds(Replay(s.shards[j].wal, s.disk.watermarks[j]), slot, v);
      assert ShardOk(s, j);
      HoldsOnly(Replay(s.shards[j].wal, s.disk.watermarks[j]), slot, v);
      var e, p :| e in s.shards[j].wal && p in e.points && SlotOf(p) == slot && p.value == v;
      HistoryAppended(Init(n), steps, j, e, p);
    }
  }

  /** A slot written with one value only is recovered with exactly that value. */
  lemma SoleValueRecovered(n: nat, steps: seq<Step>, k: nat, p: DataPoint, v: F64)
    requires Valid(Init(n), steps) && GuardedRun(Init(n), steps)
    requires k < |steps| && steps[k].Insert? && p in steps[k].entry.points
    requires forall q :: Appended(steps, q) && SlotOf(q) == SlotOf(p) ==> q.value == p.value
    ensures Recovers(Exec(Init(n), steps), SlotOf(p), v) <==> v == p.value
  {
    InitInv(n);
    NoAckedPointLost(n, steps, k, p);
    var s := Exec(Init(n), steps);
    var u :| Recovers(s, SlotOf(p), u);
    OnlyAppendedRecovered(n, steps, SlotOf(p), u);
    if Recovers(s, SlotOf(p), v) {
      OnlyAppendedRecovered(n, steps, SlotOf(p), v);
    }
  }

  // ----- Segment deletion is safe under overlapping snapshots -----

  lemma DiskIndexGrows(s: State, step: Step)
    requires Inv(s) && Enabled(s, step)
    ensures s.disk.index <= Next(s, step).disk.index
  {
    if step.Rename? {
      assert WorkerOk(s, s.workers[step.worker]);
    }
  }

  /**
    Whatever snapshot is on disk from then on, it names chunks for every entry at or below a bound
    that was honest once, so also at or below any bound loaded for segment deletion.
  */
  lemma {:induction false} BoundStaysCovered(s: State, steps: seq<Step>, j: nat, b: nat)
    requires Inv(s) && Valid(s, steps) && GuardedRun(s, steps) && Safe(s, s.disk.index, j, b)
    ensures Safe(Exec(s, steps), Exec(s, steps).disk.index, j, b)
    decreases |steps|
  {
    if steps != [] {
      var s' := Next(s, steps[0]);
      InvStep(s, steps[0]);
      SafeStep(s, steps[0], s.disk.index, j, b);
      DiskIndexGrows(s, steps[0]);
      SafeMono(s', s.disk.index, s'.disk.index, j, b);
      BoundStaysCovered(s', steps[1..], j, b);
    }
  }

  /** The bound loaded by a sweep, and every persisted watermark, stay covered for the rest of the run. */
  lemma GcBoundCovered(n: nat, before: seq<Step>, after: seq<Step>, j: nat)
    requires j < n && Valid(Init(n), before) && GuardedRun(Init(n), before)
    requires Valid(Exec(Init(n), before), after) && GuardedRun(Exec(Init(n), before), after)
    ensures var s, end := Exec(Init(n), before), Exec(Exec(Init(n), before), after);
      && |s.shards| == n
      && Safe(end, end.disk.index, j, s.shards[j].persisted)
      && (s.shards[j].flush.Collecting? ==> Safe(end, end.disk.index, j, s.shards[j].flush.bound))
  {
    InitInv(n);
    RunInv(Init(n), before);
    var s := Exec(Init(n), before);
    assert ShardOk(s, j);
    BoundStaysCovered(s, after, j, s.shards[j].persisted);
    if s.shards[j].flush.Collecting? {
      BoundStaysCovered(s, after, j, s.shards[j].flush.bound);
    }
  }

  // ----- Flushes that do not overlap appends meet the condition -----

  /** Between the drain of a shard and the read of its last committed sequence. */
  predicate MidFlush(f: Flush) {
    f.Drained? || f.Written? || f.Registered?
  }

  /** A flush of a shard does not overlap appends to that shard, and chunk writes succeed. */
  predicate Quiet(s: State, step: Step)
    requires Enabled(s, step)
  {
    && (step.Sync? ==> !MidFlush(s.shards[step.shard].flush))
    && (step.Drain? ==> s.shards[step.shard].inflight == {} && s.shards[step.shard].unpublished == [])
    && (step.FailFlush? ==> s.shards[step.shard].flush.batch == [])
  }

  ghost predicate QuietRun(s: State, steps: seq<Step>)
    requires Valid(s, steps)
    decreases |steps|
  {
    steps == [] || (Quiet(s, steps[0]) && QuietRun(Next(s, steps[0]), steps[1..]))
  }

  ghost predicate NothingLeftBehind(s: State) {
    forall j :: 0 <= j < |s.shards| ==>
      && s.shards[j].dropped == {}
      && (MidFlush(s.shards[j].flush) ==>
            s.shards[j].inflight == {} && s.shards[j].mem == [] && s.shards[j].unpublished == [])
  }

  lemma {:induction false} QuietIsGuarded(s: State, steps: seq<Step>)
    requires NothingLeftBehind(s) && Valid(s, steps) && QuietRun(s, steps)
    ensures GuardedRun(s, steps)
    decreases |steps|
  {
    if steps != [] {
      assert NothingLeftBehind(Next(s, steps[0]));
      QuietIsGuarded(Next(s, steps[0]), steps[1..]);
    }
  }

  /** From a fresh start, non-overlapping flushes never publish a dishonest watermark. */
  lemma NonOverlappingFlushesAreSafe(n: nat, steps: seq<Step>)
    requires Valid(Init(n), steps) && QuietRun(Init(n), steps)
    ensures GuardedRun(Init(n), steps) && Inv(Exec(Init(n), steps))
  {
    QuietIsGuarded(Init(n), steps);
    InitInv(n);
    RunInv(Init(n), steps);
  }
}
