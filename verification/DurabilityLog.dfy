/** Which entries above the watermark of the snapshot on disk are still in the log. */
module DurabilityLog {
  import opened Types
  import opened Durability
  import opened DurabilityInvariant
  import opened DurabilityTheorems

  // ----- Deletions -----

  /** The sequences of shard `j` that a run deletes. */
  function Gone(steps: seq<Step>, j: nat): set<nat> {
    if steps == [] then {}
    else (if steps[0].DeleteSegments? && steps[0].shard == j then steps[0].gone else {}) + Gone(steps[1..], j)
  }

  /** What a step does to the log of a shard: new entries are numbered above all others, deleted ones go, the rest stays. */
  lemma NumbersStep(s: State, step: Step, j: nat)
    requires Inv(s) && Enabled(s, step) && j < |s.shards|
    ensures j < |Next(s, step).shards|
    ensures var h, h' := s.shards[j], Next(s, step).shards[j];
      && h.current <= h'.current && h.history <= h'.history
      && (forall e :: e in h'.history && e !in h.history ==> h.current < e.seqno && e in h'.wal)
      && (forall e :: e in h.history ==>
            (e in h'.wal <==> e in h.wal && !(step.DeleteSegments? && step.shard == j && e.seqno in step.gone)))
  {
    hide Inv, Ready, WorkerEnabled, AfterShard;
    if ShardStep(step) {
      if step.shard == j {
        ShardLogOk(s, j);
        NumbersShard(s.shards[j], step);
      }
    } else {
      PersistedOnly(s, step, j);
    }
  }

  lemma NumbersShard(h: Shard, step: Step)
    requires ShardStep(step) && Ready(h, step)
    ensures var h' := AfterShard(h, step);
      && h.current <= h'.current && h.history <= h'.history
      && (forall e :: e in h'.history && e !in h.history ==> h.current < e.seqno && e in h'.wal)
      && (forall e :: e in h.history ==> (e in h'.wal ==> e in h.wal || h.current < e.seqno))
      && (forall e :: e in h.wal ==> (e in h'.wal <==> !(step.DeleteSegments? && e.seqno in step.gone)))
  {
  }

  /** An entry synced during a run is numbered above everything handed out before it. */
  lemma {:induction false} LaterNumbers(s: State, steps: seq<Step>, j: nat, e: Entry)
    requires Inv(s) && Valid(s, steps) && GuardedRun(s, steps) && j < |s.shards|
    ensures j < |Exec(s, steps).shards|
    ensures e in Exec(s, steps).shards[j].history && e !in s.shards[j].history ==> s.shards[j].current < e.seqno
    ensures e in s.shards[j].history ==> e in Exec(s, steps).shards[j].history
    decreases |steps|
  {
    if steps != [] {
      hide Inv, Enabled, Next, Guarded;
      InvStep(s, steps[0]);
      NumbersStep(s, steps[0], j);
      LaterNumbers(Next(s, steps[0]), steps[1..], j, e);
    }
  }

  /** Only sequences handed out already are deleted. */
  lemma DeletesOld(s: State, step: Step, j: nat, q: nat)
    requires Inv(s) && Enabled(s, step) && step.DeleteSegments? && step.shard == j && q in step.gone
    ensures q <= s.shards[j].current
  {
    hide Placed, LogCovered, WorkerOk, ChunksOwned, Filed;
    assert ShardOk(s, j);
  }

  lemma {:induction false} LoggedExact(s: State, steps: seq<Step>, j: nat, e: Entry)
    requires Inv(s) && Valid(s, steps) && GuardedRun(s, steps) && j < |s.shards|
    ensures j < |Exec(s, steps).shards|
    ensures e in Exec(s, steps).shards[j].history ==>
              (e in Exec(s, steps).shards[j].wal <==>
               (e in s.shards[j].wal || e !in s.shards[j].history) && e.seqno !in Gone(steps, j))
    decreases |steps|
  {
    if steps == [] {
      hide Placed, BoundsOk, LogCovered, WorkerOk, Frame;
    } else {
      hide Inv, Enabled, Next, Guarded;
      var s' := Next(s, steps[0]);
      InvStep(s, steps[0]);
      NumbersStep(s, steps[0], j);
      LaterNumbers(s', steps[1..], j, e);
      LoggedExact(s', steps[1..], j, e);
      if steps[0].DeleteSegments? && steps[0].shard == j && e.seqno in steps[0].gone {
        DeletesOld(s, steps[0], j, e.seqno);
      }
    }
  }

  /**
    From a fresh start, every entry above the watermark of the snapshot on disk is still in the log, and so replayed,
    if and only if no deletion of the run took an entry above that watermark.
  */
  lemma LogAboveSnapshotExact(n: nat, steps: seq<Step>, j: nat)
    requires j < n && Valid(Init(n), steps) && GuardedRun(Init(n), steps)
    ensures var s := Exec(Init(n), steps);
      && |s.shards| == |s.disk.watermarks| == n
      && ((forall e :: e in s.shards[j].history && s.disk.watermarks[j] < e.seqno ==> e in Replay(s.shards[j].wal, s.disk.watermarks[j]))
          <==> (forall e :: e in s.shards[j].history && e.seqno in Gone(steps, j) ==> e.seqno <= s.disk.watermarks[j]))
  {
    InitInv(n);
    RunInv(Init(n), steps);
    var s := Exec(Init(n), steps);
    FrameOf(s);
    hide Inv, Valid, GuardedRun, Exec;
    forall e | e in s.shards[j].history ensures e in s.shards[j].wal <==> e.seqno !in Gone(steps, j) {
      LoggedExact(Init(n), steps, j, e);
    }
  }

  lemma FrameOf(s: State)
    requires Inv(s)
    ensures |s.shards| == |s.disk.watermarks|
  {
  }

  // ----- One snapshot at a time -----

  /** No snapshot starts while another one is at work. */
  ghost predicate SerialRun(s: State, steps: seq<Step>)
    requires Valid(s, steps)
    decreases |steps|
  {
    steps == [] || ((steps[0].StartSnapshot? ==> s.workers == map[]) && SerialRun(Next(s, steps[0]), steps[1..]))
  }

  /** The watermarks of a shard in the order they are handed on. */
  ghost predicate Ascending(s: State, j: nat)
    requires j < |s.shards| == |s.disk.watermarks|
  {
    var h, d := s.shards[j], s.disk.watermarks[j];
    && h.persisted <= d <= h.watermark <= h.last
    && (h.flush.SeqRead? ==> h.watermark <= h.flush.upTo <= h.last)
    && (h.flush.Collecting? ==> h.flush.bound <= d)
  }

  ghost predicate WorkerAscending(s: State, w: Worker) {
    && |w.loaded| <= |s.shards| == |s.disk.watermarks|
    && (forall j :: 0 <= j < |w.loaded| ==> s.disk.watermarks[j] <= w.loaded[j] <= s.shards[j].watermark)
    && (!w.Loading? ==> |w.loaded| == |s.shards|)
    && (w.TmpWritten? && s.tmp.Some? ==> s.tmp.value.watermarks == w.loaded)
    && (w.Renamed? ==> s.disk.watermarks == w.loaded)
  }

  ghost predicate Serial(s: State) {
    && |s.shards| == |s.disk.watermarks|
    && (forall j :: 0 <= j < |s.shards| ==> Ascending(s, j) && LastOk(s.shards[j]))
    && (forall a, b :: a in s.workers && b in s.workers ==> a == b)
    && (forall w :: w in s.workers ==> WorkerAscending(s, s.workers[w]))
  }

  ghost predicate LastOk(h: Shard) {
    h.last <= h.current && (h.unpublished != [] ==> h.last <= h.unpublished[|h.unpublished| - 1].seqno)
  }

  lemma SerialShard(s: State, step: Step)
    requires Serial(s) && Inv(s) && ShardStep(step) && Enabled(s, step)
    ensures Serial(NextShard(s, step)) && NextShard(s, step).disk == s.disk
  {
    hide Inv, AfterShard, Ready, LogOk, LastOk;
    var i := step.shard;
    ShardLogOk(s, i);
    assert Ascending(s, i) && LastOk(s.shards[i]);
    AscendingShard(s.shards[i], step, s.disk.watermarks[i]);
    var s' := NextShard(s, step);
    forall w | w in s'.workers ensures WorkerAscending(s', s'.workers[w]) {
      assert WorkerAscending(s, s.workers[w]);
    }
  }

  lemma AscendingShard(h: Shard, step: Step, d: nat)
    requires ShardStep(step) && Ready(h, step) && LogOk(step.shard, h) && LastOk(h)
    requires h.persisted <= d <= h.watermark <= h.last
    requires (h.flush.SeqRead? ==> h.watermark <= h.flush.upTo <= h.last) && (h.flush.Collecting? ==> h.flush.bound <= d)
    ensures var h' := AfterShard(h, step);
      && LastOk(h') && h'.persisted <= d <= h'.watermark <= h'.last && h.watermark <= h'.watermark
      && (h'.flush.SeqRead? ==> h'.watermark <= h'.flush.upTo <= h'.last) && (h'.flush.Collecting? ==> h'.flush.bound <= d)
  {
  }

  lemma SerialWorker(s: State, step: Step)
    requires Serial(s) && !ShardStep(step) && Enabled(s, step) && (step.StartSnapshot? ==> s.workers == map[])
    ensures Serial(NextWorker(s, step)) && forall j :: 0 <= j < |s.shards| ==> s.disk.watermarks[j] <= NextWorker(s, step).disk.watermarks[j]
  {
    if !step.StartSnapshot? {
      assert WorkerAscending(s, s.workers[step.worker]);
    }
  }

  /** With one snapshot at a time the watermarks on disk never fall, and nothing above them is deleted. */
  lemma {:induction false} SerialKeepsLog(s: State, steps: seq<Step>, j: nat)
    requires Inv(s) && Serial(s) && Valid(s, steps) && GuardedRun(s, steps) && SerialRun(s, steps) && j < |s.shards|
    ensures var end := Exec(s, steps);
      && |end.disk.watermarks| == |end.shards| == |s.shards| && s.disk.watermarks[j] <= end.disk.watermarks[j]
      && forall q :: q in Gone(steps, j) ==> q <= end.disk.watermarks[j]
    decreases |steps|
  {
    if steps != [] {
      hide Inv, Serial, Enabled, Guarded, NextShard, NextWorker;
      var s' := Next(s, steps[0]);
      InvStep(s, steps[0]);
      DeletesBelow(s, steps[0], j);
      if ShardStep(steps[0]) {
        SerialShard(s, steps[0]);
      } else {
        SerialWorker(s, steps[0]);
      }
      SameShards(s, steps[0]);
      SerialKeepsLog(s', steps[1..], j);
    } else {
      hide Inv;
    }
  }

  lemma SameShards(s: State, step: Step)
    requires Enabled(s, step)
    ensures |Next(s, step).shards| == |s.shards|
  {
  }

  lemma DeletesBelow(s: State, step: Step, j: nat)
    requires Serial(s) && Enabled(s, step) && j < |s.shards|
    ensures |s.shards| == |s.disk.watermarks|
    ensures step.DeleteSegments? && step.shard == j ==> forall q :: q in step.gone ==> q <= s.disk.watermarks[j]
  {
    assert Ascending(s, j);
  }

  /** So with one snapshot at a time every entry above the watermark on disk is still in the log. */
  lemma SerialSnapshotsKeepLog(n: nat, steps: seq<Step>, j: nat)
    requires j < n && Valid(Init(n), steps) && GuardedRun(Init(n), steps) && SerialRun(Init(n), steps)
    ensures var s := Exec(Init(n), steps);
      && |s.shards| == |s.disk.watermarks| == n
      && forall e :: e in s.shards[j].history && s.disk.watermarks[j] < e.seqno ==> e in Replay(s.shards[j].wal, s.disk.watermarks[j])
  {
    InitInv(n);
    InitSerial(n);
    hide Inv, Serial, Valid, GuardedRun, SerialRun, Exec;
    SerialKeepsLog(Init(n), steps, j);
    LogAboveSnapshotExact(n, steps, j);
  }

  lemma InitSerial(n: nat)
    ensures Serial(Init(n))
  {
  }
}
