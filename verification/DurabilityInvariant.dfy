/**
  What every step of the durability protocol keeps.

  The watermark a snapshot persists may move backwards when two workers overlap,
  so the invariant is not about watermarks alone: every entry at or below any
  bound that segment deletion may use is in a chunk named by the snapshot on disk.
*/
module DurabilityInvariant {
  import opened Types
  import opened Durability

  /** `e` is in a chunk file named by `ids`. */
  ghost predicate Filed(chunks: map<ChunkId, seq<Entry>>, ids: set<ChunkId>, e: Entry) {
    exists id :: id in ids && id in chunks && e in chunks[id]
  }

  /** `b` is a committed sequence of shard `j`, and `ids` name chunks for every entry up to it. */
  ghost predicate Safe(s: State, ids: set<ChunkId>, j: nat, b: nat) {
    && j < |s.shards|
    && b <= s.shards[j].last
    && forall e :: e in s.shards[j].history && e.seqno <= b && e !in s.shards[j].abandoned ==> Filed(s.chunks, ids, e)
  }

  /** Sequence numbers of one shard: what is published, what is not, what was ever handed out. */
  ghost predicate LogOk(j: nat, h: Shard) {
    && h.last <= h.current
    && (forall e :: e in h.history ==> e.shard == j && e.seqno <= h.current && (e.seqno <= h.last || e in h.unpublished))
    && (forall e :: e in h.unpublished ==> e in h.history && h.last < e.seqno)
    && (forall a, b :: 0 <= a < b < |h.unpublished| ==> h.unpublished[a].seqno < h.unpublished[b].seqno)
    && (forall e :: e in h.wal ==> e in h.history)
    && (forall e :: e in h.inflight || e in h.mem || e in h.dropped || e in h.abandoned ==> Committed(h, e))
    && (h.flush.Drained? ==> forall e :: e in h.flush.batch ==> Committed(h, e))
  }

  ghost predicate Committed(h: Shard, e: Entry) {
    e in h.history && e.seqno <= h.last
  }

  /** Published, not abandoned, and in no chunk that a watermark may rely on. */
  ghost predicate Outstanding(h: Shard, e: Entry) {
    e in h.inflight || e in h.mem || e in h.dropped
  }

  ghost predicate Held(chunks: map<ChunkId, seq<Entry>>, f: Flush, e: Entry) {
    match f
    case Drained(batch) => e in batch
    case Written(id) => id in chunks && e in chunks[id]
    case _ => false
  }

  /** Every entry of a shard is in one place, and outstanding entries are in no chunk file. */
  ghost predicate Placed(chunks: map<ChunkId, seq<Entry>>, index: set<ChunkId>, h: Shard) {
    && (forall e :: e in h.history ==>
          e in h.unpublished || Outstanding(h, e) || e in h.abandoned || Held(chunks, h.flush, e) || Filed(chunks, index, e))
    && (forall e :: e in h.inflight ==> e !in h.mem && e !in h.dropped)
    && (forall e :: e in h.mem ==> e !in h.dropped)
    && (forall e :: Outstanding(h, e) ==> !Filed(chunks, chunks.Keys, e) && e !in h.abandoned)
    && (h.flush.Drained? ==> forall e :: e in h.flush.batch ==>
          !Outstanding(h, e) && !Filed(chunks, chunks.Keys, e) && e !in h.abandoned)
    && (h.flush.Written? ==> h.flush.chunk in chunks)
  }

  ghost predicate ChunksOwned(s: State) {
    forall id, e :: id in s.chunks && e in s.chunks[id] ==> e.shard < |s.shards| && Committed(s.shards[e.shard], e)
  }

  /** The watermarks of one shard: live ones against the index, collectable ones against the disk. */
  ghost predicate BoundsOk(s: State, j: nat)
    requires j < |s.shards| == |s.disk.watermarks|
  {
    var h := s.shards[j];
    && Safe(s, s.index, j, h.watermark)
    && (h.flush.SeqRead? ==> Safe(s, s.index, j, h.flush.upTo))
    && Safe(s, s.disk.index, j, h.persisted)
    && (h.flush.Collecting? ==> Safe(s, s.disk.index, j, h.flush.bound))
    && Safe(s, s.disk.index, j, s.disk.watermarks[j])
  }

  /** Nothing leaves the log before a snapshot on disk names a chunk with it. */
  ghost predicate LogCovered(s: State, j: nat)
    requires j < |s.shards|
  {
    var h := s.shards[j];
    forall e :: e in h.history ==> e in h.wal || e in h.abandoned || Filed(s.chunks, s.disk.index, e)
  }

  ghost predicate WorkerOk(s: State, w: Worker) {
    && |w.loaded| <= |s.shards|
    && (forall j :: 0 <= j < |w.loaded| ==> Safe(s, s.index, j, w.loaded[j]))
    && (HoldsLock(w) ==> |w.loaded| == |s.shards|)
    && (w.TmpWritten? && s.tmp.Some? ==> TmpOk(s, s.tmp.value))
    && (w.Renamed? ==> s.disk.index == s.index && w.stored <= |s.shards|)
  }

  ghost predicate TmpOk(s: State, t: Snapshot) {
    && t.index == s.index
    && |t.watermarks| == |s.shards|
    && forall j :: 0 <= j < |s.shards| ==> Safe(s, s.index, j, t.watermarks[j])
  }

  ghost predicate Frame(s: State) {
    && |s.disk.watermarks| == |s.shards|
    && s.disk.index <= s.index <= s.chunks.Keys
    && ChunksOwned(s)
  }

  ghost predicate ShardOk(s: State, j: nat)
    requires j < |s.shards| == |s.disk.watermarks|
  {
    && LogOk(j, s.shards[j])
    && Placed(s.chunks, s.index, s.shards[j])
    && BoundsOk(s, j)
    && LogCovered(s, j)
  }

  ghost predicate Inv(s: State) {
    && Frame(s)
    && (forall j :: 0 <= j < |s.shards| ==> ShardOk(s, j))
    && (forall w :: w in s.workers ==> WorkerOk(s, s.workers[w]))
  }

  /**
    The condition under which the watermark a flush publishes is honest: when the last committed
    sequence is read, no committed entry of the shard is waiting for its insert, sits in the
    memtable, or was lost by an earlier failed flush.
  */
  predicate Settled(h: Shard) {
    h.inflight == {} && h.mem == [] && h.dropped == {}
  }

  predicate Guarded(s: State, step: Step)
    requires Enabled(s, step)
  {
    step.ReadSeq? ==> Settled(s.shards[step.shard])
  }

  lemma InitInv(n: nat)
    ensures Inv(Init(n))
  {
  }

  lemma SafeMono(s: State, ids: set<ChunkId>, more: set<ChunkId>, j: nat, b: nat)
    requires Safe(s, ids, j, b) && ids <= more
    ensures Safe(s, more, j, b)
  {
  }

  /** Once chunks named by `ids` hold every entry up to `b`, no later step undoes it. */
  lemma SafeStep(s: State, step: Step, ids: set<ChunkId>, j: nat, b: nat)
    requires Inv(s) && Enabled(s, step) && Safe(s, ids, j, b)
    ensures Safe(Next(s, step), ids, j, b)
  {
    hide Inv, LogOk, AfterShard, Ready, WorkerEnabled, Filed;
    FiledStep(s, step, ids);
    if ShardStep(step) {
      if step.shard == j {
        ShardLogOk(s, j);
        HistoryStep(j, s.shards[j], step, b);
      }
    } else {
      PersistedOnly(s, step, j);
    }
  }

  lemma ShardLogOk(s: State, j: nat)
    requires Inv(s) && j < |s.shards|
    ensures LogOk(j, s.shards[j])
  {
    hide LogOk, Placed, Safe, LogCovered, WorkerOk, ChunksOwned;
    assert ShardOk(s, j);
  }

  /** A step adds only entries above the published sequence, and abandons only what was in flight. */
  lemma HistoryStep(j: nat, h: Shard, step: Step, b: nat)
    requires ShardStep(step) && step.shard == j && Ready(h, step) && LogOk(j, h) && b <= h.last
    ensures var h' := AfterShard(h, step);
      && h.last <= h'.last
      && forall e :: e in h'.history && e.seqno <= b && e !in h'.abandoned ==> e in h.history && e !in h.abandoned
  {
  }

  lemma FiledStep(s: State, step: Step, ids: set<ChunkId>)
    requires Enabled(s, step)
    ensures forall e :: Filed(s.chunks, ids, e) ==> Filed(Next(s, step).chunks, ids, e)
  {
    forall e | Filed(s.chunks, ids, e)
      ensures Filed(Next(s, step).chunks, ids, e)
    {
      var id :| id in ids && id in s.chunks && e in s.chunks[id];
      assert id in Next(s, step).chunks && e in Next(s, step).chunks[id];
    }
  }

  lemma LogOkStep(j: nat, h: Shard, step: Step)
    requires ShardStep(step) && step.shard == j && Ready(h, step) && LogOk(j, h)
    ensures LogOk(j, AfterShard(h, step))
  {
    match step {
      case Sync(_, batches) =>
        SyncLogOk(j, h, batches);
      case PublishSeq(_) =>
        PublishLogOk(j, h);
      case _ =>
    }
  }

  lemma SyncLogOk(j: nat, h: Shard, batches: seq<seq<DataPoint>>)
    requires LogOk(j, h) && h.unpublished == [] && batches != []
    ensures LogOk(j, AfterShard(h, Sync(j, batches)))
  {
  }

  lemma PublishLogOk(j: nat, h: Shard)
    requires LogOk(j, h) && h.unpublished != []
    ensures LogOk(j, AfterShard(h, PublishSeq(j)))
  {
  }

  /** A step that touches neither chunk files nor the index keeps every entry in one place. */
  lemma PlacedLocal(chunks: map<ChunkId, seq<Entry>>, index: set<ChunkId>, j: nat, h: Shard, step: Step)
    requires ShardStep(step) && step.shard == j && Ready(h, step)
    requires !step.WriteChunk? && !step.Register?
    requires index <= chunks.Keys
    requires LogOk(j, h) && Placed(chunks, index, h)
    requires forall e :: Filed(chunks, chunks.Keys, e) && e.shard == j ==> Committed(h, e)
    ensures Placed(chunks, index, AfterShard(h, step))
  {
  }

  lemma PlacedWrite(chunks: map<ChunkId, seq<Entry>>, index: set<ChunkId>, h: Shard, id: ChunkId)
    requires h.flush.Drained? && id !in chunks && index <= chunks.Keys && Placed(chunks, index, h)
    ensures Placed(chunks[id := h.flush.batch], index, h.(flush := Written(id)))
  {
    var more, h' := chunks[id := h.flush.batch], h.(flush := Written(id));
    forall e ensures Filed(more, more.Keys, e) <==> Filed(chunks, chunks.Keys, e) || e in h.flush.batch {
      FiledMore(chunks, id, h.flush.batch, e);
    }
    forall e | Filed(chunks, index, e) ensures Filed(more, index, e) {
      var c :| c in index && c in chunks && e in chunks[c];
      assert c in more && e in more[c];
    }
    assert forall e :: Outstanding(h', e) <==> Outstanding(h, e);
  }

  lemma FiledMore(chunks: map<ChunkId, seq<Entry>>, id: ChunkId, batch: seq<Entry>, e: Entry)
    requires id !in chunks
    ensures var more := chunks[id := batch]; Filed(more, more.Keys, e) <==> Filed(chunks, chunks.Keys, e) || e in batch
  {
    var more := chunks[id := batch];
    if c :| c in chunks && e in chunks[c] {
      assert c in more && e in more[c];
    }
    if e in batch {
      assert id in more && e in more[id];
    }
  }

  lemma PlacedRegister(chunks: map<ChunkId, seq<Entry>>, index: set<ChunkId>, h: Shard)
    requires h.flush.Written? && Placed(chunks, index, h)
    ensures Placed(chunks, index + {h.flush.chunk}, h.(flush := Registered))
  {
  }

  /** A chunk written from another shard holds none of this shard's entries. */
  lemma PlacedOther(chunks: map<ChunkId, seq<Entry>>, index: set<ChunkId>, j: nat, h: Shard, id: ChunkId, batch: seq<Entry>)
    requires LogOk(j, h) && Placed(chunks, index, h) && id !in chunks && index <= chunks.Keys
    requires forall e :: e in batch ==> e.shard != j
    ensures Placed(chunks[id := batch], index, h)
  {
  }

  lemma BatchOwned(j: nat, h: Shard)
    requires LogOk(j, h) && h.flush.Drained?
    ensures forall e :: e in h.flush.batch ==> e.shard == j
  {
  }

  lemma PlacedMore(chunks: map<ChunkId, seq<Entry>>, index: set<ChunkId>, more: set<ChunkId>, h: Shard)
    requires Placed(chunks, index, h) && index <= more
    ensures Placed(chunks, more, h)
  {
    assert forall e :: Filed(chunks, index, e) ==> Filed(chunks, more, e);
  }

  lemma PlacedStep(s: State, step: Step, j: nat)
    requires ShardStep(step) && Enabled(s, step) && j < |s.shards| && s.index <= s.chunks.Keys && ChunksOwned(s)
    requires LogOk(j, s.shards[j]) && Placed(s.chunks, s.index, s.shards[j])
    requires LogOk(step.shard, s.shards[step.shard]) && Placed(s.chunks, s.index, s.shards[step.shard])
    ensures Placed(NextShard(s, step).chunks, NextShard(s, step).index, NextShard(s, step).shards[j])
  {
    hide Placed, LogOk;
    var h := s.shards[j];
    if step.WriteChunk? {
      if step.shard == j {
        PlacedWrite(s.chunks, s.index, h, step.id);
      } else {
        BatchOwned(step.shard, s.shards[step.shard]);
        PlacedOther(s.chunks, s.index, j, h, step.id, s.shards[step.shard].flush.batch);
      }
    } else if step.Register? {
      if step.shard == j {
        PlacedRegister(s.chunks, s.index, h);
      } else {
        PlacedMore(s.chunks, s.index, NextShard(s, step).index, h);
      }
    } else if step.shard == j {
      PlacedLocal(s.chunks, s.index, j, h, step);
    }
  }

  lemma ChunksOwnedStep(s: State, step: Step)
    requires ShardStep(step) && Enabled(s, step) && ChunksOwned(s)
    requires LogOk(step.shard, s.shards[step.shard])
    ensures ChunksOwned(NextShard(s, step))
  {
  }

  /** The published watermark is honest exactly when the shard is settled at the moment it is read. */
  lemma ReadSeqExact(s: State, j: nat)
    requires Inv(s) && Enabled(s, ReadSeq(j))
    ensures Safe(s, s.index, j, s.shards[j].last) <==> Settled(s.shards[j])
  {
    var h := s.shards[j];
    assert ShardOk(s, j);
    if Safe(s, s.index, j, h.last) {
      assert forall e :: Filed(s.chunks, s.index, e) ==> Filed(s.chunks, s.chunks.Keys, e);
      assert h.mem != [] ==> Outstanding(h, h.mem[0]);
      assert forall e :: e in h.inflight ==> Outstanding(h, e);
      assert forall e :: e in h.dropped ==> Outstanding(h, e);
    }
  }

  /** Watermarks and collection bounds stay honest through every step of a shard. */
  lemma BoundsShardStep(s: State, step: Step, j: nat)
    requires Inv(s) && ShardStep(step) && Enabled(s, step) && Guarded(s, step) && j < |s.shards|
    ensures |NextShard(s, step).shards| == |s.shards|
    ensures BoundsOk(NextShard(s, step), j)
  {
    var s', h, h' := NextShard(s, step), s.shards[j], NextShard(s, step).shards[j];
    assert ShardOk(s, j);
    SafeStep(s, step, s.index, j, h.watermark);
    SafeStep(s, step, s.disk.index, j, h.persisted);
    SafeStep(s, step, s.disk.index, j, s.disk.watermarks[j]);
    SafeMono(s', s.index, s'.index, j, h.watermark);
    if h.flush.SeqRead? {
      SafeStep(s, step, s.index, j, h.flush.upTo);
      SafeMono(s', s.index, s'.index, j, h.flush.upTo);
    }
    if h.flush.Collecting? {
      SafeStep(s, step, s.disk.index, j, h.flush.bound);
    }
    if step == ReadSeq(j) {
      ReadSeqExact(s, j);
      SafeStep(s, step, s.index, j, h.last);
    }
  }

  lemma BoundsWorkerStep(s: State, step: Step, j: nat)
    requires Inv(s) && !ShardStep(step) && Enabled(s, step) && j < |s.shards|
    ensures |NextWorker(s, step).disk.watermarks| == |NextWorker(s, step).shards| == |s.shards|
    ensures BoundsOk(NextWorker(s, step), j)
  {
    var s' := NextWorker(s, step);
    assert ShardOk(s, j);
    if step.Rename? {
      assert WorkerOk(s, s.workers[step.worker]);
      SafeMono(s, s.disk.index, s.index, j, s.shards[j].persisted);
      if s.shards[j].flush.Collecting? {
        SafeMono(s, s.disk.index, s.index, j, s.shards[j].flush.bound);
      }
    } else if step.StorePersisted? {
      assert WorkerOk(s, s.workers[step.worker]);
    }
  }

  lemma LogCoveredShardStep(s: State, step: Step, j: nat)
    requires Inv(s) && ShardStep(step) && Enabled(s, step) && j < |s.shards|
    ensures LogCovered(NextShard(s, step), j)
  {
    assert ShardOk(s, j);
    FiledStep(s, step, s.disk.index);
  }

  lemma LogCoveredWorkerStep(s: State, step: Step, j: nat)
    requires Inv(s) && !ShardStep(step) && Enabled(s, step) && j < |s.shards|
    ensures LogCovered(NextWorker(s, step), j)
  {
    assert ShardOk(s, j);
    if step.Rename? {
      assert WorkerOk(s, s.workers[step.worker]);
      assert forall e :: Filed(s.chunks, s.disk.index, e) ==> Filed(s.chunks, s.index, e);
    }
  }

  lemma WorkerShardStep(s: State, step: Step, w: nat)
    requires Inv(s) && ShardStep(step) && Enabled(s, step) && w in s.workers
    ensures WorkerOk(NextShard(s, step), s.workers[w])
  {
    var s', k := NextShard(s, step), s.workers[w];
    assert WorkerOk(s, k);
    forall j | 0 <= j < |k.loaded| ensures Safe(s', s'.index, j, k.loaded[j]) {
      SafeStep(s, step, s.index, j, k.loaded[j]);
      SafeMono(s', s.index, s'.index, j, k.loaded[j]);
    }
    if k.TmpWritten? && s.tmp.Some? {
      forall j | 0 <= j < |s.shards| ensures Safe(s', s'.index, j, s.tmp.value.watermarks[j]) {
        SafeStep(s, step, s.index, j, s.tmp.value.watermarks[j]);
        SafeMono(s', s.index, s'.index, j, s.tmp.value.watermarks[j]);
      }
    }
  }

  lemma SafeWorkerStep(s: State, step: Step)
    requires !ShardStep(step) && Enabled(s, step)
    ensures forall ids, j, b :: Safe(s, ids, j, b) ==> Safe(NextWorker(s, step), ids, j, b)
  {
    hide NextWorker, Filed;
    forall ids, j, b | Safe(s, ids, j, b) ensures Safe(NextWorker(s, step), ids, j, b) {
      PersistedOnly(s, step, j);
    }
  }

  lemma WorkerWorkerStep(s: State, step: Step, w: nat)
    requires Inv(s) && !ShardStep(step) && Enabled(s, step) && w in NextWorker(s, step).workers
    ensures WorkerOk(NextWorker(s, step), NextWorker(s, step).workers[w])
  {
    hide Safe, LogOk, Placed, LogCovered, ChunksOwned;
    var s' := NextWorker(s, step);
    SafeWorkerStep(s, step);
    if w in s.workers {
      assert WorkerOk(s, s.workers[w]);
    }
    if step.worker in s.workers {
      assert WorkerOk(s, s.workers[step.worker]);
    }
    if step.LoadWatermark? {
      assert ShardOk(s, |s.workers[step.worker].loaded|);
    }
  }

  lemma ShardAfterShardStep(s: State, step: Step, j: nat)
    requires Inv(s) && ShardStep(step) && Enabled(s, step) && Guarded(s, step) && j < |s.shards|
    ensures var s' := NextShard(s, step); |s'.shards| == |s.shards| && ShardOk(s', j)
  {
    assert ShardOk(s, j) && ShardOk(s, step.shard);
    if j == step.shard {
      LogOkStep(j, s.shards[j], step);
    }
    PlacedStep(s, step, j);
    BoundsShardStep(s, step, j);
    LogCoveredShardStep(s, step, j);
  }

  lemma ShardAfterWorkerStep(s: State, step: Step, j: nat)
    requires Inv(s) && !ShardStep(step) && Enabled(s, step) && j < |s.shards|
    ensures var s' := NextWorker(s, step);
      |s'.shards| == |s'.disk.watermarks| == |s.shards| && ShardOk(s', j)
  {
    hide LogOk, Placed, BoundsOk, LogCovered, WorkerOk, ChunksOwned;
    assert ShardOk(s, j);
    BoundsWorkerStep(s, step, j);
    LogCoveredWorkerStep(s, step, j);
    PersistedOnly(s, step, j);
    StillPlaced(s.chunks, s.index, j, s.shards[j], NextWorker(s, step).shards[j]);
  }

  /** A snapshot worker changes nothing of a shard but its persisted watermark. */
  lemma PersistedOnly(s: State, step: Step, j: nat)
    requires !ShardStep(step) && Enabled(s, step) && j < |s.shards|
    ensures var s' := NextWorker(s, step);
      && s'.chunks == s.chunks && s'.index == s.index && |s'.shards| == |s.shards|
      && s'.shards[j] == s.shards[j].(persisted := s'.shards[j].persisted)
  {
  }

  lemma StillPlaced(chunks: map<ChunkId, seq<Entry>>, index: set<ChunkId>, j: nat, h: Shard, h': Shard)
    requires LogOk(j, h) && Placed(chunks, index, h) && h' == h.(persisted := h'.persisted)
    ensures LogOk(j, h') && Placed(chunks, index, h')
  {
  }

  lemma FrameStep(s: State, step: Step)
    requires Inv(s) && Enabled(s, step)
    ensures Frame(Next(s, step))
  {
    if ShardStep(step) {
      assert ShardOk(s, step.shard);
      ChunksOwnedStep(s, step);
    } else if step.worker in s.workers {
      assert WorkerOk(s, s.workers[step.worker]);
    }
  }

  /** Every guarded step keeps the invariant. */
  lemma InvStep(s: State, step: Step)
    requires Inv(s) && Enabled(s, step) && Guarded(s, step)
    ensures Inv(Next(s, step))
  {
    var s' := Next(s, step);
    FrameStep(s, step);
    forall j | 0 <= j < |s'.shards| ensures ShardOk(s', j) {
      if ShardStep(step) {
        ShardAfterShardStep(s, step, j);
      } else {
        ShardAfterWorkerStep(s, step, j);
      }
    }
    forall w | w in s'.workers ensures WorkerOk(s', s'.workers[w]) {
      if ShardStep(step) {
        WorkerShardStep(s, step, w);
      } else {
        WorkerWorkerStep(s, step, w);
      }
    }
  }
}
