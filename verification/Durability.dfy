/**
  The durability protocol as a transition system.

  Every atomic action of the server is one step: the group commit of a shard's
  write-ahead log, the memtable insert of a committed batch, the phases of the
  memtable sweep, and the phases of any number of overlapping snapshot workers.
  A crash may happen between any two steps.
*/
module Durability {
  import opened Types

  /** One log frame: the points of one append that belong to one shard. */
  datatype Entry = Entry(shard: nat, seqno: nat, points: seq<DataPoint>)

  /** The sweep of one shard. */
  datatype Flush =
    | Idle
    | Drained(batch: seq<Entry>)  // taken out of the memtable, shard lock released
    | Written(chunk: ChunkId)     // chunk file synced, not yet in the index
    | Registered                  // in the index, write lock released
    | SeqRead(upTo: nat)          // last committed sequence loaded, not yet stored
    | Published                   // live watermark stored
    | Collecting(bound: nat)      // persisted watermark loaded, deleting segments

  datatype Shard = Shard(
    current: nat,               // highest sequence number handed out
    last: nat,                  // published last committed sequence
    history: set<Entry>,        // every entry ever synced
    wal: seq<Entry>,            // entries still on disk, in log order
    unpublished: seq<Entry>,    // synced, last committed sequence not yet stored
    inflight: set<Entry>,       // acknowledged by the log task, not yet inserted
    mem: seq<Entry>,            // memtable, in insertion order
    dropped: set<Entry>,        // lost by a failed chunk write
    abandoned: set<Entry>,      // append failed or was cancelled after the sync
    flush: Flush,
    watermark: nat,
    persisted: nat)

  datatype Snapshot = Snapshot(index: set<ChunkId>, watermarks: seq<nat>)

  /** A snapshot worker; a worker that is not running is absent from the state. */
  datatype Worker =
    | Loading(loaded: seq<nat>)               // loading shard watermarks one by one
    | Reading(loaded: seq<nat>)               // index read lock held
    | TmpWritten(loaded: seq<nat>)            // temporary file written
    | Renamed(loaded: seq<nat>, stored: nat)  // snapshot on disk, storing persisted watermarks

  datatype State = State(
    shards: seq<Shard>,
    chunks: map<ChunkId, seq<Entry>>,  // chunk files on disk
    index: set<ChunkId>,               // chunks named by the in-memory index
    tmp: Option<Snapshot>,
    disk: Snapshot,                    // snapshot on disk; an absent file reads as the empty one
    workers: map<nat, Worker>)

  datatype Step =
    | Sync(shard: nat, batches: seq<seq<DataPoint>>)
    | FailSync(shard: nat, count: nat)
    | PublishSeq(shard: nat)
    | Insert(shard: nat, entry: Entry)
    | Abandon(shard: nat, entry: Entry)
    | Drain(shard: nat)
    | FailFlush(shard: nat)
    | WriteChunk(shard: nat, id: ChunkId)
    | Register(shard: nat)
    | ReadSeq(shard: nat)
    | StoreWatermark(shard: nat)
    | LoadBound(shard: nat)
    | DeleteSegments(shard: nat, gone: set<nat>)
    | EndSweep(shard: nat)
    | StartSnapshot(worker: nat)
    | LoadWatermark(worker: nat)
    | LockIndex(worker: nat)
    | WriteTmp(worker: nat)
    | Rename(worker: nat)
    | StorePersisted(worker: nat)
    | Unlock(worker: nat)
    | AbortSnapshot(worker: nat)

  function Zeros(n: nat): (z: seq<nat>)
    ensures |z| == n && forall j :: 0 <= j < n ==> z[j] == 0
  {
    seq(n, _ => 0)
  }

  function FreshShard(): Shard {
    Shard(0, 0, {}, [], [], {}, [], {}, {}, Idle, 0, 0)
  }

  function Init(n: nat): State {
    State(seq(n, _ => FreshShard()), map[], {}, None, Snapshot({}, Zeros(n)), map[])
  }

  predicate HoldsLock(w: Worker) {
    !w.Loading?
  }

  predicate IndexLocked(s: State) {
    exists w :: w in s.workers && HoldsLock(s.workers[w])
  }

  /** Numbers a group commit: the batches get the sequences after `current`, in order. */
  function Numbered(shard: nat, current: nat, batches: seq<seq<DataPoint>>): (es: seq<Entry>)
    ensures |es| == |batches|
    ensures forall k :: 0 <= k < |es| ==> es[k] == Entry(shard, current + 1 + k, batches[k])
  {
    seq(|batches|, k requires 0 <= k < |batches| => Entry(shard, current + 1 + k, batches[k]))
  }

  function Elems(es: seq<Entry>): set<Entry> {
    set e | e in es
  }

  function Without(log: seq<Entry>, gone: set<nat>): (kept: seq<Entry>)
    ensures forall e :: e in kept <==> e in log && e.seqno !in gone
  {
    if log == [] then []
    else if log[0].seqno in gone then Without(log[1..], gone)
    else [log[0]] + Without(log[1..], gone)
  }

  predicate ShardStep(step: Step) {
    !(step.StartSnapshot? || step.LoadWatermark? || step.LockIndex? || step.WriteTmp? || step.Rename?
      || step.StorePersisted? || step.Unlock? || step.AbortSnapshot?)
  }

  predicate Enabled(s: State, step: Step) {
    if ShardStep(step) then
      && step.shard < |s.shards|
      && Ready(s.shards[step.shard], step)
      && (step.WriteChunk? ==> step.id !in s.chunks)
      && (step.Register? ==> !IndexLocked(s))
    else if step.StartSnapshot? then
      step.worker !in s.workers
    else
      step.worker in s.workers && WorkerEnabled(s, step, s.workers[step.worker])
  }

  /** What a step asks of the shard it acts on. */
  predicate Ready(h: Shard, step: Step)
    requires ShardStep(step)
  {
    match step
    case Sync(_, batches) => h.unpublished == [] && batches != []
    case FailSync(_, _) => h.unpublished == []
    case PublishSeq(_) => h.unpublished != []
    case Insert(_, e) => e in h.inflight
    case Abandon(_, e) => e in h.inflight
    case Drain(_) => h.flush.Idle?
    case FailFlush(_) => h.flush.Drained?
    case WriteChunk(_, _) => h.flush.Drained?
    case Register(_) => h.flush.Written?
    case ReadSeq(_) => h.flush.Registered?
    case StoreWatermark(_) => h.flush.SeqRead?
    case LoadBound(_) => h.flush.Published?
    case DeleteSegments(_, gone) => h.flush.Collecting? && forall q :: q in gone ==> q <= h.flush.bound
    case EndSweep(_) => h.flush.Collecting?
  }

  predicate WorkerEnabled(s: State, step: Step, w: Worker)
    requires !ShardStep(step) && !step.StartSnapshot?
  {
    match step
    case LoadWatermark(_) => w.Loading? && |w.loaded| < |s.shards|
    case LockIndex(_) => w.Loading? && |w.loaded| == |s.shards|
    case WriteTmp(_) => w.Reading?
    case Rename(_) => w.TmpWritten? && s.tmp.Some?
    case StorePersisted(_) => w.Renamed? && w.stored < |s.shards| && w.stored < |w.loaded|
    case Unlock(_) => w.Renamed? && w.stored == |s.shards|
    case AbortSnapshot(_) => true
  }

  function Next(s: State, step: Step): State
    requires Enabled(s, step)
  {
    if ShardStep(step) then NextShard(s, step) else NextWorker(s, step)
  }

  function NextShard(s: State, step: Step): State
    requires ShardStep(step) && Enabled(s, step)
  {
    var h := s.shards[step.shard];
    s.(shards := s.shards[step.shard := AfterShard(h, step)],
       chunks := if step.WriteChunk? then s.chunks[step.id := h.flush.batch] else s.chunks,
       index := if step.Register? then s.index + {h.flush.chunk} else s.index)
  }

  function AfterShard(h: Shard, step: Step): Shard
    requires ShardStep(step) && Ready(h, step)
  {
    match step
    case Sync(i, batches) =>
      var es := Numbered(i, h.current, batches);
      h.(current := h.current + |batches|, history := h.history + Elems(es), wal := h.wal + es, unpublished := es)
    case FailSync(_, count) => h.(current := h.current + count)
    case PublishSeq(_) =>
      h.(last := h.unpublished[|h.unpublished| - 1].seqno,
         inflight := h.inflight + Elems(h.unpublished),
         unpublished := [])
    case Insert(_, e) => h.(inflight := h.inflight - {e}, mem := h.mem + [e])
    case Abandon(_, e) => h.(inflight := h.inflight - {e}, abandoned := h.abandoned + {e})
    case Drain(_) => h.(mem := [], flush := Drained(h.mem))
    case FailFlush(_) => h.(dropped := h.dropped + Elems(h.flush.batch), flush := Idle)
    case WriteChunk(_, id) => h.(flush := Written(id))
    case Register(_) => h.(flush := Registered)
    case ReadSeq(_) => h.(flush := SeqRead(h.last))
    case StoreWatermark(_) => h.(flush := Published, watermark := h.flush.upTo)
    case LoadBound(_) => h.(flush := Collecting(h.persisted))
    case DeleteSegments(_, gone) => h.(wal := Without(h.wal, gone))
    case EndSweep(_) => h.(flush := Idle)
  }

  function NextWorker(s: State, step: Step): State
    requires !ShardStep(step) && Enabled(s, step)
  {
    var k := step.worker;
    match step
    case StartSnapshot(_) =>
      s.(workers := s.workers[k := Loading([])])
    case LoadWatermark(_) =>
      var loaded := s.workers[k].loaded;
      s.(workers := s.workers[k := Loading(loaded + [s.shards[|loaded|].watermark])])
    case LockIndex(_) =>
      s.(workers := s.workers[k := Reading(s.workers[k].loaded)])
    case WriteTmp(_) =>
      s.(workers := s.workers[k := TmpWritten(s.workers[k].loaded)],
         tmp := Some(Snapshot(s.index, s.workers[k].loaded)))
    case Rename(_) =>
      s.(workers := s.workers[k := Renamed(s.workers[k].loaded, 0)], disk := s.tmp.value, tmp := None)
    case StorePersisted(_) =>
      var w := s.workers[k];
      s.(workers := s.workers[k := Renamed(w.loaded, w.stored + 1)],
         shards := s.shards[w.stored := s.shards[w.stored].(persisted := w.loaded[w.stored])])
    case Unlock(_) =>
      s.(workers := s.workers - {k})
    case AbortSnapshot(_) =>
      s.(workers := s.workers - {k})
  }
}
