/** Runs of the durability protocol on segment files and chunk files. */
module DiskRuns {
  import opened Types
  import opened DiskLog
  import opened Catalog
  import P = Durability
  import I = DurabilityInvariant
  import D = DurabilityTheorems
  import F = WalFrames
  import W = WalSegments
  import R = WalRestart
  import C = ChunkWriter
  import T = ChunkRoundTrip
  import ChunkTables
  import Memtable

  /** Codecs, the shard of a series, the series in use, and the order a table is written in. */
  datatype World = World(
    codec: F.Codec,
    lib: C.Lib,
    route: SeriesKey -> nat,
    keys: set<SeriesKey>,
    rows: (ChunkId, Memtable.Table) -> seq<C.Row>)

  /** The protocol's state, the log of every shard, and the chunk files. */
  datatype Machine = Machine(state: P.State, logs: seq<Log>, files: map<ChunkId, seq<byte>>)

  datatype Action =
    | Commit(shard: nat, batches: seq<seq<DataPoint>>)
    | FailCommit(shard: nat, count: nat)  // nothing of the failed write is left in the file
    | Rotate(shard: nat)                  // the next file could be opened
    | DeleteFiles(shard: nat)
    | WriteFile(shard: nat, id: ChunkId)
    | Other(step: P.Step)

  function Start(n: nat): Machine {
    Machine(P.Init(n), seq(n, _ => Log(W.Fresh(), map[1 := []])), map[])
  }

  /** The points are of series in use that the shard is responsible for. */
  ghost predicate Belongs(w: World, j: nat, points: seq<DataPoint>) {
    forall p :: p in points ==> w.route(p.key) == j && p.key in w.keys
  }

  predicate TouchesFiles(step: P.Step) {
    step.Sync? || step.FailSync? || step.DeleteSegments? || step.WriteChunk?
  }

  /** The step of the protocol an action carries out; a rotation is none. */
  ghost function StepOf(m: Machine, a: Action): Option<P.Step> {
    match a
    case Commit(j, batches) => Some(P.Sync(j, batches))
    case FailCommit(j, count) => Some(P.FailSync(j, count))
    case Rotate(_) => None
    case DeleteFiles(j) =>
      if j < |m.logs| && j < |m.state.shards| && m.state.shards[j].flush.Collecting?
      then Some(P.DeleteSegments(j, Gone(m.logs[j].writer, m.state.shards[j].flush.bound)))
      else None
    case WriteFile(j, id) => Some(P.WriteChunk(j, id))
    case Other(step) => Some(step)
  }

  function RowsFor(w: World, id: ChunkId, batch: seq<P.Entry>): seq<C.Row> {
    w.rows(id, TableOf(batch))
  }

  /** What an action asks for: the protocol's guard, frames and chunks within the sizes of their formats. */
  ghost predicate Allowed(w: World, m: Machine, a: Action) {
    match a
    case Commit(j, batches) =>
      && P.Enabled(m.state, P.Sync(j, batches))
      && F.AllFit(w.codec, W.Numbered(m.state.shards[j].current, batches))
      && forall b :: b in batches ==> Belongs(w, j, b)
    case FailCommit(j, count) => P.Enabled(m.state, P.FailSync(j, count))
    case Rotate(j) => j < |m.state.shards|
    case DeleteFiles(j) => j < |m.state.shards| && m.state.shards[j].flush.Collecting?
    case WriteFile(j, id) =>
      && P.Enabled(m.state, P.WriteChunk(j, id))
      && T.RowsOk(w.lib, RowsFor(w, id, m.state.shards[j].flush.batch))
    case Other(step) => P.Enabled(m.state, step) && !TouchesFiles(step)
  }

  ghost function LogsAfter(w: World, m: Machine, a: Action): seq<Log>
    requires |m.logs| == |m.state.shards| && Allowed(w, m, a)
  {
    match a
    case Commit(j, batches) => m.logs[j := CommitLog(w.codec, m.logs[j], batches)]
    case FailCommit(j, count) => m.logs[j := FailLog(m.logs[j], count)]
    case Rotate(j) => m.logs[j := RotateLog(m.logs[j])]
    case DeleteFiles(j) => m.logs[j := DrainLog(m.logs[j], m.state.shards[j].flush.bound)]
    case _ => m.logs
  }

  ghost function FilesAfter(w: World, m: Machine, a: Action): map<ChunkId, seq<byte>>
    requires Allowed(w, m, a)
  {
    match a
    case WriteFile(j, id) => m.files[id := C.ChunkBytes(w.lib, id, RowsFor(w, id, m.state.shards[j].flush.batch))]
    case _ => m.files
  }

  function Moved(s: P.State, step: Option<P.Step>): P.State {
    if step.Some? && P.Enabled(s, step.value) then P.Next(s, step.value) else s
  }

  ghost function After(w: World, m: Machine, a: Action): Machine
    requires |m.logs| == |m.state.shards| && Allowed(w, m, a)
  {
    Machine(Moved(m.state, StepOf(m, a)), LogsAfter(w, m, a), FilesAfter(w, m, a))
  }

  // ----- What every action keeps -----

  ghost predicate ShardOk(w: World, j: nat, h: P.Shard, log: Log) {
    LogOk(w.codec, h, log) && forall e :: e in h.wal ==> Belongs(w, j, e.points)
  }

  ghost predicate FileOk(w: World, id: ChunkId, batch: seq<P.Entry>, file: seq<byte>) {
    T.RowsOk(w.lib, RowsFor(w, id, batch)) && file == C.ChunkBytes(w.lib, id, RowsFor(w, id, batch))
  }

  /** The files hold the logs and the chunks of the protocol. */
  ghost predicate OnDisk(w: World, m: Machine) {
    && |m.logs| == |m.state.shards|
    && (forall j :: 0 <= j < |m.logs| ==> ShardOk(w, j, m.state.shards[j], m.logs[j]))
    && (forall id :: id in m.state.chunks ==> id in m.files && FileOk(w, id, m.state.chunks[id], m.files[id]))
  }

  lemma FreshLog(c: F.Codec)
    ensures LogOk(c, P.FreshShard(), Log(W.Fresh(), map[1 := []]))
  {
    W.FreshOk();
    var files: W.Files := map[];
    assert W.Fresh().files == files[1 := []];
    NoEntries(files);
    assert F.Frames(c, []) == [];
  }

  lemma NoEntries(files: W.Files)
    requires files == map[]
    ensures R.Entries(files[1 := []]) == []
  {
    R.EntriesNew(files, 1, []);
  }

  lemma StartOnDisk(w: World, n: nat)
    ensures OnDisk(w, Start(n))
  {
    hide LogOk;
    FreshLog(w.codec);
  }

  lemma CommitKeeps(w: World, h: P.Shard, log: Log, j: nat, batches: seq<seq<DataPoint>>)
    requires ShardOk(w, j, h, log) && P.Ready(h, P.Sync(j, batches)) && F.AllFit(w.codec, W.Numbered(h.current, batches))
    requires forall b :: b in batches ==> Belongs(w, j, b)
    ensures ShardOk(w, j, P.AfterShard(h, P.Sync(j, batches)), CommitLog(w.codec, log, batches))
  {
    hide LogOk, F.AllFit, Belongs, CommitLog;
    SyncRefines(w.codec, h, log, j, batches);
    var es := P.Numbered(j, h.current, batches);
    forall e | e in h.wal + es ensures Belongs(w, j, e.points) {
      if e in es {
        var k :| 0 <= k < |es| && es[k] == e;
        assert e.points == batches[k];
      }
    }
  }

  /** A step that leaves the files alone leaves every shard's log and numbering alone. */
  lemma OtherKeeps(s: P.State, step: P.Step, j: nat)
    requires P.Enabled(s, step) && !TouchesFiles(step) && j < |s.shards|
    ensures P.Next(s, step).chunks == s.chunks && |P.Next(s, step).shards| == |s.shards|
    ensures P.Next(s, step).shards[j].wal == s.shards[j].wal && P.Next(s, step).shards[j].current == s.shards[j].current
  {
    if !P.ShardStep(step) {
      I.PersistedOnly(s, step, j);
      WorkerSame(s, step);
    }
  }

  lemma LogSame(w: World, j: nat, h: P.Shard, h': P.Shard, log: Log)
    requires ShardOk(w, j, h, log) && h'.wal == h.wal && h'.current == h.current
    ensures ShardOk(w, j, h', log)
  {
    hide Ascending, BytesOk, Belongs, W.WriterOk, R.Entries;
  }

  lemma DeleteKeeps(w: World, h: P.Shard, log: Log, j: nat)
    requires ShardOk(w, j, h, log) && h.flush.Collecting?
    ensures var step := P.DeleteSegments(j, Gone(log.writer, h.flush.bound));
      P.Ready(h, step) && ShardOk(w, j, P.AfterShard(h, step), DrainLog(log, h.flush.bound))
  {
    hide LogOk, Belongs, DrainLog, Gone;
    DrainRefines(w.codec, h, log, j);
  }

  lemma RotateKeeps(w: World, h: P.Shard, log: Log, j: nat)
    requires ShardOk(w, j, h, log)
    ensures ShardOk(w, j, h, RotateLog(log))
  {
    hide LogOk, Belongs, RotateLog;
    RotateRefines(w.codec, h, log);
  }

  lemma FailKeeps(w: World, h: P.Shard, log: Log, j: nat, count: nat)
    requires ShardOk(w, j, h, log) && P.Ready(h, P.FailSync(j, count))
    ensures ShardOk(w, j, P.AfterShard(h, P.FailSync(j, count)), FailLog(log, count))
  {
    hide LogOk, Belongs, FailLog;
    FailRefines(w.codec, h, log, j, count);
  }

  /** Every allowed action carries out its step of the protocol. */
  lemma ActionRefines(w: World, m: Machine, a: Action)
    requires OnDisk(w, m) && Allowed(w, m, a)
    ensures var step := StepOf(m, a);
      if step.None? then After(w, m, a).state == m.state
      else P.Enabled(m.state, step.value) && After(w, m, a).state == P.Next(m.state, step.value)
  {
    hide ShardOk, FileOk, Belongs, P.Next, Gone, LogsAfter, FilesAfter;
    if a.DeleteFiles? {
      DeleteKeeps(w, m.state.shards[a.shard], m.logs[a.shard], a.shard);
    }
  }

  lemma ShardKept(w: World, m: Machine, a: Action, j: nat)
    requires OnDisk(w, m) && Allowed(w, m, a) && j < |m.logs|
    ensures |After(w, m, a).logs| == |After(w, m, a).state.shards| == |m.logs|
    ensures ShardOk(w, j, After(w, m, a).state.shards[j], After(w, m, a).logs[j])
  {
    hide ShardOk, FileOk, Belongs, P.AfterShard, P.NextWorker, Gone, F.AllFit, T.RowsOk, CommitLog, FailLog, RotateLog, DrainLog, P.Ready, P.WorkerEnabled, FilesAfter;
    ActionRefines(w, m, a);
    var h, log := m.state.shards[j], m.logs[j];
    match a
    case Commit(i, batches) =>
      if i == j {
        CommitKeeps(w, h, log, j, batches);
      }
    case FailCommit(i, count) =>
      if i == j {
        FailKeeps(w, h, log, j, count);
      }
    case Rotate(i) =>
      if i == j {
        RotateKeeps(w, h, log, j);
      }
    case DeleteFiles(i) =>
      if i == j {
        DeleteKeeps(w, h, log, j);
      }
    case WriteFile(i, id) =>
      WriteSame(m.state, i, id, j);
      LogSame(w, j, h, P.Next(m.state, P.WriteChunk(i, id)).shards[j], log);
    case Other(step) =>
      OtherKeeps(m.state, step, j);
      LogSame(w, j, h, P.Next(m.state, step).shards[j], log);
  }

  lemma WriteSame(s: P.State, i: nat, id: ChunkId, j: nat)
    requires P.Enabled(s, P.WriteChunk(i, id)) && j < |s.shards|
    ensures var s' := P.Next(s, P.WriteChunk(i, id));
      && s'.chunks == s.chunks[id := s.shards[i].flush.batch] && |s'.shards| == |s.shards|
      && s'.shards[j].wal == s.shards[j].wal && s'.shards[j].current == s.shards[j].current
  {
  }

  lemma FilesKept(w: World, m: Machine, a: Action)
    requires OnDisk(w, m) && Allowed(w, m, a)
    ensures var m' := After(w, m, a);
      forall id :: id in m'.state.chunks ==> id in m'.files && FileOk(w, id, m'.state.chunks[id], m'.files[id])
  {
    hide ShardOk, Belongs, P.AfterShard, Gone, F.AllFit, T.RowsOk, C.ChunkBytes, RowsFor, LogsAfter, P.Ready, P.WorkerEnabled;
    ActionRefines(w, m, a);
    match a
    case WriteFile(i, id) => WriteSame(m.state, i, id, i);
    case Other(step) =>
      if |m.state.shards| > 0 {
        OtherKeeps(m.state, step, 0);
      } else {
        WorkerSame(m.state, step);
      }
    case _ =>
  }

  /** The files stay the protocol's logs and chunks. */
  lemma ActionKeeps(w: World, m: Machine, a: Action)
    requires OnDisk(w, m) && Allowed(w, m, a)
    ensures OnDisk(w, After(w, m, a))
  {
    hide ShardOk, FileOk, After, Allowed;
    FilesKept(w, m, a);
    ShardCount(w, m, a);
    forall j | 0 <= j < |After(w, m, a).logs| ensures ShardOk(w, j, After(w, m, a).state.shards[j], After(w, m, a).logs[j]) {
      ShardKept(w, m, a, j);
    }
  }

  lemma ShardCount(w: World, m: Machine, a: Action)
    requires OnDisk(w, m) && Allowed(w, m, a)
    ensures |After(w, m, a).logs| == |After(w, m, a).state.shards| == |m.logs|
  {
    hide ShardOk, FileOk, Belongs, P.AfterShard, Gone, F.AllFit, T.RowsOk, P.Ready, P.WorkerEnabled;
    ActionRefines(w, m, a);
    if a.Other? && !P.ShardStep(a.step) {
      WorkerSame(m.state, a.step);
    }
  }

  // ----- Runs -----

  ghost predicate Performs(w: World, m: Machine, actions: seq<Action>)
    decreases |actions|
  {
    |m.logs| == |m.state.shards| &&
    (actions == [] || (Allowed(w, m, actions[0]) && Performs(w, After(w, m, actions[0]), actions[1..])))
  }

  ghost function EndOf(w: World, m: Machine, actions: seq<Action>): Machine
    requires Performs(w, m, actions)
    decreases |actions|
  {
    if actions == [] then m else EndOf(w, After(w, m, actions[0]), actions[1..])
  }

  /** The run of the protocol that a run on files carries out. */
  ghost function StepsOf(w: World, m: Machine, actions: seq<Action>): seq<P.Step>
    requires Performs(w, m, actions)
    decreases |actions|
  {
    if actions == [] then []
    else
      var rest := StepsOf(w, After(w, m, actions[0]), actions[1..]);
      if StepOf(m, actions[0]).Some? then [StepOf(m, actions[0]).value] + rest else rest
  }

  /** Every run on files is a run of the protocol, and at its end the files hold the protocol's logs and chunks. */
  lemma {:induction false} RunRefines(w: World, m: Machine, actions: seq<Action>)
    requires OnDisk(w, m) && Performs(w, m, actions)
    ensures OnDisk(w, EndOf(w, m, actions))
    ensures D.Valid(m.state, StepsOf(w, m, actions)) && D.Exec(m.state, StepsOf(w, m, actions)) == EndOf(w, m, actions).state
    decreases |actions|
  {
    hide OnDisk, Allowed, P.Next, P.Enabled, After, StepOf;
    if actions != [] {
      var a := actions[0];
      ActionRefines(w, m, a);
      ActionKeeps(w, m, a);
      RunRefines(w, After(w, m, a), actions[1..]);
      if StepOf(m, a).Some? {
        ConsRun(m.state, StepOf(m, a).value, StepsOf(w, After(w, m, a), actions[1..]));
      }
    }
  }

  lemma ConsRun(s: P.State, step: P.Step, steps: seq<P.Step>)
    requires P.Enabled(s, step) && D.Valid(P.Next(s, step), steps)
    ensures D.Valid(s, [step] + steps) && D.Exec(s, [step] + steps) == D.Exec(P.Next(s, step), steps)
  {
    assert ([step] + steps)[1..] == steps;
  }
}
