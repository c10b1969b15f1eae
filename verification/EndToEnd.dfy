/** The layers put together: what a restart reads from the bytes that a crash leaves on disk. */
module EndToEnd {
  import opened Types
  import opened ChunkIndex
  import opened Compaction
  import opened ChunkStore
  import opened Catalog
  import opened Opening
  import opened DiskLog
  import opened DiskRuns
  import P = Durability
  import I = DurabilityInvariant
  import D = DurabilityTheorems
  import F = WalFrames
  import W = WalSegments
  import L = WalRestart
  import B = WalDirectory
  import C = ChunkWriter
  import R = ChunkReader
  import T = ChunkRoundTrip
  import S = IndexPersistence
  import ChunkTables
  import Memtable
  import Pruning

  // ----- The log of a shard after a crash -----

  /** The open file goes on with frames that were written but never synced, cut off at any byte. */
  ghost predicate TornTail(w: World, j: nat, front: seq<byte>, unsynced: seq<F.LogEntry>, cut: nat, buf: seq<byte>) {
    && F.AllFit(w.codec, unsynced) && cut <= |F.Frames(w.codec, unsynced)|
    && buf == front + F.Frames(w.codec, unsynced)[..cut]
    && forall e :: e in unsynced ==> Belongs(w, j, e.points)
  }

  ghost predicate CrashLog(w: World, j: nat, log: Log, dir: B.Directory) {
    && dir.Keys == log.dir.Keys && log.writer.handle in dir
    && (forall n :: n in dir && n != log.writer.handle ==> dir[n] == log.dir[n])
    && exists unsynced, cut :: TornTail(w, j, log.dir[log.writer.handle], unsynced, cut, dir[log.writer.handle])
  }

  lemma TornIsOpen(w: World, j: nat, es: seq<F.LogEntry>, unsynced: seq<F.LogEntry>, cut: nat, buf: seq<byte>)
    requires F.AllFit(w.codec, es) && TornTail(w, j, F.Frames(w.codec, es), unsynced, cut, buf)
    ensures B.OpenSegment(w.codec, es, unsynced, |F.Frames(w.codec, es)| + cut, buf)
  {
    hide F.Frames, Belongs;
    F.FramesConcat(w.codec, es, unsynced);
  }

  /** The directory reads as the writer's files, with some of the unsynced entries at the end. */
  lemma CrashLogDecodes(w: World, j: nat, log: Log, dir: B.Directory) returns (extra: seq<F.LogEntry>)
    requires F.Lawful(w.codec) && BytesOk(w.codec, log) && CrashLog(w, j, log, dir)
    ensures log.writer.handle in log.writer.files
    ensures B.Decodes(w.codec, dir, log.writer.files[log.writer.handle := log.writer.files[log.writer.handle] + extra])
    ensures forall e :: e in extra ==> Belongs(w, j, e.points)
  {
    hide F.Lawful, F.Frames, F.AllFit, B.Reads, B.OpenSegment, Belongs;
    var h := log.writer.handle;
    var es := log.writer.files[h];
    var unsynced, cut :| TornTail(w, j, log.dir[h], unsynced, cut, dir[h]);
    TornIsOpen(w, j, es, unsynced, cut, dir[h]);
    extra := B.OpenSegmentReads(w.codec, es, unsynced, |F.Frames(w.codec, es)| + cut, dir[h]);
    forall n | n in dir && n != h ensures B.Reads(w.codec, dir[n], log.writer.files[n]) {
      B.WholeReads(w.codec, log.writer.files[n]);
    }
  }

  /** Replaying the directory gives the protocol's log above the watermark, in order, and perhaps unsynced entries after it. */
  lemma CrashLogReplays(w: World, j: nat, h: P.Shard, log: Log, dir: B.Directory, watermark: nat) returns (extra: seq<F.LogEntry>)
    requires F.Lawful(w.codec) && ShardOk(w, j, h, log) && CrashLog(w, j, log, dir)
    ensures ReplayOf(w, dir, watermark) == Some(F.PointsOf(F.Above(LoggedAll(h.wal) + extra, watermark)))
    ensures forall e :: e in extra ==> Belongs(w, j, e.points)
  {
    hide F.Lawful, W.WriterOk, BytesOk, CrashLog, Belongs, F.RecoverFrom, F.Above, F.PointsOf, F.Highest, Ascending, B.Decodes, B.Buffers;
    var wr := log.writer;
    OpenIsHighest(wr);
    extra := CrashLogDecodes(w, j, log, dir);
    EntriesWrote(wr.files, wr.handle, extra);
    var torn := B.RecoverDirectory(w.codec, dir, wr.files[wr.handle := wr.files[wr.handle] + extra], watermark);
  }

  /** The points recovery returns from a log directory. */
  function ReplayOf(w: World, dir: B.Directory, watermark: nat): Option<seq<DataPoint>> {
    var r := F.RecoverFrom(w.codec, F.EmptyRecovery(), B.Buffers(dir), watermark);
    if r.Some? then Some(r.value.points) else None
  }

  // ----- The recovery chunks -----

  function TableFrom(w: World, dir: B.Directory, watermark: nat): Memtable.Table {
    var r := ReplayOf(w, dir, watermark);
    if r.Some? then Memtable.InsertedAll(map[], r.value) else map[]
  }

  /** Shard by shard, the table of what was replayed, and the id its chunk gets. */
  function RecoveredFrom(w: World, dirs: seq<B.Directory>, watermarks: seq<nat>, ids: seq<ChunkId>): (recs: seq<Recovered>)
    requires |dirs| == |ids| == |watermarks|
    ensures |recs| == |dirs|
    ensures forall j :: 0 <= j < |dirs| ==> recs[j] == Recovered(ids[j], TableFrom(w, dirs[j], watermarks[j]))
  {
    seq(|dirs|, j requires 0 <= j < |dirs| => Recovered(ids[j], TableFrom(w, dirs[j], watermarks[j])))
  }

  /** A slot of a point is in the table of the points. */
  lemma TableHasSlot(points: seq<DataPoint>, p: DataPoint)
    requires p in points
    ensures HasSlot(Memtable.InsertedAll(map[], points), p.key, p.ts)
  {
    hide Memtable.InsertedAll, Memtable.Holds;
    Memtable.TableIsLastWriteWins(points);
    Memtable.LatestFrom(points, SlotOf(p));
  }

  lemma {:induction false} PointsFrom(es: seq<F.LogEntry>, p: DataPoint)
    requires p in F.PointsOf(es)
    ensures exists e :: e in es && p in e.points
  {
    if p !in es[0].points {
      PointsFrom(es[1..], p);
      var e :| e in es[1..] && p in e.points;
      assert e in es;
    }
  }

  /** Every series of the table of a log belongs to the shard. */
  lemma TableBelongs(w: World, j: nat, es: seq<F.LogEntry>, watermark: nat, key: SeriesKey)
    requires (forall e :: e in es ==> Belongs(w, j, e.points)) && key in Memtable.InsertedAll(map[], F.PointsOf(F.Above(es, watermark)))
    ensures w.route(key) == j && key in w.keys
  {
    hide Memtable.InsertedAll, F.PointsOf, F.Above, Memtable.Sorted;
    var points := F.PointsOf(F.Above(es, watermark));
    Memtable.TableIsLastWriteWins(points);
    var t := Memtable.InsertedAll(map[], points);
    var (ts, v) := t[key][0];
    assert Memtable.Holds(t, key, ts, v);
    Memtable.LatestFrom(points, (key, ts));
    var p :| p in points && SlotOf(p) == (key, ts);
    PointsFrom(F.Above(es, watermark), p);
    var e :| e in F.Above(es, watermark) && p in e.points;
    L.AboveIsAbove(es, watermark);
  }

  /** A recovery chunk has every slot the protocol replays, and only series of its shard. */
  lemma RecoveredShard(w: World, j: nat, h: P.Shard, log: Log, dir: B.Directory, watermark: nat)
    requires F.Lawful(w.codec) && ShardOk(w, j, h, log) && CrashLog(w, j, log, dir)
    ensures Memtable.TableOk(TableFrom(w, dir, watermark))
    ensures forall k :: k in TableFrom(w, dir, watermark) ==> w.route(k) == j && k in w.keys
    ensures forall e, p :: e in D.Replay(h.wal, watermark) && p in e.points ==>
              HasSlot(TableFrom(w, dir, watermark), p.key, p.ts)
  {
    hide F.Lawful, LogOk, CrashLog, ReplayOf, Belongs, F.PointsOf, F.Above, Memtable.InsertedAll, Memtable.TableOk, D.Replay, HasSlot;
    var extra := CrashLogReplays(w, j, h, log, dir, watermark);
    var es := LoggedAll(h.wal) + extra;
    var points := F.PointsOf(F.Above(es, watermark));
    Memtable.TableIsLastWriteWins(points);
    EntriesBelong(w, j, h.wal, extra);
    forall k | k in TableFrom(w, dir, watermark) ensures w.route(k) == j && k in w.keys {
      TableBelongs(w, j, es, watermark, k);
    }
    forall e, p | e in D.Replay(h.wal, watermark) && p in e.points
      ensures HasSlot(TableFrom(w, dir, watermark), p.key, p.ts)
    {
      var i :| 0 <= i < |h.wal| && h.wal[i] == e;
      assert es[i] == Logged(e);
      B.AboveHas(es, watermark, Logged(e));
      B.PointsHave(F.Above(es, watermark), Logged(e), p);
      TableHasSlot(points, p);
    }
  }

  lemma EntriesBelong(w: World, j: nat, log: seq<P.Entry>, extra: seq<F.LogEntry>)
    requires (forall e :: e in log ==> Belongs(w, j, e.points)) && forall e :: e in extra ==> Belongs(w, j, e.points)
    ensures forall e :: e in LoggedAll(log) + extra ==> Belongs(w, j, e.points)
  {
    hide Belongs;
    forall e | e in LoggedAll(log) ensures Belongs(w, j, e.points) {
      var i :| 0 <= i < |log| && LoggedAll(log)[i] == e;
      assert log[i] in log;
    }
  }

  /** The directories a crash leaves, one for each shard. */
  ghost predicate CrashLogs(w: World, m: Machine, dirs: seq<B.Directory>) {
    |dirs| == |m.logs| && forall j :: 0 <= j < |dirs| ==> CrashLog(w, j, m.logs[j], dirs[j])
  }

  /** Recovery chunks get ids that no chunk has. */
  ghost predicate NewIds(ids: seq<ChunkId>, used: set<ChunkId>) {
    (forall i :: 0 <= i < |ids| ==> ids[i] !in used) && forall i, j :: 0 <= i < j < |ids| ==> ids[i] != ids[j]
  }

  /** What the restart replays is what the theorems about opening ask for. */
  lemma RecoveredOk(w: World, m: Machine, dirs: seq<B.Directory>, ids: seq<ChunkId>, st: Store)
    requires F.Lawful(w.codec) && OnDisk(w, m) && CrashLogs(w, m, dirs) && |ids| == |dirs| == |m.state.disk.watermarks|
    requires NewIds(ids, st.disk.Keys)
    ensures Rebuilds(m.state, RecoveredFrom(w, dirs, m.state.disk.watermarks, ids))
    ensures RecsOk(st, w.keys, RecoveredFrom(w, dirs, m.state.disk.watermarks, ids))
  {
    hide F.Lawful, ShardOk, CrashLog, FileOk, TableFrom, Memtable.TableOk, HasSlot, D.Replay;
    var s, recs := m.state, RecoveredFrom(w, dirs, m.state.disk.watermarks, ids);
    forall j | 0 <= j < |recs|
      ensures Memtable.TableOk(recs[j].table) && forall k :: k in recs[j].table ==> w.route(k) == j && k in w.keys
      ensures forall e, p :: e in D.Replay(s.shards[j].wal, s.disk.watermarks[j]) && p in e.points ==>
                HasSlot(recs[j].table, p.key, p.ts)
    {
      RecoveredShard(w, j, s.shards[j], m.logs[j], dirs[j], s.disk.watermarks[j]);
    }
  }

  // ----- The chunk files -----

  /** What the chunk writer reports of a table written in the world's row order. */
  function WriterReporter(w: World, hash: Hash, stats: C.SeriesResult -> Pruning.Stats, meta: ChunkId -> Meta): Reporter {
    Reporter((id, t) => ChunkTables.Entries(hash, id, C.ResultsOf(C.EncodeRows(w.lib, w.rows(id, t))), stats), meta)
  }

  ghost predicate RowOrder(w: World) {
    forall id, t :: Memtable.TableOk(t) ==> ChunkTables.RowsOf(w.rows(id, t), t)
  }

  lemma WriterFaithful(w: World, hash: Hash, stats: C.SeriesResult -> Pruning.Stats, meta: ChunkId -> Meta)
    requires RowOrder(w)
    ensures Faithful(hash, WriterReporter(w, hash, stats, meta))
  {
    hide C.EncodeRows, ChunkTables.Entries, ChunkTables.RowsOf, Reports, Memtable.TableOk;
    forall id, t | Memtable.TableOk(t) ensures Reports(hash, WriterReporter(w, hash, stats, meta).report(id, t), id, t) {
      ChunkTables.WriterReports(w.lib, hash, id, w.rows(id, t), t, stats);
    }
  }

  ghost predicate FileIs(w: World, id: ChunkId, t: Memtable.Table, file: seq<byte>) {
    T.RowsOk(w.lib, w.rows(id, t)) && file == C.ChunkBytes(w.lib, id, w.rows(id, t))
  }

  /** The files after the recovery chunks are written. */
  function OpenedFiles(w: World, files: map<ChunkId, seq<byte>>, recs: seq<Recovered>): map<ChunkId, seq<byte>> {
    if recs == [] then files
    else
      var front, rec := OpenedFiles(w, files, recs[..|recs| - 1]), recs[|recs| - 1];
      if rec.table == map[] then front
      else front[rec.id := C.ChunkBytes(w.lib, rec.id, w.rows(rec.id, rec.table))]
  }

  ghost predicate FilesAre(w: World, files: map<ChunkId, seq<byte>>, tables: map<ChunkId, Memtable.Table>) {
    forall id :: id in tables ==> id in files && Memtable.TableOk(tables[id]) && FileIs(w, id, tables[id], files[id])
  }

  ghost predicate RecsFit(w: World, recs: seq<Recovered>) {
    forall i :: 0 <= i < |recs| ==> T.RowsOk(w.lib, w.rows(recs[i].id, recs[i].table))
  }

  lemma {:induction false} OpenedFilesAre(w: World, hash: Hash, r: Reporter, st: Store, files: map<ChunkId, seq<byte>>, recs: seq<Recovered>)
    requires FilesAre(w, files, st.disk) && RecsFit(w, recs) && forall i :: 0 <= i < |recs| ==> Memtable.TableOk(recs[i].table)
    ensures FilesAre(w, OpenedFiles(w, files, recs), Reopened(hash, r, st, recs).disk)
  {
    hide FilesAre, T.RowsOk, C.ChunkBytes, Memtable.TableOk, RegisterAll;
    if recs != [] {
      var n := |recs| - 1;
      assert forall i :: 0 <= i < n ==> recs[..n][i] == recs[i];
      OpenedFilesAre(w, hash, r, st, files, recs[..n]);
      OneFile(w, OpenedFiles(w, files, recs[..n]), Reopened(hash, r, st, recs[..n]).disk, recs[n]);
    }
  }

  lemma OneFile(w: World, files: map<ChunkId, seq<byte>>, tables: map<ChunkId, Memtable.Table>, rec: Recovered)
    requires FilesAre(w, files, tables) && T.RowsOk(w.lib, w.rows(rec.id, rec.table)) && Memtable.TableOk(rec.table)
    ensures FilesAre(w, files[rec.id := C.ChunkBytes(w.lib, rec.id, w.rows(rec.id, rec.table))], tables[rec.id := rec.table])
  {
    hide T.RowsOk, C.ChunkBytes, Memtable.TableOk;
  }

  /** Reading the slot from a chunk file returns the value. */
  ghost predicate ReadBack(lib: C.Lib, file: seq<byte>, key: SeriesKey, ts: i64, v: F64) {
    var r := ChunkTables.Streamed(R.ReadSeries(lib, file, key, ts, ts));
    r.Some? && DataPoint(key, ts, v) in r.value
  }

  lemma PointsForHas(key: SeriesKey, ps: Points, ts: i64, v: F64)
    ensures DataPoint(key, ts, v) in R.PointsFor(key, ps) <==> (ts, v) in ps
  {
    if (ts, v) in ps {
      var i :| 0 <= i < |ps| && ps[i] == (ts, v);
      assert R.PointsFor(key, ps)[i] == DataPoint(key, ts, v);
    }
  }

  /** A file gives back exactly the values of the table it was written from. */
  lemma ReadBackExact(w: World, id: ChunkId, t: Memtable.Table, file: seq<byte>, key: SeriesKey, ts: i64, v: F64)
    requires C.Lawful(w.lib) && RowOrder(w) && Memtable.TableOk(t) && FileIs(w, id, t, file) && T.Printable(key)
    ensures ReadBack(w.lib, file, key, ts, v) <==> Memtable.Holds(t, key, ts, v)
  {
    hide C.Lawful, T.RowsOk, ChunkTables.RowsOf, Memtable.TableOk, C.ChunkBytes, R.ReadSeries, T.Printable, ChunkTables.Streamed, InRange, R.PointsFor;
    ChunkTables.ReadsTable(w.lib, id, w.rows(id, t), t, key, ts, ts);
    PointsForHas(key, InRange(Memtable.Series(t, key), ts, ts), ts, v);
    InRangeExact(Memtable.Series(t, key), ts, ts);
  }

  // ----- Reading after a restart -----

  /** Some entry of the index leads to a file that has a value for the slot of the point. */
  ghost predicate Readable(hash: Hash, lib: C.Lib, x: Index, files: map<ChunkId, seq<byte>>, p: DataPoint) {
    exists t: i64, v: F64 :: ReadVia(hash, lib, x, files, p, t, v)
  }

  ghost predicate ReadVia(hash: Hash, lib: C.Lib, x: Index, files: map<ChunkId, seq<byte>>, p: DataPoint, t: i64, v: F64) {
    var e := TimeAt(x, hash(p.key), t);
    e.Some? && e.value.chunk in files && ReadBack(lib, files[e.value.chunk], p.key, p.ts, v)
  }

  /** What the bytes give is what the tables hold. */
  lemma ReadableExact(w: World, hash: Hash, st: Store, files: map<ChunkId, seq<byte>>, p: DataPoint)
    requires C.Lawful(w.lib) && RowOrder(w) && FilesAre(w, files, st.disk) && T.Printable(p.key)
    requires forall t: i64 :: TimeAt(st.index, hash(p.key), t).Some? ==> TimeAt(st.index, hash(p.key), t).value.chunk in st.disk
    ensures Readable(hash, w.lib, st.index, files, p) <==> exists v: F64 :: Visible(hash, st, p.key, p.ts, v)
  {
    hide C.Lawful, RowOrder, T.Printable, TimeAt, Memtable.Holds, Memtable.TableOk, ReadBack, FileIs, Visible;
    if t: i64, v: F64 :| ReadVia(hash, w.lib, st.index, files, p, t, v) {
      var c := TimeAt(st.index, hash(p.key), t).value.chunk;
      ReadBackExact(w, c, st.disk[c], files[c], p.key, p.ts, v);
      LeadsToVisible(hash, st, p, t, v);
    }
    if v: F64 :| Visible(hash, st, p.key, p.ts, v) {
      var t := VisibleVia(hash, st, p.key, p.ts, v);
      var c := TimeAt(st.index, hash(p.key), t).value.chunk;
      ReadBackExact(w, c, st.disk[c], files[c], p.key, p.ts, v);
      assert ReadVia(hash, w.lib, st.index, files, p, t, v);
    }
  }

  lemma LeadsToVisible(hash: Hash, st: Store, p: DataPoint, t: i64, v: F64)
    requires LedTo(hash, st, p.key, p.ts, v, t)
    ensures Visible(hash, st, p.key, p.ts, v)
  {
  }

  /** Every entry after opening leads to a chunk that is there. */
  lemma EntriesLead(hash: Hash, r: Reporter, st: Store, keys: set<SeriesKey>, recs: seq<Recovered>, id: SeriesId, t: i64)
    requires StoreOk(hash, st) && Faithful(hash, r) && RecsOk(st, keys, recs) && TimeAt(Reopened(hash, r, st, recs).index, id, t).Some?
    ensures TimeAt(Reopened(hash, r, st, recs).index, id, t).value.chunk in Reopened(hash, r, st, recs).disk
  {
    hide Faithful, StoreOk, RecsOk, Reopened, TimeAt, Starts;
    RecTablesOk(st, keys, recs);
    OpenedEntries(hash, r, st, recs, id, t);
    OpenedDisk(hash, r, st, recs, keys);
    EntryOwned(hash, st, id, t);
    if Displaces(hash, recs, id, t) {
      var x' := Reopened(hash, r, st, recs).index;
      var i :| 0 <= i < |recs| && Starts(hash, recs[i], id, t) && TimeAt(x', id, t).value.chunk == recs[i].id;
      EmptyStarts(hash, recs[i], id, t);
    }
  }

  lemma EntryOwned(hash: Hash, st: Store, id: SeriesId, t: i64)
    requires StoreOk(hash, st)
    ensures TimeAt(st.index, id, t).Some? ==> TimeAt(st.index, id, t).value.chunk in st.disk
  {
    assert Owned(st, id, t);
  }

  /** The codecs are lawful, rows come in some order, and the series in use have distinct hashes and print unambiguously. */
  ghost predicate LawfulWorld(w: World, hash: Hash) {
    && F.Lawful(w.codec) && C.Lawful(w.lib) && RowOrder(w) && Tells(hash, w.keys)
    && forall k :: k in w.keys ==> T.Printable(k)
  }

  /** A run on files whose protocol run is guarded and whose flushed series start where no entry of theirs does. */
  ghost predicate GoodRun(w: World, hash: Hash, r: Reporter, n: nat, actions: seq<Action>) {
    Performs(w, Start(n), actions) &&
    var steps := StepsOf(w, Start(n), actions);
    D.Valid(P.Init(n), steps) && D.GuardedRun(P.Init(n), steps) && FreeRun(hash, r, w.keys, P.Init(n), NOTHING, steps)
  }

  /** The index copied to disk by the last snapshot, and the tables of the chunks. */
  ghost function CopyOf(w: World, hash: Hash, r: Reporter, n: nat, actions: seq<Action>): Store
    requires GoodRun(w, hash, r, n, actions)
  {
    SnapshotStore(hash, r, n, StepsOf(w, Start(n), actions))
  }

  /** What is on disk after a crash: the snapshot file, the log directories and the chunk files. */
  datatype Remains = Remains(snapshot: S.Snapshot, dirs: seq<B.Directory>, files: map<ChunkId, seq<byte>>)

  /** The snapshot file saves the copied index with its watermarks, the logs are torn at any byte. */
  ghost predicate Crashed(w: World, hash: Hash, r: Reporter, n: nat, actions: seq<Action>, left: Remains)
    requires GoodRun(w, hash, r, n, actions)
  {
    var m := EndOf(w, Start(n), actions);
    && S.Saves(left.snapshot, CopyOf(w, hash, r, n, actions).index, m.state.disk.watermarks)
    && CrashLogs(w, m, left.dirs) && left.files == m.files
  }

  /** The recovery chunks of a restart from `left`, when the snapshot loads. */
  function Recovery(w: World, left: Remains, ids: seq<ChunkId>): seq<Recovered> {
    var loaded := S.Loaded(left.snapshot);
    if loaded.Some? && |loaded.value.1| == |left.dirs| == |ids| then RecoveredFrom(w, left.dirs, loaded.value.1, ids) else []
  }

  /** The new chunks have new ids and fit the format. */
  ghost predicate RecoveryFits(w: World, left: Remains, ids: seq<ChunkId>, used: set<ChunkId>) {
    |ids| == |left.dirs| && NewIds(ids, used) && RecsFit(w, Recovery(w, left, ids))
  }

  /** A crash after a run on files, and ids for the recovery chunks of the restart. */
  ghost predicate Restarting(w: World, hash: Hash, r: Reporter, n: nat, actions: seq<Action>, left: Remains, ids: seq<ChunkId>) {
    && LawfulWorld(w, hash) && GoodRun(w, hash, r, n, actions) && Crashed(w, hash, r, n, actions, left)
    && RecoveryFits(w, left, ids, CopyOf(w, hash, r, n, actions).disk.Keys)
  }

  /** What the restart's loading and replaying amount to. */
  lemma RestartReads(w: World, hash: Hash, r: Reporter, n: nat, actions: seq<Action>, left: Remains, ids: seq<ChunkId>)
    requires Restarting(w, hash, r, n, actions, left, ids) && Faithful(hash, r)
    ensures var s, st, recs := EndOf(w, Start(n), actions).state, CopyOf(w, hash, r, n, actions), Recovery(w, left, ids);
      && S.Loaded(left.snapshot) == Some((st.index, s.disk.watermarks))
      && StoreOk(hash, st) && FilesAre(w, left.files, st.disk)
      && Rebuilds(s, recs) && RecsOk(st, w.keys, recs)
    ensures EndOf(w, Start(n), actions).state == D.Exec(P.Init(n), StepsOf(w, Start(n), actions))
  {
    hide F.Lawful, C.Lawful, RowOrder, Tells, T.Printable, Faithful, D.Valid, D.GuardedRun, FreeRun, D.Exec, P.Init, Start, Performs, EndOf,
      StepsOf, ExecCat, StoreOk, FilesAre, Rebuilds, RecsOk, S.Loaded, S.Saves, CrashLogs, OnDisk, NewIds, RecsFit, Linked, I.Inv;
    var m, steps := EndOf(w, Start(n), actions), StepsOf(w, Start(n), actions);
    var c := ExecCat(hash, r, P.Init(n), NOTHING, steps);
    StartState(n);
    StartOnDisk(w, n);
    RunRefines(w, Start(n), actions);
    EndLinked(hash, r, w.keys, n, steps);
    LinkedStore(hash, w.keys, m.state, c);
    LinkedFiles(w, hash, m, c);
    StoreIndex(hash, Store(c.disk, c.tables));
    S.SnapshotRoundTrip(hash, left.snapshot, c.disk, m.state.disk.watermarks);
    LogCount(w, m, left.dirs);
    RecoveredOk(w, m, left.dirs, ids, Store(c.disk, c.tables));
  }

  lemma StartState(n: nat)
    ensures Start(n).state == P.Init(n)
  {
  }

  lemma StoreIndex(hash: Hash, st: Store)
    requires StoreOk(hash, st)
    ensures IndexOk(hash, st.index)
  {
  }

  lemma LogCount(w: World, m: Machine, dirs: seq<B.Directory>)
    requires OnDisk(w, m) && CrashLogs(w, m, dirs)
    ensures |dirs| == |m.state.shards|
  {
  }

  lemma EndLinked(hash: Hash, r: Reporter, keys: set<SeriesKey>, n: nat, steps: seq<P.Step>)
    requires Faithful(hash, r) && Tells(hash, keys)
    requires D.Valid(P.Init(n), steps) && D.GuardedRun(P.Init(n), steps) && FreeRun(hash, r, keys, P.Init(n), NOTHING, steps)
    ensures Linked(hash, keys, D.Exec(P.Init(n), steps), ExecCat(hash, r, P.Init(n), NOTHING, steps))
    ensures |D.Exec(P.Init(n), steps).disk.watermarks| == |D.Exec(P.Init(n), steps).shards|
  {
    hide Linked, Faithful, Tells, D.Valid, D.GuardedRun, FreeRun, D.Exec, ExecCat, P.Init;
    I.InitInv(n);
    InitLinked(hash, keys, n);
    RunLinked(hash, r, keys, P.Init(n), NOTHING, steps);
    D.RunInv(P.Init(n), steps);
  }

  /** The chunk files are those of the registered tables. */
  lemma LinkedFiles(w: World, hash: Hash, m: Machine, c: Cat)
    requires OnDisk(w, m) && Linked(hash, w.keys, m.state, c)
    ensures FilesAre(w, m.files, c.tables)
  {
    hide ShardOk, Covers, T.RowsOk, C.ChunkBytes, Memtable.TableOk, TableOf, Separate, Differ;
    forall id | id in c.tables ensures id in m.files && Memtable.TableOk(c.tables[id]) && FileIs(w, id, c.tables[id], m.files[id]) {
      TableOfOk(m.state.chunks[id]);
      assert FileOk(w, id, m.state.chunks[id], m.files[id]);
    }
  }

  /**
    The whole engine, in bytes. Any run of commits, rotations, sweeps and snapshots on files, then a crash at any
    moment that tears the open segments at any byte, then a restart that loads the snapshot file, replays the
    segment files and registers the recovery chunks: a slot of an acknowledged append can be read from the
    chunk files through the index if and only if it is not held only by chunks whose entries are displaced.
  */
  lemma AcknowledgedPointReadable(w: World, hash: Hash, stats: C.SeriesResult -> Pruning.Stats, meta: ChunkId -> Meta,
                                  n: nat, actions: seq<Action>, left: Remains, ids: seq<ChunkId>, p: DataPoint)
    requires Restarting(w, hash, WriterReporter(w, hash, stats, meta), n, actions, left, ids)
    requires p.key in w.keys && Acked(StepsOf(w, Start(n), actions), p)
    ensures var r, recs := WriterReporter(w, hash, stats, meta), Recovery(w, left, ids);
      var st := CopyOf(w, hash, r, n, actions);
      && (S.Loaded(left.snapshot).Some? && S.Loaded(left.snapshot).value.0 == st.index)
      && (Readable(hash, w.lib, Reopened(hash, r, st, recs).index, OpenedFiles(w, left.files, recs), p)
          <==> !OnlyDisplaced(hash, st, recs, SlotOf(p)))
  {
    hide F.Lawful, C.Lawful, RowOrder, Tells, T.Printable, Faithful, D.Valid, D.GuardedRun, FreeRun, D.Exec, P.Init, Start, Performs, EndOf, Crashed,
      StepsOf, StoreOk, FilesAre, Rebuilds, RecsOk, S.Loaded, RecoveryFits, Recovery, WriterReporter, Readable, OnlyDisplaced, SnapshotStore, Shows, Reopened;
    var r, steps := WriterReporter(w, hash, stats, meta), StepsOf(w, Start(n), actions);
    var st, recs := CopyOf(w, hash, r, n, actions), Recovery(w, left, ids);
    WriterFaithful(w, hash, stats, meta);
    RestartReads(w, hash, r, n, actions, left, ids);
    var k :| 0 <= k < |steps| && steps[k].Insert? && p in steps[k].entry.points;
    AckedVisibleExact(hash, r, w.keys, n, steps, recs, k, p);
    FitsRecs(w, left, ids, st.disk.Keys);
    OpenedReadable(w, hash, r, st, left.files, recs, p);
  }

  lemma FitsRecs(w: World, left: Remains, ids: seq<ChunkId>, used: set<ChunkId>)
    requires RecoveryFits(w, left, ids, used)
    ensures RecsFit(w, Recovery(w, left, ids))
  {
  }

  /** After opening, reading the bytes shows what the opened store shows. */
  lemma OpenedReadable(w: World, hash: Hash, r: Reporter, st: Store, files: map<ChunkId, seq<byte>>, recs: seq<Recovered>, p: DataPoint)
    requires LawfulWorld(w, hash) && Faithful(hash, r) && StoreOk(hash, st) && FilesAre(w, files, st.disk) && p.key in w.keys
    requires RecsOk(st, w.keys, recs) && RecsFit(w, recs)
    ensures Readable(hash, w.lib, Reopened(hash, r, st, recs).index, OpenedFiles(w, files, recs), p) <==> Shows(hash, r, st, recs, p)
  {
    hide F.Lawful, C.Lawful, RowOrder, Tells, T.Printable, Faithful, StoreOk, FilesAre, RecsOk, RecsFit, Readable, Reopened, OpenedFiles, TimeAt, Visible;
    var st' := Reopened(hash, r, st, recs);
    RecTablesOk(st, w.keys, recs);
    OpenedFilesAre(w, hash, r, st, files, recs);
    forall t: i64 | TimeAt(st'.index, hash(p.key), t).Some? ensures TimeAt(st'.index, hash(p.key), t).value.chunk in st'.disk {
      EntriesLead(hash, r, st, w.keys, recs, hash(p.key), t);
    }
    ReadableExact(w, hash, st', OpenedFiles(w, files, recs), p);
  }

  /** When no recovery chunk takes a start of the snapshot, every acknowledged slot is readable. */
  lemma AcknowledgedPointSafe(w: World, hash: Hash, stats: C.SeriesResult -> Pruning.Stats, meta: ChunkId -> Meta,
                              n: nat, actions: seq<Action>, left: Remains, ids: seq<ChunkId>, p: DataPoint)
    requires Restarting(w, hash, WriterReporter(w, hash, stats, meta), n, actions, left, ids)
    requires p.key in w.keys && Acked(StepsOf(w, Start(n), actions), p)
    requires OpensFree(hash, CopyOf(w, hash, WriterReporter(w, hash, stats, meta), n, actions), Recovery(w, left, ids))
    ensures var r, recs := WriterReporter(w, hash, stats, meta), Recovery(w, left, ids);
      var st := CopyOf(w, hash, r, n, actions);
      Readable(hash, w.lib, Reopened(hash, r, st, recs).index, OpenedFiles(w, left.files, recs), p)
  {
    hide LawfulWorld, D.Valid, D.GuardedRun, FreeRun, Performs, Acked, Crashed, RecoveryFits, WriterReporter, Readable, CopyOf, Recovery, Reopened, OpenedFiles,
      OnlyDisplaced, OpensFree, StepsOf, Start, P.Init;
    var r := WriterReporter(w, hash, stats, meta);
    AcknowledgedPointReadable(w, hash, stats, meta, n, actions, left, ids, p);
    FreeNotDisplaced(hash, CopyOf(w, hash, r, n, actions), Recovery(w, left, ids), SlotOf(p));
  }

  lemma FreeNotDisplaced(hash: Hash, st: Store, recs: seq<Recovered>, slot: Slot)
    requires OpensFree(hash, st, recs)
    ensures !OnlyDisplaced(hash, st, recs, slot)
  {
    hide Displaces, TimeAt, Memtable.Holds;
  }
}
