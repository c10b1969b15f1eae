/**
  The durability protocol with the index it really keeps: registered chunks with their time entries, the
  copies snapshots take of it, and what opening the store after a crash makes of the copy on disk.
*/
module Catalog {
  import opened Types
  import opened ChunkIndex
  import opened Compaction
  import opened ChunkStore
  import Merging
  import Runs = CompactionRuns
  import P = Durability
  import I = DurabilityInvariant
  import D = DurabilityTheorems
  import Memtable

  /** What the chunk writer reports of a table, and the metadata of the file. */
  datatype Reporter = Reporter(report: (ChunkId, Memtable.Table) -> seq<Written>, meta: ChunkId -> Meta)

  ghost predicate Faithful(hash: Hash, r: Reporter) {
    forall c, t :: Memtable.TableOk(t) ==> Reports(hash, r.report(c, t), c, t)
  }

  /** The hash tells the series in use apart. */
  ghost predicate Tells(hash: Hash, keys: set<SeriesKey>) {
    forall a, b :: a in keys && b in keys && hash(a) == hash(b) ==> a == b
  }

  // ----- The index along a run -----

  /** The live index, the copies in the temporary file and on disk, and the tables of all registered chunks. */
  datatype Cat = Cat(live: Index, tmp: Option<Index>, disk: Index, tables: Merging.Disk)

  const NOTHING := Cat(Empty(), None, Empty(), map[])

  /** The table a drained batch is written from. */
  function TableOf(batch: seq<P.Entry>): Memtable.Table {
    Memtable.InsertedAll(map[], D.PointsOf(batch))
  }

  function ChunkTable(s: P.State, id: ChunkId): Memtable.Table {
    if id in s.chunks then TableOf(s.chunks[id]) else map[]
  }

  function NextCat(hash: Hash, r: Reporter, s: P.State, c: Cat, step: P.Step): Cat
    requires P.Enabled(s, step)
  {
    match step
    case Register(j) =>
      var id := s.shards[j].flush.chunk;
      var t := ChunkTable(s, id);
      c.(live := RegisterAll(hash, c.live, r.report(id, t), r.meta(id)), tables := c.tables[id := t])
    case WriteTmp(_) => c.(tmp := Some(c.live))
    case Rename(_) => c.(tmp := None, disk := if c.tmp.Some? then c.tmp.value else c.disk)
    case _ => c
  }

  /** Every series of a flushed chunk is one of `keys`, and starts where no entry of it does. */
  ghost predicate Free(hash: Hash, r: Reporter, keys: set<SeriesKey>, s: P.State, c: Cat, step: P.Step)
    requires P.Enabled(s, step)
  {
    step.Register? ==>
      var id := s.shards[step.shard].flush.chunk;
      && (forall k :: k in ChunkTable(s, id) ==> k in keys)
      && forall i :: 0 <= i < |r.report(id, ChunkTable(s, id))| ==> StartFree(hash, c.live, r.report(id, ChunkTable(s, id))[i])
  }

  predicate StartFree(hash: Hash, x: Index, w: Written) {
    TimeAt(x, hash(w.key), w.entry.start).None?
  }

  ghost predicate FreeRun(hash: Hash, r: Reporter, keys: set<SeriesKey>, s: P.State, c: Cat, steps: seq<P.Step>)
    requires D.Valid(s, steps)
    decreases |steps|
  {
    steps == [] ||
    (Free(hash, r, keys, s, c, steps[0]) && FreeRun(hash, r, keys, P.Next(s, steps[0]), NextCat(hash, r, s, c, steps[0]), steps[1..]))
  }

  ghost function ExecCat(hash: Hash, r: Reporter, s: P.State, c: Cat, steps: seq<P.Step>): Cat
    requires D.Valid(s, steps)
    decreases |steps|
  {
    if steps == [] then c else ExecCat(hash, r, P.Next(s, steps[0]), NextCat(hash, r, s, c, steps[0]), steps[1..])
  }

  // ----- Index and protocol agree -----

  /** The index is in agreement with the tables, and files every chunk the protocol names. */
  ghost predicate Covers(hash: Hash, keys: set<SeriesKey>, s: P.State, tables: Merging.Disk, x: Index, ids: set<ChunkId>) {
    && StoreOk(hash, Store(x, tables))
    && (forall id :: id in x.registry ==> x.registry[id] in keys)
    && (forall id :: id in ids ==> id in tables && tables[id] == ChunkTable(s, id) && (tables[id] != map[] ==> id in x.files))
  }

  /** The chunk a shard has written but not registered yet. */
  function Unregistered(h: P.Shard): Option<ChunkId> {
    if h.flush.Written? then Some(h.flush.chunk) else None
  }

  ghost predicate Pending(s: P.State, tables: Merging.Disk) {
    && (forall j :: 0 <= j < |s.shards| ==> Separate(s, tables, Unregistered(s.shards[j])))
    && (forall i, j :: 0 <= i < j < |s.shards| ==> Differ(Unregistered(s.shards[i]), Unregistered(s.shards[j])))
    && (forall id :: id in tables ==> id in s.chunks && tables[id] == ChunkTable(s, id))
  }

  predicate Separate(s: P.State, tables: Merging.Disk, id: Option<ChunkId>) {
    id.Some? ==> id.value in s.chunks && id.value !in tables
  }

  predicate Differ(a: Option<ChunkId>, b: Option<ChunkId>) {
    a.Some? && b.Some? ==> a != b
  }

  ghost predicate Linked(hash: Hash, keys: set<SeriesKey>, s: P.State, c: Cat) {
    && Pending(s, c.tables)
    && Covers(hash, keys, s, c.tables, c.live, s.index)
    && Covers(hash, keys, s, c.tables, c.disk, s.disk.index)
    && (s.tmp.Some? <==> c.tmp.Some?)
    && (s.tmp.Some? ==> Covers(hash, keys, s, c.tables, c.tmp.value, s.tmp.value.index))
  }

  /** More tables do not disturb an index that does not name them. */
  lemma StoreMono(hash: Hash, x: Index, tables: Merging.Disk, more: Merging.Disk)
    requires StoreOk(hash, Store(x, tables)) && forall id :: id in tables ==> id in more && more[id] == tables[id]
    ensures StoreOk(hash, Store(x, more))
  {
    var s, s' := Store(x, tables), Store(x, more);
    forall c, key | c in x.files && key in more[c] ensures Filed(hash, s', c, key) {
      assert Filed(hash, s, c, key);
    }
    forall id: SeriesId, t: i64 ensures Owned(s', id, t) {
      assert Owned(s, id, t);
    }
    forall c, id: SeriesId ensures Backed(s', c, id) {
      assert Backed(s, c, id);
    }
  }

  lemma CoversMono(hash: Hash, keys: set<SeriesKey>, s: P.State, s': P.State, tables: Merging.Disk, more: Merging.Disk, x: Index, ids: set<ChunkId>)
    requires Covers(hash, keys, s, tables, x, ids)
    requires forall id :: id in tables ==> id in more && more[id] == tables[id]
    requires forall id :: id in tables ==> ChunkTable(s', id) == ChunkTable(s, id)
    ensures Covers(hash, keys, s', more, x, ids)
  {
    hide StoreOk, ChunkTable;
    StoreMono(hash, x, tables, more);
  }

  lemma TableOfOk(batch: seq<P.Entry>)
    ensures Memtable.TableOk(TableOf(batch))
  {
    Memtable.TableIsLastWriteWins(D.PointsOf(batch));
  }

  /** The series of a faithful report are keys of the table. */
  lemma ReportedKeys(hash: Hash, ws: seq<Written>, c: ChunkId, t: Memtable.Table, i: nat)
    requires Reports(hash, ws, c, t) && i < |ws|
    ensures ws[i].key in t && ws[i].entry.chunk == c && ws[i].entry.series == hash(ws[i].key) && t[ws[i].key] != []
    ensures ws[i].entry.start == t[ws[i].key][0].0
  {
    assert ReportOk(hash, ws[i], c, t);
  }

  lemma ApartFromKeys(hash: Hash, keys: set<SeriesKey>, x: Index, ws: seq<Written>, c: ChunkId, t: Memtable.Table)
    requires Tells(hash, keys) && (forall id :: id in x.registry ==> x.registry[id] in keys && hash(x.registry[id]) == id)
    requires Reports(hash, ws, c, t) && forall k :: k in t ==> k in keys
    ensures Apart(hash, x, ws)
  {
    forall i | 0 <= i < |ws| ensures ws[i].key in keys {
      ReportedKeys(hash, ws, c, t, i);
    }
    hide Reports;
  }

  lemma FreeFits(hash: Hash, keys: set<SeriesKey>, st: Store, ws: seq<Written>, c: ChunkId, t: Memtable.Table)
    requires StoreOk(hash, st) && Tells(hash, keys) && (forall id :: id in st.index.registry ==> st.index.registry[id] in keys)
    requires c !in st.disk && Memtable.TableOk(t) && Reports(hash, ws, c, t) && (forall k :: k in t ==> k in keys)
    requires forall i :: 0 <= i < |ws| ==> StartFree(hash, st.index, ws[i])
    ensures Fits(hash, st, {}, c, t, ws)
  {
    assert IndexOk(hash, st.index);
    ApartFromKeys(hash, keys, st.index, ws, c, t);
    hide StoreOk, IndexOk, Reports, Apart, Memtable.TableOk, TimeAt;
    forall id: SeriesId, t0: i64 | Named(hash, ws, id, t0) ensures TimeAt(st.index, id, t0).None? {
      var i :| 0 <= i < |ws| && Names(hash, ws[i], id, t0);
      assert StartFree(hash, st.index, ws[i]);
    }
  }

  /** Registering a chunk with free starts keeps the index in agreement and files the chunk. */
  lemma RegisterCovers(hash: Hash, r: Reporter, keys: set<SeriesKey>, s: P.State, tables: Merging.Disk, x: Index, ids: set<ChunkId>, id: ChunkId)
    requires Covers(hash, keys, s, tables, x, ids) && Tells(hash, keys) && Faithful(hash, r)
    requires id in s.chunks && id !in tables && forall k :: k in ChunkTable(s, id) ==> k in keys
    requires forall i :: 0 <= i < |r.report(id, ChunkTable(s, id))| ==> StartFree(hash, x, r.report(id, ChunkTable(s, id))[i])
    ensures var t := ChunkTable(s, id);
      Covers(hash, keys, s, tables[id := t], RegisterAll(hash, x, r.report(id, t), r.meta(id)), ids + {id})
  {
    hide StoreOk, Fits, Change, ChunkTable, RegisterAll, Memtable.TableOk, Reports, Faithful, Tells, StartFree;
    var t := ChunkTable(s, id);
    var ws, st := r.report(id, t), Store(x, tables);
    var st' := Runs.Flushed(hash, st, id, t, ws, r.meta(id));
    ReportOf(hash, r, s, id);
    FreeFits(hash, keys, st, ws, id, t);
    Runs.FlushReplaces(hash, st, id, t, ws, r.meta(id));
    ChangeOk(hash, st, st', {}, id, t, ws);
    LiveAfter(hash, st, st', {}, id, t, ws);
    RegistryKeys(hash, keys, st, st', id, t, ws);
    NonEmptyReport(hash, ws, id, t);
  }

  lemma ReportOf(hash: Hash, r: Reporter, s: P.State, id: ChunkId)
    requires Faithful(hash, r) && id in s.chunks
    ensures Memtable.TableOk(ChunkTable(s, id)) && Reports(hash, r.report(id, ChunkTable(s, id)), id, ChunkTable(s, id))
  {
    TableOfOk(s.chunks[id]);
  }

  lemma NonEmptyReport(hash: Hash, ws: seq<Written>, c: ChunkId, t: Memtable.Table)
    requires Reports(hash, ws, c, t)
    ensures t != map[] ==> ws != []
  {
    if t != map[] {
      var k :| k in t;
    }
  }

  lemma RegistryKeys(hash: Hash, keys: set<SeriesKey>, st: Store, st': Store, c: ChunkId, t: Memtable.Table, ws: seq<Written>)
    requires Change(hash, st, st', {}, c, t, ws) && (forall k :: k in t ==> k in keys)
    requires forall id :: id in st.index.registry ==> st.index.registry[id] in keys
    ensures forall id :: id in st'.index.registry ==> st'.index.registry[id] in keys
  {
    assert Joined(hash, st.index.registry, ws, st'.index.registry) && Reports(hash, ws, c, t);
    hide Change, Reports;
    forall id | id in st'.index.registry ensures st'.index.registry[id] in keys {
      if id !in st.index.registry {
        var i :| 0 <= i < |ws| && hash(ws[i].key) == id;
        ReportedKeys(hash, ws, c, t, i);
      }
    }
  }

  // ----- Steps -----

  lemma RegisterLinked(hash: Hash, r: Reporter, keys: set<SeriesKey>, s: P.State, c: Cat, step: P.Step)
    requires Linked(hash, keys, s, c) && Tells(hash, keys) && Faithful(hash, r) && I.Inv(s)
    requires step.Register? && P.Enabled(s, step) && Free(hash, r, keys, s, c, step)
    ensures Linked(hash, keys, P.Next(s, step), NextCat(hash, r, s, c, step))
  {
    hide StoreOk, ChunkTable, RegisterAll, Faithful, Tells, StartFree, Covers, I.Inv, Differ;
    var id, s' := s.shards[step.shard].flush.chunk, P.Next(s, step);
    var t := ChunkTable(s, id);
    assert s'.chunks == s.chunks;
    assert Unregistered(s.shards[step.shard]) == Some(id) && Separate(s, c.tables, Some(id));
    PendingRegister(s, s', c.tables, step.shard, id, t);
    RegisterCovers(hash, r, keys, s, c.tables, c.live, s.index, id);
    SameChunks(hash, keys, s, s', c.tables[id := t], RegisterAll(hash, c.live, r.report(id, t), r.meta(id)), s.index + {id});
    SameTables(s, s');
    CoversMono(hash, keys, s, s', c.tables, c.tables[id := t], c.disk, s.disk.index);
    if s.tmp.Some? {
      CoversMono(hash, keys, s, s', c.tables, c.tables[id := t], c.tmp.value, s.tmp.value.index);
    }
  }

  lemma PendingRegister(s: P.State, s': P.State, tables: Merging.Disk, i: nat, id: ChunkId, t: Memtable.Table)
    requires Pending(s, tables) && i < |s.shards| && Unregistered(s.shards[i]) == Some(id)
    requires s'.chunks == s.chunks && |s'.shards| == |s.shards| && Unregistered(s'.shards[i]) == None
    requires (forall j :: 0 <= j < |s.shards| && j != i ==> s'.shards[j] == s.shards[j]) && t == ChunkTable(s, id)
    ensures Pending(s', tables[id := t])
  {
    hide Unregistered, ChunkTable;
    SameTables(s, s');
    assert Separate(s, tables, Unregistered(s.shards[i]));
    forall j | 0 <= j < |s'.shards| ensures Separate(s', tables[id := t], Unregistered(s'.shards[j])) {
      assert Separate(s, tables, Unregistered(s.shards[j]));
      if j < i {
        assert Differ(Unregistered(s.shards[j]), Unregistered(s.shards[i]));
      } else if i < j {
        assert Differ(Unregistered(s.shards[i]), Unregistered(s.shards[j]));
      }
    }
    forall a, b | 0 <= a < b < |s'.shards| ensures Differ(Unregistered(s'.shards[a]), Unregistered(s'.shards[b])) {
      assert Differ(Unregistered(s.shards[a]), Unregistered(s.shards[b]));
    }
  }

  lemma SameTables(s: P.State, s': P.State)
    requires forall id :: id in s.chunks ==> id in s'.chunks && s'.chunks[id] == s.chunks[id]
    ensures forall id :: id in s.chunks ==> ChunkTable(s', id) == ChunkTable(s, id)
    ensures s'.chunks == s.chunks ==> forall id :: ChunkTable(s', id) == ChunkTable(s, id)
  {
  }

  lemma SameChunks(hash: Hash, keys: set<SeriesKey>, s: P.State, s': P.State, tables: Merging.Disk, x: Index, ids: set<ChunkId>)
    requires Covers(hash, keys, s, tables, x, ids) && s'.chunks == s.chunks
    ensures Covers(hash, keys, s', tables, x, ids)
  {
    hide StoreOk, TableOf;
  }

  /** A step that registers nothing and touches no copy: only chunk files may be added. */
  lemma OtherLinked(hash: Hash, r: Reporter, keys: set<SeriesKey>, s: P.State, c: Cat, step: P.Step)
    requires Linked(hash, keys, s, c) && P.Enabled(s, step) && !step.Register? && !step.WriteTmp? && !step.Rename?
    ensures Linked(hash, keys, P.Next(s, step), c) && NextCat(hash, r, s, c, step) == c
  {
    hide StoreOk, ChunkTable, Covers, P.Ready, P.WorkerEnabled;
    var s' := P.Next(s, step);
    OtherSame(s, step);
    SameTables(s, s');
    PendingStep(s, c.tables, step);
    CoversMono(hash, keys, s, s', c.tables, c.tables, c.live, s.index);
    CoversMono(hash, keys, s, s', c.tables, c.tables, c.disk, s.disk.index);
    if s.tmp.Some? {
      CoversMono(hash, keys, s, s', c.tables, c.tables, c.tmp.value, s.tmp.value.index);
    }
  }

  lemma OtherSame(s: P.State, step: P.Step)
    requires P.Enabled(s, step) && !step.Register? && !step.WriteTmp? && !step.Rename?
    ensures var s' := P.Next(s, step);
      && s'.index == s.index && s'.disk == s.disk && s'.tmp == s.tmp && |s'.shards| == |s.shards|
      && forall id :: id in s.chunks ==> id in s'.chunks && s'.chunks[id] == s.chunks[id]
  {
  }

  lemma PendingStep(s: P.State, tables: Merging.Disk, step: P.Step)
    requires Pending(s, tables) && P.Enabled(s, step) && !step.Register?
    ensures Pending(P.Next(s, step), tables)
  {
    hide Pending, Unregistered, P.AfterShard, P.Ready, P.WorkerEnabled, P.NextWorker;
    var s' := P.Next(s, step);
    if P.ShardStep(step) {
      FlushAfter(s.shards[step.shard], step);
      PendingShard(s, s', tables, step.shard, if step.WriteChunk? then Some(step.id) else None);
    } else {
      WorkerSame(s, step);
      forall j | 0 <= j < |s'.shards| ensures Unregistered(s'.shards[j]) == Unregistered(s.shards[j]) {
        I.PersistedOnly(s, step, j);
        SameFlush(s.shards[j], s'.shards[j]);
      }
      PendingSame(s, s', tables);
    }
  }

  lemma SameFlush(h: P.Shard, h': P.Shard)
    requires h.flush == h'.flush
    ensures Unregistered(h') == Unregistered(h)
  {
  }

  lemma PendingSame(s: P.State, s': P.State, tables: Merging.Disk)
    requires Pending(s, tables) && s'.chunks == s.chunks && |s'.shards| == |s.shards|
    requires forall j :: 0 <= j < |s.shards| ==> Unregistered(s'.shards[j]) == Unregistered(s.shards[j])
    ensures Pending(s', tables)
  {
    hide Unregistered, ChunkTable;
    SameTables(s, s');
  }

  lemma PendingShard(s: P.State, s': P.State, tables: Merging.Disk, i: nat, added: Option<ChunkId>)
    requires Pending(s, tables) && i < |s.shards| == |s'.shards|
    requires forall j :: 0 <= j < |s.shards| && j != i ==> s'.shards[j] == s.shards[j]
    requires var u := Unregistered(s'.shards[i]); u == None || u == Unregistered(s.shards[i]) || u == added
    requires added.Some? ==> added.value !in s.chunks && added.value in s'.chunks
    requires forall id :: id in s.chunks ==> id in s'.chunks && s'.chunks[id] == s.chunks[id]
    ensures Pending(s', tables)
  {
    hide Unregistered, ChunkTable;
    SameTables(s, s');
    forall a, b | 0 <= a < b < |s'.shards| ensures Differ(Unregistered(s'.shards[a]), Unregistered(s'.shards[b])) {
      assert Separate(s, tables, Unregistered(s.shards[a])) && Separate(s, tables, Unregistered(s.shards[b]));
      assert Differ(Unregistered(s.shards[a]), Unregistered(s.shards[b]));
    }
    forall j | 0 <= j < |s'.shards| ensures Separate(s', tables, Unregistered(s'.shards[j])) {
      assert Separate(s, tables, Unregistered(s.shards[j]));
    }
  }

  lemma WorkerSame(s: P.State, step: P.Step)
    requires !P.ShardStep(step) && P.Enabled(s, step)
    ensures P.Next(s, step).chunks == s.chunks && |P.Next(s, step).shards| == |s.shards|
  {
  }

  lemma FlushAfter(h: P.Shard, step: P.Step)
    requires P.ShardStep(step) && P.Ready(h, step) && !step.Register?
    ensures var u := Unregistered(P.AfterShard(h, step));
            u == None || u == Unregistered(h) || (step.WriteChunk? && u == Some(step.id))
  {
  }

  /** A worker writes or renames a copy of the index. */
  lemma CopyLinked(hash: Hash, r: Reporter, keys: set<SeriesKey>, s: P.State, c: Cat, step: P.Step)
    requires Linked(hash, keys, s, c) && P.Enabled(s, step) && (step.WriteTmp? || step.Rename?)
    ensures Linked(hash, keys, P.Next(s, step), NextCat(hash, r, s, c, step))
  {
    hide Covers;
    var s' := P.Next(s, step);
    assert s'.chunks == s.chunks && s'.shards == s.shards && s'.index == s.index;
    SameChunks(hash, keys, s, s', c.tables, c.live, s.index);
    SameChunks(hash, keys, s, s', c.tables, c.disk, s.disk.index);
    if s.tmp.Some? {
      SameChunks(hash, keys, s, s', c.tables, c.tmp.value, s.tmp.value.index);
    }
  }

  lemma {:induction false} RunLinked(hash: Hash, r: Reporter, keys: set<SeriesKey>, s: P.State, c: Cat, steps: seq<P.Step>)
    requires Linked(hash, keys, s, c) && Tells(hash, keys) && Faithful(hash, r) && I.Inv(s)
    requires D.Valid(s, steps) && D.GuardedRun(s, steps) && FreeRun(hash, r, keys, s, c, steps)
    ensures Linked(hash, keys, D.Exec(s, steps), ExecCat(hash, r, s, c, steps))
    decreases |steps|
  {
    if steps != [] {
      hide Linked, Tells, Faithful, I.Inv, P.Enabled, P.Next, NextCat, Free, I.Guarded;
      var step := steps[0];
      I.InvStep(s, step);
      if step.Register? {
        RegisterLinked(hash, r, keys, s, c, step);
      } else if step.WriteTmp? || step.Rename? {
        CopyLinked(hash, r, keys, s, c, step);
      } else {
        OtherLinked(hash, r, keys, s, c, step);
      }
      RunLinked(hash, r, keys, P.Next(s, step), NextCat(hash, r, s, c, step), steps[1..]);
    }
  }

  lemma InitLinked(hash: Hash, keys: set<SeriesKey>, n: nat)
    ensures Linked(hash, keys, P.Init(n), NOTHING)
  {
    EmptyOk(hash);
    hide StoreOk;
  }

  lemma EmptyOk(hash: Hash)
    ensures StoreOk(hash, Store(Empty(), map[]))
  {
  }
}
