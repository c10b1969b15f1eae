/** Opening the store after a crash: the snapshot's index, and one recovery chunk per shard registered into it. */
module Opening {
  import opened Types
  import opened ChunkIndex
  import opened Compaction
  import opened ChunkStore
  import opened Catalog
  import Runs = CompactionRuns
  import P = Durability
  import I = DurabilityInvariant
  import D = DurabilityTheorems
  import Memtable

  /** The points replayed from the log of one shard, and the id of the chunk they are written to. */
  datatype Recovered = Recovered(id: ChunkId, table: Memtable.Table)

  /** Shard by shard, the recovery chunk is written and registered; nothing replayed means no chunk. */
  function Reopened(hash: Hash, r: Reporter, st: Store, recs: seq<Recovered>): Store {
    if recs == [] then st
    else
      var front, rec := Reopened(hash, r, st, recs[..|recs| - 1]), recs[|recs| - 1];
      if rec.table == map[] then front
      else Runs.Flushed(hash, front, rec.id, rec.table, r.report(rec.id, rec.table), r.meta(rec.id))
  }

  method OpenIndex(index: ChunkIndex, disk: map<ChunkId, Memtable.Table>, r: Reporter, recs: seq<Recovered>) returns (disk': map<ChunkId, Memtable.Table>)
    modifies index
    ensures Store(index.View(), disk') == Reopened(index.hash, r, Store(old(index.View()), disk), recs)
  {
    hide RegisterAll;
    disk' := disk;
    for i := 0 to |recs|
      invariant Store(index.View(), disk') == Reopened(index.hash, r, Store(old(index.View()), disk), recs[..i])
    {
      assert recs[..i + 1][..i] == recs[..i];
      if recs[i].table != map[] {
        RegisterSeries(index, r.report(recs[i].id, recs[i].table), r.meta(recs[i].id));
        disk' := disk'[recs[i].id := recs[i].table];
      }
    }
    assert recs[..|recs|] == recs;
  }

  /** Recovery chunks get new ids, and a series is replayed by one shard only. */
  ghost predicate RecsOk(st: Store, keys: set<SeriesKey>, recs: seq<Recovered>) {
    && (forall i :: 0 <= i < |recs| ==> recs[i].id !in st.disk && Memtable.TableOk(recs[i].table) && forall k :: k in recs[i].table ==> k in keys)
    && (forall i, j :: 0 <= i < j < |recs| ==> recs[i].id != recs[j].id)
    && (forall i, j, k :: 0 <= i < j < |recs| && k in recs[i].table ==> k !in recs[j].table)
  }

  /** The recovery chunk starts series `id` at `t`. */
  ghost predicate Starts(hash: Hash, rec: Recovered, id: SeriesId, t: i64) {
    exists k :: k in rec.table && hash(k) == id && rec.table[k] != [] && rec.table[k][0].0 == t
  }

  ghost predicate Displaces(hash: Hash, recs: seq<Recovered>, id: SeriesId, t: i64) {
    exists i :: 0 <= i < |recs| && Starts(hash, recs[i], id, t)
  }

  lemma NamedIsStart(hash: Hash, ws: seq<Written>, rec: Recovered, id: SeriesId, t: i64)
    requires Reports(hash, ws, rec.id, rec.table)
    ensures Named(hash, ws, id, t) <==> Starts(hash, rec, id, t)
  {
    if Named(hash, ws, id, t) {
      var i :| 0 <= i < |ws| && Names(hash, ws[i], id, t);
      assert ReportOk(hash, ws[i], rec.id, rec.table);
      assert ws[i].key in rec.table;
    }
    if Starts(hash, rec, id, t) {
      var k :| k in rec.table && hash(k) == id && rec.table[k] != [] && rec.table[k][0].0 == t;
      var i := ReportedAs(hash, ws, rec.id, rec.table, k);
      assert Names(hash, ws[i], id, t);
    }
  }

  /** The entries after opening: those of the snapshot, except where a recovery chunk starts. */
  ghost predicate EntryOpened(hash: Hash, x: Index, x': Index, recs: seq<Recovered>, id: SeriesId, t: i64) {
    if Displaces(hash, recs, id, t) then
      exists i :: 0 <= i < |recs| && Starts(hash, recs[i], id, t) && TimeAt(x', id, t).Some? && TimeAt(x', id, t).value.chunk == recs[i].id
    else TimeAt(x', id, t) == TimeAt(x, id, t)
  }

  lemma {:induction false} OpenedEntries(hash: Hash, r: Reporter, st: Store, recs: seq<Recovered>, id: SeriesId, t: i64)
    requires Faithful(hash, r) && forall i :: 0 <= i < |recs| ==> Memtable.TableOk(recs[i].table)
    ensures EntryOpened(hash, st.index, Reopened(hash, r, st, recs).index, recs, id, t)
  {
    if recs != [] {
      hide Faithful, Reports, RegisterAll, TimeAt, Starts, Memtable.TableOk;
      var n := |recs| - 1;
      var front, rec := recs[..n], recs[n];
      OpenedEntries(hash, r, st, front, id, t);
      assert recs == front + [rec];
      EmptyStarts(hash, rec, id, t);
      if rec.table != map[] {
        OneOpened(hash, r, Reopened(hash, r, st, front).index, rec, id, t);
      }
      StepOpened(hash, st.index, Reopened(hash, r, st, front).index, Reopened(hash, r, st, recs).index, front, rec, id, t);
    }
  }

  lemma EmptyStarts(hash: Hash, rec: Recovered, id: SeriesId, t: i64)
    ensures rec.table == map[] ==> !Starts(hash, rec, id, t)
  {
  }

  lemma OneOpened(hash: Hash, r: Reporter, x: Index, rec: Recovered, id: SeriesId, t: i64)
    requires Faithful(hash, r) && Memtable.TableOk(rec.table)
    ensures var x' := RegisterAll(hash, x, r.report(rec.id, rec.table), r.meta(rec.id));
      if Starts(hash, rec, id, t) then TimeAt(x', id, t).Some? && TimeAt(x', id, t).value.chunk == rec.id
      else TimeAt(x', id, t) == TimeAt(x, id, t)
  {
    hide RegisterAll, TimeAt, Starts, Memtable.TableOk;
    var ws := r.report(rec.id, rec.table);
    assert Reports(hash, ws, rec.id, rec.table);
    NamedIsStart(hash, ws, rec, id, t);
    RegisterAllTimes(hash, x, ws, r.meta(rec.id), id, t);
    if Named(hash, ws, id, t) {
      var i :| 0 <= i < |ws| && Names(hash, ws[i], id, t) && TimeAt(RegisterAll(hash, x, ws, r.meta(rec.id)), id, t) == Some(ws[i].entry);
      ReportedKeys(hash, ws, rec.id, rec.table, i);
    }
  }

  lemma StepOpened(hash: Hash, x: Index, y: Index, x': Index, front: seq<Recovered>, rec: Recovered, id: SeriesId, t: i64)
    requires EntryOpened(hash, x, y, front, id, t)
    requires if Starts(hash, rec, id, t) then TimeAt(x', id, t).Some? && TimeAt(x', id, t).value.chunk == rec.id
             else TimeAt(x', id, t) == TimeAt(y, id, t)
    ensures EntryOpened(hash, x, x', front + [rec], id, t)
  {
    hide Starts, TimeAt;
    var recs := front + [rec];
    if Starts(hash, rec, id, t) {
      assert recs[|front|] == rec;
    } else if Displaces(hash, front, id, t) {
      var i :| 0 <= i < |front| && Starts(hash, front[i], id, t) && TimeAt(y, id, t).Some? && TimeAt(y, id, t).value.chunk == front[i].id;
      assert recs[i] == front[i];
    } else {
      assert forall i :: 0 <= i < |front| ==> recs[i] == front[i];
    }
  }

  lemma {:induction false} OpenedDisk(hash: Hash, r: Reporter, st: Store, recs: seq<Recovered>, keys: set<SeriesKey>)
    requires RecsOk(st, keys, recs)
    ensures forall c :: c in st.disk ==> c in Reopened(hash, r, st, recs).disk && Reopened(hash, r, st, recs).disk[c] == st.disk[c]
    ensures forall i :: 0 <= i < |recs| && recs[i].table != map[] ==>
              recs[i].id in Reopened(hash, r, st, recs).disk && Reopened(hash, r, st, recs).disk[recs[i].id] == recs[i].table
  {
    if recs != [] {
      hide RegisterAll, Memtable.TableOk;
      var n := |recs| - 1;
      assert forall i :: 0 <= i < n ==> recs[..n][i] == recs[i];
      OpenedDisk(hash, r, st, recs[..n], keys);
    }
  }

  // ----- What opening shows -----

  /** A recovery chunk holds the value. */
  ghost predicate Replayed(recs: seq<Recovered>, key: SeriesKey, ts: i64, v: F64) {
    exists i :: 0 <= i < |recs| && Memtable.Holds(recs[i].table, key, ts, v)
  }

  /** The entry of the series that starts at `t` leads to the value. */
  ghost predicate LedTo(hash: Hash, st: Store, key: SeriesKey, ts: i64, v: F64, t: i64) {
    var e := TimeAt(st.index, hash(key), t);
    e.Some? && e.value.chunk in st.disk && Memtable.Holds(st.disk[e.value.chunk], key, ts, v)
  }

  /** Exactly what is visible after opening: replayed values, and values of the snapshot whose entry is not displaced. */
  lemma OpenedVisibleExact(hash: Hash, r: Reporter, st: Store, keys: set<SeriesKey>, recs: seq<Recovered>, key: SeriesKey, ts: i64, v: F64)
    requires StoreOk(hash, st) && Faithful(hash, r) && Tells(hash, keys) && RecsOk(st, keys, recs) && key in keys
    ensures Visible(hash, Reopened(hash, r, st, recs), key, ts, v) <==>
            Replayed(recs, key, ts, v) || exists t: i64 :: LedTo(hash, st, key, ts, v, t) && !Displaces(hash, recs, hash(key), t)
  {
    hide Faithful, Tells, StoreOk, RecsOk, Reopened, TimeAt, Displaces, Memtable.Holds;
    var st' := Reopened(hash, r, st, recs);
    if Visible(hash, st', key, ts, v) {
      var t := VisibleVia(hash, st', key, ts, v);
      OpenedFrom(hash, r, st, keys, recs, key, ts, v, t);
    }
    if i :| 0 <= i < |recs| && Memtable.Holds(recs[i].table, key, ts, v) {
      ReplayedShows(hash, r, st, keys, recs, key, ts, v, i);
    }
    if t: i64 :| LedTo(hash, st, key, ts, v, t) && !Displaces(hash, recs, hash(key), t) {
      KeptShows(hash, r, st, keys, recs, key, ts, v, t);
    }
  }

  lemma VisibleVia(hash: Hash, st: Store, key: SeriesKey, ts: i64, v: F64) returns (t: i64)
    requires Visible(hash, st, key, ts, v)
    ensures LedTo(hash, st, key, ts, v, t)
  {
    hide TimeAt, Memtable.Holds;
    t :| TimeAt(st.index, hash(key), t).Some?
      && TimeAt(st.index, hash(key), t).value.chunk in st.disk
      && Memtable.Holds(st.disk[TimeAt(st.index, hash(key), t).value.chunk], key, ts, v);
  }

  lemma RecTablesOk(st: Store, keys: set<SeriesKey>, recs: seq<Recovered>)
    requires RecsOk(st, keys, recs)
    ensures forall i :: 0 <= i < |recs| ==> Memtable.TableOk(recs[i].table)
  {
  }

  lemma OpenedFrom(hash: Hash, r: Reporter, st: Store, keys: set<SeriesKey>, recs: seq<Recovered>, key: SeriesKey, ts: i64, v: F64, t: i64)
    requires StoreOk(hash, st) && Faithful(hash, r) && RecsOk(st, keys, recs) && LedTo(hash, Reopened(hash, r, st, recs), key, ts, v, t)
    ensures Replayed(recs, key, ts, v) || (LedTo(hash, st, key, ts, v, t) && !Displaces(hash, recs, hash(key), t))
  {
    assert Owned(st, hash(key), t);
    hide Faithful, StoreOk, RecsOk, Reopened, TimeAt, Starts, Memtable.Holds;
    RecTablesOk(st, keys, recs);
    OpenedEntries(hash, r, st, recs, hash(key), t);
    OpenedDisk(hash, r, st, recs, keys);
    if Displaces(hash, recs, hash(key), t) {
      var x' := Reopened(hash, r, st, recs).index;
      var i :| 0 <= i < |recs| && Starts(hash, recs[i], hash(key), t) && TimeAt(x', hash(key), t).value.chunk == recs[i].id;
      EmptyStarts(hash, recs[i], hash(key), t);
    }
  }

  lemma KeptShows(hash: Hash, r: Reporter, st: Store, keys: set<SeriesKey>, recs: seq<Recovered>, key: SeriesKey, ts: i64, v: F64, t: i64)
    requires Faithful(hash, r) && RecsOk(st, keys, recs) && LedTo(hash, st, key, ts, v, t) && !Displaces(hash, recs, hash(key), t)
    ensures Visible(hash, Reopened(hash, r, st, recs), key, ts, v)
  {
    hide Faithful, RecsOk, Reopened, TimeAt, Displaces, Memtable.Holds;
    RecTablesOk(st, keys, recs);
    OpenedEntries(hash, r, st, recs, hash(key), t);
    OpenedDisk(hash, r, st, recs, keys);
    assert LedTo(hash, Reopened(hash, r, st, recs), key, ts, v, t);
  }

  lemma ReplayedShows(hash: Hash, r: Reporter, st: Store, keys: set<SeriesKey>, recs: seq<Recovered>, key: SeriesKey, ts: i64, v: F64, i: nat)
    requires Faithful(hash, r) && Tells(hash, keys) && RecsOk(st, keys, recs) && key in keys
    requires i < |recs| && Memtable.Holds(recs[i].table, key, ts, v)
    ensures Visible(hash, Reopened(hash, r, st, recs), key, ts, v)
  {
    var t, x' := recs[i].table[key][0].0, Reopened(hash, r, st, recs).index;
    assert recs[i].table != map[] && recs[i].table[key] != [] && Starts(hash, recs[i], hash(key), t);
    hide Faithful, Reopened, TimeAt, Memtable.TableOk;
    RecTablesOk(st, keys, recs);
    OpenedEntries(hash, r, st, recs, hash(key), t);
    OpenedDisk(hash, r, st, recs, keys);
    assert Displaces(hash, recs, hash(key), t);
    var k :| 0 <= k < |recs| && Starts(hash, recs[k], hash(key), t) && TimeAt(x', hash(key), t).Some? && TimeAt(x', hash(key), t).value.chunk == recs[k].id;
    SameRec(hash, st, keys, recs, key, i, k, t);
    assert LedTo(hash, Reopened(hash, r, st, recs), key, ts, v, t);
  }

  lemma SameRec(hash: Hash, st: Store, keys: set<SeriesKey>, recs: seq<Recovered>, key: SeriesKey, i: nat, k: nat, t: i64)
    requires Tells(hash, keys) && RecsOk(st, keys, recs) && i < |recs| && k < |recs| && key in keys && key in recs[i].table
    requires Starts(hash, recs[k], hash(key), t)
    ensures k == i
  {
    var other :| other in recs[k].table && hash(other) == hash(key) && recs[k].table[other] != [] && recs[k].table[other][0].0 == t;
    assert other == key;
  }

  // ----- After a crash -----

  /** The tables built from the replayed logs have every slot the protocol replays; a torn tail may add more. */
  ghost predicate Rebuilds(s: P.State, recs: seq<Recovered>) {
    && |recs| == |s.shards| == |s.disk.watermarks|
    && forall j, e, p :: 0 <= j < |recs| && e in D.Replay(s.shards[j].wal, s.disk.watermarks[j]) && p in e.points ==>
         HasSlot(recs[j].table, p.key, p.ts)
  }

  ghost predicate HasSlot(t: Memtable.Table, key: SeriesKey, ts: i64) {
    exists v: F64 :: Memtable.Holds(t, key, ts, v)
  }

  /** The slot has a value only in chunks whose entries the recovery chunks displace. */
  ghost predicate OnlyDisplaced(hash: Hash, st: Store, recs: seq<Recovered>, slot: Slot) {
    && (exists t: i64, v: F64 :: LedTo(hash, st, slot.0, slot.1, v, t) && Displaces(hash, recs, hash(slot.0), t))
    && (forall v: F64 :: !Replayed(recs, slot.0, slot.1, v))
    && (forall t: i64, v: F64 :: LedTo(hash, st, slot.0, slot.1, v, t) ==> Displaces(hash, recs, hash(slot.0), t))
  }

  /** No series of a recovery chunk starts where an entry of the snapshot does. */
  ghost predicate OpensFree(hash: Hash, st: Store, recs: seq<Recovered>) {
    forall id: SeriesId, t: i64 :: Displaces(hash, recs, id, t) ==> TimeAt(st.index, id, t).None?
  }

  /** What is recovered is in the snapshot's store or in a recovery chunk. */
  lemma RecoveredSomewhere(hash: Hash, keys: set<SeriesKey>, s: P.State, c: Cat, recs: seq<Recovered>, slot: Slot, v: F64)
    requires Linked(hash, keys, s, c) && Rebuilds(s, recs) && D.Recovers(s, slot, v)
    ensures (exists w: F64 :: Replayed(recs, slot.0, slot.1, w)) || exists t: i64 :: LedTo(hash, Store(c.disk, c.tables), slot.0, slot.1, v, t)
  {
    hide StoreOk, D.Holds, D.Replay, TimeAt, Memtable.Holds;
    if id :| id in s.disk.index && id in s.chunks && D.Holds(s.chunks[id], slot, v) {
      ChunkLeads(hash, keys, s, c, id, slot, v);
    } else {
      var j :| 0 <= j < |s.shards| && j < |s.disk.watermarks| && D.Holds(D.Replay(s.shards[j].wal, s.disk.watermarks[j]), slot, v);
      D.HoldsOnly(D.Replay(s.shards[j].wal, s.disk.watermarks[j]), slot, v);
      var e, p :| e in D.Replay(s.shards[j].wal, s.disk.watermarks[j]) && p in e.points && SlotOf(p) == slot && p.value == v;
      assert HasSlot(recs[j].table, p.key, p.ts);
      var w: F64 :| Memtable.Holds(recs[j].table, p.key, p.ts, w);
      assert Replayed(recs, slot.0, slot.1, w);
    }
  }

  /** A value of a chunk the snapshot names is reached through an entry of the snapshot's index. */
  lemma ChunkLeads(hash: Hash, keys: set<SeriesKey>, s: P.State, c: Cat, id: ChunkId, slot: Slot, v: F64)
    requires Linked(hash, keys, s, c) && id in s.disk.index && id in s.chunks && D.Holds(s.chunks[id], slot, v)
    ensures exists t: i64 :: LedTo(hash, Store(c.disk, c.tables), slot.0, slot.1, v, t)
  {
    var st := Store(c.disk, c.tables);
    Memtable.TableIsLastWriteWins(D.PointsOf(s.chunks[id]));
    assert Memtable.Holds(TableOf(s.chunks[id]), slot.0, slot.1, v);
    hide Memtable.InsertedAll, D.PointsOf, Memtable.Latest, IndexOk;
    assert c.tables[id] == ChunkTable(s, id) && id in c.disk.files;
    assert Filed(hash, st, id, slot.0);
    assert LedTo(hash, st, slot.0, slot.1, v, c.tables[id][slot.0][0].0);
  }

  /**
    Opening after a crash at the end of any guarded run whose flushes had free starts: a slot of an acknowledged
    append is visible if and only if it is not held only by chunks whose entries the recovery chunks displace.
  */
  lemma AckedVisibleExact(hash: Hash, r: Reporter, keys: set<SeriesKey>, n: nat, steps: seq<P.Step>, recs: seq<Recovered>, k: nat, p: DataPoint)
    requires Faithful(hash, r) && Tells(hash, keys) && p.key in keys
    requires D.Valid(P.Init(n), steps) && D.GuardedRun(P.Init(n), steps) && FreeRun(hash, r, keys, P.Init(n), NOTHING, steps)
    requires k < |steps| && steps[k].Insert? && p in steps[k].entry.points
    requires Rebuilds(D.Exec(P.Init(n), steps), recs) && RecsOk(SnapshotStore(hash, r, n, steps), keys, recs)
    ensures Shows(hash, r, SnapshotStore(hash, r, n, steps), recs, p) <==>
            !OnlyDisplaced(hash, SnapshotStore(hash, r, n, steps), recs, (p.key, p.ts))
  {
    hide Faithful, Tells, D.Valid, D.GuardedRun, FreeRun, D.Exec, P.Init, Rebuilds, RecsOk, SnapshotStore, Shows, OnlyDisplaced, Somewhere, StoreOk;
    var st := SnapshotStore(hash, r, n, steps);
    AckedSomewhere(hash, r, keys, n, steps, recs, k, p);
    VisibleUnlessDisplaced(hash, r, st, keys, recs, p);
  }

  lemma AckedSomewhere(hash: Hash, r: Reporter, keys: set<SeriesKey>, n: nat, steps: seq<P.Step>, recs: seq<Recovered>, k: nat, p: DataPoint)
    requires Faithful(hash, r) && Tells(hash, keys)
    requires D.Valid(P.Init(n), steps) && D.GuardedRun(P.Init(n), steps) && FreeRun(hash, r, keys, P.Init(n), NOTHING, steps)
    requires k < |steps| && steps[k].Insert? && p in steps[k].entry.points && Rebuilds(D.Exec(P.Init(n), steps), recs)
    ensures StoreOk(hash, SnapshotStore(hash, r, n, steps))
    ensures Somewhere(hash, SnapshotStore(hash, r, n, steps), recs, p.key, p.ts)
  {
    hide Linked, Faithful, Tells, I.Inv, D.Valid, D.GuardedRun, FreeRun, D.Exec, ExecCat, Rebuilds, LedTo, Replayed, D.Recovers, StoreOk, P.Init;
    var s, c := D.Exec(P.Init(n), steps), ExecCat(hash, r, P.Init(n), NOTHING, steps);
    I.InitInv(n);
    InitLinked(hash, keys, n);
    RunLinked(hash, r, keys, P.Init(n), NOTHING, steps);
    LinkedStore(hash, keys, s, c);
    D.NoAckedPointLost(n, steps, k, p);
    var u :| D.Recovers(s, SlotOf(p), u);
    RecoveredSomewhere(hash, keys, s, c, recs, SlotOf(p), u);
  }

  ghost predicate Somewhere(hash: Hash, st: Store, recs: seq<Recovered>, key: SeriesKey, ts: i64) {
    || (exists v: F64 :: Replayed(recs, key, ts, v))
    || (exists t: i64, v: F64 :: LedTo(hash, st, key, ts, v, t))
  }

  /** A slot that is stored anywhere is visible after opening unless only displaced entries lead to it. */
  lemma VisibleUnlessDisplaced(hash: Hash, r: Reporter, st: Store, keys: set<SeriesKey>, recs: seq<Recovered>, p: DataPoint)
    requires StoreOk(hash, st) && Faithful(hash, r) && Tells(hash, keys) && RecsOk(st, keys, recs) && p.key in keys
    requires Somewhere(hash, st, recs, p.key, p.ts)
    ensures Shows(hash, r, st, recs, p) <==> !OnlyDisplaced(hash, st, recs, (p.key, p.ts))
  {
    var key, ts := p.key, p.ts;
    hide Faithful, Tells, StoreOk, RecsOk, Visible, Reopened, LedTo, Displaces, Replayed;
    var st' := Reopened(hash, r, st, recs);
    if v: F64 :| Visible(hash, st', key, ts, v) {
      OpenedVisibleExact(hash, r, st, keys, recs, key, ts, v);
    }
    if v: F64 :| Replayed(recs, key, ts, v) {
      OpenedVisibleExact(hash, r, st, keys, recs, key, ts, v);
    } else if t: i64, v: F64 :| LedTo(hash, st, key, ts, v, t) && !Displaces(hash, recs, hash(key), t) {
      OpenedVisibleExact(hash, r, st, keys, recs, key, ts, v);
    }
  }

  /** After opening, the index leads to some value of the point's slot. */
  ghost predicate Shows(hash: Hash, r: Reporter, st: Store, recs: seq<Recovered>, p: DataPoint) {
    exists v: F64 :: Visible(hash, Reopened(hash, r, st, recs), p.key, p.ts, v)
  }

  /** What a crash leaves on disk of the index and its chunks. */
  ghost function SnapshotStore(hash: Hash, r: Reporter, n: nat, steps: seq<P.Step>): Store
    requires D.Valid(P.Init(n), steps)
  {
    var c := ExecCat(hash, r, P.Init(n), NOTHING, steps);
    Store(c.disk, c.tables)
  }

  lemma LinkedStore(hash: Hash, keys: set<SeriesKey>, s: P.State, c: Cat)
    requires Linked(hash, keys, s, c)
    ensures StoreOk(hash, Store(c.disk, c.tables))
  {
  }

  /** The condition to check before opening: when no recovery chunk takes a start of the snapshot, every acknowledged slot is visible. */
  lemma AckedVisible(hash: Hash, r: Reporter, keys: set<SeriesKey>, n: nat, steps: seq<P.Step>, recs: seq<Recovered>, k: nat, p: DataPoint)
    requires Faithful(hash, r) && Tells(hash, keys) && p.key in keys
    requires D.Valid(P.Init(n), steps) && D.GuardedRun(P.Init(n), steps) && FreeRun(hash, r, keys, P.Init(n), NOTHING, steps)
    requires k < |steps| && steps[k].Insert? && p in steps[k].entry.points
    requires Rebuilds(D.Exec(P.Init(n), steps), recs) && RecsOk(SnapshotStore(hash, r, n, steps), keys, recs)
    requires OpensFree(hash, SnapshotStore(hash, r, n, steps), recs)
    ensures Shows(hash, r, SnapshotStore(hash, r, n, steps), recs, p)
  {
    hide Faithful, Tells, D.Valid, D.GuardedRun, FreeRun, D.Exec, ExecCat, Rebuilds, RecsOk, Visible, Reopened, SnapshotStore, Memtable.Holds, TimeAt;
    AckedVisibleExact(hash, r, keys, n, steps, recs, k, p);
  }

  ghost predicate Acked(steps: seq<P.Step>, p: DataPoint) {
    exists k :: 0 <= k < |steps| && steps[k].Insert? && p in steps[k].entry.points
  }

  /** All acknowledged slots are visible after opening exactly when none is held only by displaced entries. */
  lemma AllAckedVisibleExact(hash: Hash, r: Reporter, keys: set<SeriesKey>, n: nat, steps: seq<P.Step>, recs: seq<Recovered>)
    requires Faithful(hash, r) && Tells(hash, keys) && (forall p :: Acked(steps, p) ==> p.key in keys)
    requires D.Valid(P.Init(n), steps) && D.GuardedRun(P.Init(n), steps) && FreeRun(hash, r, keys, P.Init(n), NOTHING, steps)
    requires Rebuilds(D.Exec(P.Init(n), steps), recs) && RecsOk(SnapshotStore(hash, r, n, steps), keys, recs)
    ensures (forall p :: Acked(steps, p) ==> Shows(hash, r, SnapshotStore(hash, r, n, steps), recs, p))
       <==> (forall p :: Acked(steps, p) ==> !OnlyDisplaced(hash, SnapshotStore(hash, r, n, steps), recs, (p.key, p.ts)))
  {
    hide Faithful, Tells, D.Valid, D.GuardedRun, FreeRun, Rebuilds, RecsOk, Shows, SnapshotStore, OnlyDisplaced, P.Init, D.Exec;
    forall p | Acked(steps, p)
      ensures Shows(hash, r, SnapshotStore(hash, r, n, steps), recs, p) <==>
              !OnlyDisplaced(hash, SnapshotStore(hash, r, n, steps), recs, (p.key, p.ts))
    {
      var k :| 0 <= k < |steps| && steps[k].Insert? && p in steps[k].entry.points;
      AckedVisibleExact(hash, r, keys, n, steps, recs, k, p);
    }
  }
}
