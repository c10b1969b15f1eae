/** The index together with the chunk files it describes. */
module ChunkStore {
  import opened Types
  import opened ChunkIndex
  import opened Merging
  import opened Compaction
  import Memtable

  datatype Store = Store(index: Index, disk: Disk)

  // ----- Index and files agree -----

  /** A series of a chunk file is registered, and filed under its first timestamp. */
  ghost predicate Filed(hash: Hash, s: Store, c: ChunkId, key: SeriesKey) {
    && c in s.disk && key in s.disk[c] && s.disk[c][key] != []
    && hash(key) in s.index.registry && s.index.registry[hash(key)] == key
    && (c, hash(key)) in s.index.stats
    && var v := s.disk[c][key];
       var e := TimeAt(s.index, hash(key), v[0].0);
       e.Some? && e.value.chunk == c && e.value.end == v[|v| - 1].0
  }

  /** An index entry stands for a series of a live chunk file. */
  ghost predicate Owned(s: Store, id: SeriesId, t: i64) {
    var e := TimeAt(s.index, id, t);
    e.Some? ==>
      && e.value.chunk in s.index.files && e.value.chunk in s.disk
      && id in s.index.registry
      && var key := s.index.registry[id];
         key in s.disk[e.value.chunk] && s.disk[e.value.chunk][key] != [] && s.disk[e.value.chunk][key][0].0 == t
  }

  ghost predicate Backed(s: Store, c: ChunkId, id: SeriesId) {
    (c, id) in s.index.stats ==> id in s.index.registry && c in s.disk && s.index.registry[id] in s.disk[c]
  }

  ghost predicate StoreOk(hash: Hash, s: Store) {
    && IndexOk(hash, s.index)
    && (forall c :: c in s.index.files ==> c in s.disk && Memtable.TableOk(s.disk[c]))
    && (forall c, key :: c in s.index.files && key in s.disk[c] ==> Filed(hash, s, c, key))
    && (forall id: SeriesId, t: i64 :: Owned(s, id, t))
    && (forall c, id: SeriesId :: Backed(s, c, id))
  }

  /** A live chunk file holds the value. */
  ghost predicate Held(s: Store, key: SeriesKey, ts: i64, v: F64) {
    exists c :: c in s.index.files && c in s.disk && Memtable.Holds(s.disk[c], key, ts, v)
  }

  /** The value is found by following the index: some entry of the series leads to a chunk that holds it. */
  ghost predicate Visible(hash: Hash, s: Store, key: SeriesKey, ts: i64, v: F64) {
    exists t: i64 :: TimeAt(s.index, hash(key), t).Some?
      && TimeAt(s.index, hash(key), t).value.chunk in s.disk
      && Memtable.Holds(s.disk[TimeAt(s.index, hash(key), t).value.chunk], key, ts, v)
  }

  /** The index leads to exactly the values in live files. */
  lemma VisibleIsHeld(hash: Hash, s: Store, key: SeriesKey, ts: i64, v: F64)
    requires StoreOk(hash, s)
    ensures Visible(hash, s, key, ts, v) <==> Held(s, key, ts, v)
  {
    if Visible(hash, s, key, ts, v) {
      var t: i64 :| TimeAt(s.index, hash(key), t).Some?
        && TimeAt(s.index, hash(key), t).value.chunk in s.disk
        && Memtable.Holds(s.disk[TimeAt(s.index, hash(key), t).value.chunk], key, ts, v);
      assert Owned(s, hash(key), t);
    }
    if c :| c in s.index.files && c in s.disk && Memtable.Holds(s.disk[c], key, ts, v) {
      assert Filed(hash, s, c, key);
      assert TimeAt(s.index, hash(key), s.disk[c][key][0].0).Some?;
    }
  }

  // ----- One chunk written, some chunks gone -----

  ghost predicate Named(hash: Hash, ws: seq<Written>, id: SeriesId, t: i64) {
    exists i :: 0 <= i < |ws| && Names(hash, ws[i], id, t)
  }

  /** The chunk about to be registered is new, and its starts are free or taken by chunks about to go. */
  ghost predicate Fits(hash: Hash, s: Store, gone: set<ChunkId>, c: ChunkId, t: Memtable.Table, ws: seq<Written>) {
    && c !in s.disk
    && Memtable.TableOk(t)
    && Reports(hash, ws, c, t)
    && Apart(hash, s.index, ws)
    && forall id: SeriesId, t0: i64 :: Named(hash, ws, id, t0) ==> TimeAt(s.index, id, t0).None? || TimeAt(s.index, id, t0).value.chunk in gone
  }

  /** The entry at a start after the change. */
  ghost predicate EntryAfter(hash: Hash, x: Index, x': Index, gone: set<ChunkId>, ws: seq<Written>, id: SeriesId, t: i64) {
    if Named(hash, ws, id, t) then
      exists i :: 0 <= i < |ws| && Names(hash, ws[i], id, t) && TimeAt(x', id, t) == Some(ws[i].entry)
    else if TimeAt(x, id, t).Some? && TimeAt(x, id, t).value.chunk in gone then TimeAt(x', id, t) == None
    else TimeAt(x', id, t) == TimeAt(x, id, t)
  }

  /** The index after a chunk is registered and the entries of others are removed. */
  ghost predicate Replaced(hash: Hash, x: Index, x': Index, gone: set<ChunkId>, c: ChunkId, ws: seq<Written>) {
    && IndexOk(hash, x')
    && Joined(hash, x.registry, ws, x'.registry)
    && (forall id: SeriesId, t: i64 :: EntryAfter(hash, x, x', gone, ws, id, t))
    && (forall d, id: SeriesId :: (d, id) in x'.stats <==> ((d, id) in x.stats && d !in gone) || (d == c && Wrote(hash, ws, id)))
  }

  /** The live files after the change. */
  lemma FilesAfter(hash: Hash, x: Index, x': Index, gone: set<ChunkId>, c: ChunkId, ws: seq<Written>)
    requires FilesExact(x) && Replaced(hash, x, x', gone, c, ws)
    ensures forall d :: d in x'.files <==> (d in x.files && d !in gone) || (d == c && ws != [])
  {
    assert FilesExact(x');
    forall d ensures d in x'.files <==> (d in x.files && d !in gone) || (d == c && ws != []) {
      if d in x'.files {
        var k :| k in x'.stats && k.0 == d;
        assert (k.0, k.1) in x'.stats;
        if (k.0, k.1) in x.stats {
          assert Referenced(x.stats, d);
        }
      }
      if d in x.files && d !in gone {
        var k :| k in x.stats && k.0 == d;
        assert (k.0, k.1) in x'.stats;
      }
      if d == c && ws != [] {
        assert Wrote(hash, ws, hash(ws[0].key));
        assert (c, hash(ws[0].key)) in x'.stats;
      }
    }
  }

  /** The whole change: a chunk that fits is written and registered, others are removed. */
  ghost predicate Change(hash: Hash, s: Store, s': Store, gone: set<ChunkId>, c: ChunkId, t: Memtable.Table, ws: seq<Written>) {
    && Fits(hash, s, gone, c, t, ws)
    && Replaced(hash, s.index, s'.index, gone, c, ws)
    && s'.disk == (s.disk - gone)[c := t]
  }

  lemma LiveAfter(hash: Hash, s: Store, s': Store, gone: set<ChunkId>, c: ChunkId, t: Memtable.Table, ws: seq<Written>)
    requires StoreOk(hash, s) && Change(hash, s, s', gone, c, t, ws)
    ensures IndexOk(hash, s'.index)
    ensures forall d :: d in s'.index.files <==> (d in s.index.files && d !in gone) || (d == c && ws != [])
    ensures forall d :: d in s'.index.files ==> d in s'.disk && Memtable.TableOk(s'.disk[d]) && s'.disk[d] == if d == c then t else s.disk[d]
    ensures forall d :: d in s'.index.files && d != c ==> d in s.disk
  {
    FilesAfter(hash, s.index, s'.index, gone, c, ws);
  }

  /** What a written series looks like in the new index. */
  lemma NewEntry(hash: Hash, x: Index, x': Index, gone: set<ChunkId>, c: ChunkId, t: Memtable.Table, ws: seq<Written>, i: nat)
    requires i < |ws| && Reports(hash, ws, c, t) && Apart(hash, x, ws)
    requires EntryAfter(hash, x, x', gone, ws, hash(ws[i].key), ws[i].entry.start)
    ensures TimeAt(x', hash(ws[i].key), ws[i].entry.start).Some?
    ensures var e := TimeAt(x', hash(ws[i].key), ws[i].entry.start).value; e.chunk == c && e.end == ws[i].entry.end
  {
    var id, start := hash(ws[i].key), ws[i].entry.start;
    assert Names(hash, ws[i], id, start);
    var j :| 0 <= j < |ws| && Names(hash, ws[j], id, start) && TimeAt(x', id, start) == Some(ws[j].entry);
    assert ReportOk(hash, ws[j], c, t) && ReportOk(hash, ws[i], c, t);
  }

  lemma ReportedAs(hash: Hash, ws: seq<Written>, c: ChunkId, t: Memtable.Table, key: SeriesKey) returns (i: nat)
    requires Reports(hash, ws, c, t) && key in t
    ensures i < |ws| && ws[i].key == key && ReportOk(hash, ws[i], c, t)
  {
    i :| 0 <= i < |ws| && ws[i].key == key;
  }

  lemma NewRegistered(hash: Hash, x: Index, x': Index, gone: set<ChunkId>, c: ChunkId, ws: seq<Written>, i: nat)
    requires i < |ws| && Replaced(hash, x, x', gone, c, ws)
    ensures hash(ws[i].key) in x'.registry && x'.registry[hash(ws[i].key)] == ws[i].key && (c, hash(ws[i].key)) in x'.stats
    ensures EntryAfter(hash, x, x', gone, ws, hash(ws[i].key), ws[i].entry.start)
  {
    hide IndexOk, EntryAfter;
    assert Wrote(hash, ws, hash(ws[i].key));
    assert (c, hash(ws[i].key)) in x'.stats;
  }

  lemma NewFiled(hash: Hash, s: Store, s': Store, gone: set<ChunkId>, c: ChunkId, t: Memtable.Table, ws: seq<Written>, key: SeriesKey)
    requires Change(hash, s, s', gone, c, t, ws) && key in t
    ensures Filed(hash, s', c, key)
  {
    hide Replaced, Reports, Apart, EntryAfter, TimeAt;
    var i := ReportedAs(hash, ws, c, t, key);
    NewRegistered(hash, s.index, s'.index, gone, c, ws, i);
    NewEntry(hash, s.index, s'.index, gone, c, t, ws, i);
  }

  lemma OldEntry(hash: Hash, x: Index, x': Index, gone: set<ChunkId>, c: ChunkId, ws: seq<Written>, id: SeriesId, t: i64)
    requires Replaced(hash, x, x', gone, c, ws)
    requires TimeAt(x, id, t).Some? && TimeAt(x, id, t).value.chunk !in gone && !Named(hash, ws, id, t)
    ensures TimeAt(x', id, t) == TimeAt(x, id, t)
  {
    hide IndexOk, TimeAt;
    assert EntryAfter(hash, x, x', gone, ws, id, t);
  }

  lemma OldRegistered(hash: Hash, x: Index, x': Index, gone: set<ChunkId>, c: ChunkId, ws: seq<Written>, d: ChunkId, id: SeriesId)
    requires Replaced(hash, x, x', gone, c, ws) && (d, id) in x.stats && d !in gone
    ensures (d, id) in x'.stats && (id in x.registry ==> id in x'.registry && x'.registry[id] == x.registry[id])
  {
    hide IndexOk, EntryAfter;
  }

  lemma OldFiled(hash: Hash, s: Store, s': Store, gone: set<ChunkId>, c: ChunkId, t: Memtable.Table, ws: seq<Written>, d: ChunkId, key: SeriesKey)
    requires Filed(hash, s, d, key) && Change(hash, s, s', gone, c, t, ws) && d !in gone
    ensures Filed(hash, s', d, key)
  {
    hide Replaced, Reports, Apart, TimeAt, Named, Memtable.TableOk;
    assert d != c && s'.disk[d] == s.disk[d];
    assert !Named(hash, ws, hash(key), s.disk[d][key][0].0);
    hide Fits;
    OldEntry(hash, s.index, s'.index, gone, c, ws, hash(key), s.disk[d][key][0].0);
    OldRegistered(hash, s.index, s'.index, gone, c, ws, d, hash(key));
  }

  /** Every entry of the new index is an old one that stayed or one of the new chunk. */
  lemma EntryFrom(hash: Hash, s: Store, s': Store, gone: set<ChunkId>, c: ChunkId, t: Memtable.Table, ws: seq<Written>, id: SeriesId, t0: i64) returns (i: nat)
    requires Change(hash, s, s', gone, c, t, ws) && TimeAt(s'.index, id, t0).Some?
    ensures Named(hash, ws, id, t0) ==> i < |ws| && ReportOk(hash, ws[i], c, t) && Names(hash, ws[i], id, t0) && TimeAt(s'.index, id, t0) == Some(ws[i].entry)
    ensures !Named(hash, ws, id, t0) ==> TimeAt(s'.index, id, t0) == TimeAt(s.index, id, t0) && TimeAt(s.index, id, t0).value.chunk !in gone
  {
    hide IndexOk, TimeAt, ReportOk, Apart;
    i := 0;
    assert EntryAfter(hash, s.index, s'.index, gone, ws, id, t0);
    if Named(hash, ws, id, t0) {
      i :| 0 <= i < |ws| && Names(hash, ws[i], id, t0) && TimeAt(s'.index, id, t0) == Some(ws[i].entry);
      assert ReportOk(hash, ws[i], c, t);
    }
  }

  lemma OwnedAfter(hash: Hash, s: Store, s': Store, gone: set<ChunkId>, c: ChunkId, t: Memtable.Table, ws: seq<Written>, id: SeriesId, t0: i64)
    requires StoreOk(hash, s) && Change(hash, s, s', gone, c, t, ws)
    ensures Owned(s', id, t0)
  {
    LiveAfter(hash, s, s', gone, c, t, ws);
    assert Owned(s, id, t0);
    assert Joined(hash, s.index.registry, ws, s'.index.registry) && s'.disk == (s.disk - gone)[c := t];
    hide StoreOk, Change, IndexOk, Named, TimeAt, Memtable.TableOk, Wrote;
    if TimeAt(s'.index, id, t0).Some? {
      var i := EntryFrom(hash, s, s', gone, c, t, ws, id, t0);
    }
  }

  lemma BackedAfter(hash: Hash, s: Store, s': Store, gone: set<ChunkId>, c: ChunkId, t: Memtable.Table, ws: seq<Written>, d: ChunkId, id: SeriesId)
    requires StoreOk(hash, s) && Change(hash, s, s', gone, c, t, ws)
    ensures Backed(s', d, id)
  {
    hide IndexOk;
    if (d, id) in s'.index.stats {
      if d == c && Wrote(hash, ws, id) {
        var i :| 0 <= i < |ws| && hash(ws[i].key) == id;
        assert ReportOk(hash, ws[i], c, t);
      } else {
        assert Backed(s, d, id);
      }
    }
  }

  /** The change keeps index and files in agreement. */
  lemma ChangeOk(hash: Hash, s: Store, s': Store, gone: set<ChunkId>, c: ChunkId, t: Memtable.Table, ws: seq<Written>)
    requires StoreOk(hash, s) && Change(hash, s, s', gone, c, t, ws)
    ensures StoreOk(hash, s')
  {
    LiveAfter(hash, s, s', gone, c, t, ws);
    hide Filed, Owned, Backed, Change, IndexOk, Memtable.TableOk;
    forall d, key | d in s'.index.files && key in s'.disk[d] ensures Filed(hash, s', d, key) {
      if d == c {
        NewFiled(hash, s, s', gone, c, t, ws, key);
      } else {
        assert Filed(hash, s, d, key);
        OldFiled(hash, s, s', gone, c, t, ws, d, key);
      }
    }
    forall id: SeriesId, t0: i64 ensures Owned(s', id, t0) {
      OwnedAfter(hash, s, s', gone, c, t, ws, id, t0);
    }
    forall d, id: SeriesId ensures Backed(s', d, id) {
      BackedAfter(hash, s, s', gone, c, t, ws, d, id);
    }
  }
}
