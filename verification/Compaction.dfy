/** Flushes and compactions over one index and one directory of chunk files. */
module Compaction {
  import opened Types
  import opened Pruning
  import opened ChunkIndex
  import opened Merging
  import Memtable

  /** What a chunk writer reports of one series. */
  datatype Written = Written(key: SeriesKey, entry: SeriesChunk, stats: Stats)

  // ----- Registering and deregistering many series -----

  function RegisterAll(hash: Hash, x: Index, ws: seq<Written>, m: Meta): Index {
    if ws == [] then x
    else
      var w := ws[|ws| - 1];
      Registered(hash, RegisterAll(hash, x, ws[..|ws| - 1], m), w.key, w.entry, w.stats, m)
  }

  type Listed = (SeriesId, ChunkId, i64)

  function DeregisterAll(x: Index, ds: seq<Listed>): Index {
    if ds == [] then x
    else
      var d := ds[|ds| - 1];
      Deregistered(DeregisterAll(x, ds[..|ds| - 1]), d.0, d.1, d.2)
  }

  function TimeAt(x: Index, id: SeriesId, t: i64): Option<SeriesChunk> {
    if id in x.times && t in x.times[id] then Some(x.times[id][t]) else None
  }

  /** Registers every series of a written chunk. */
  method RegisterSeries(index: ChunkIndex, ws: seq<Written>, m: Meta)
    modifies index
    ensures index.View() == RegisterAll(index.hash, old(index.View()), ws, m)
  {
    hide Registered;
    for i := 0 to |ws|
      invariant index.View() == RegisterAll(index.hash, old(index.View()), ws[..i], m)
    {
      assert ws[..i + 1][..i] == ws[..i];
      var _ := index.Register(ws[i].key, ws[i].entry, ws[i].stats, m);
    }
    assert ws[..|ws|] == ws;
  }

  /** Removes every listed entry. */
  method RemoveListed(index: ChunkIndex, ds: seq<Listed>)
    modifies index
    ensures index.View() == DeregisterAll(old(index.View()), ds)
  {
    hide Deregistered;
    for i := 0 to |ds|
      invariant index.View() == DeregisterAll(old(index.View()), ds[..i])
    {
      assert ds[..i + 1][..i] == ds[..i];
      index.Deregister(ds[i].0, ds[i].1, ds[i].2);
    }
    assert ds[..|ds|] == ds;
  }

  /** The written series agree with the table the chunk was written from. */
  ghost predicate Reports(hash: Hash, ws: seq<Written>, chunk: ChunkId, t: Memtable.Table) {
    && (forall k :: k in t <==> exists i :: 0 <= i < |ws| && ws[i].key == k)
    && (forall i :: 0 <= i < |ws| ==> ReportOk(hash, ws[i], chunk, t))
  }

  ghost predicate ReportOk(hash: Hash, w: Written, chunk: ChunkId, t: Memtable.Table) {
    && w.key in t && t[w.key] != []
    && w.entry.chunk == chunk
    && w.entry.series == hash(w.key)
    && w.entry.start == t[w.key][0].0
    && w.entry.end == t[w.key][|t[w.key]| - 1].0
  }

  /** The hash tells the written series from each other and from the registered ones. */
  ghost predicate Apart(hash: Hash, x: Index, ws: seq<Written>) {
    && (forall i :: 0 <= i < |ws| ==> NoCollision(hash, x, ws[i].key))
    && (forall i, j :: 0 <= i < |ws| && 0 <= j < |ws| && hash(ws[i].key) == hash(ws[j].key) ==> ws[i].key == ws[j].key)
  }

  ghost predicate Names(hash: Hash, w: Written, id: SeriesId, t: i64) {
    hash(w.key) == id && w.entry.start == t
  }

  /** An entry is replaced exactly when a written series has its start. */
  lemma {:induction false} RegisterAllTimes(hash: Hash, x: Index, ws: seq<Written>, m: Meta, id: SeriesId, t: i64)
    ensures (forall i :: 0 <= i < |ws| ==> !Names(hash, ws[i], id, t)) ==> TimeAt(RegisterAll(hash, x, ws, m), id, t) == TimeAt(x, id, t)
    ensures (exists i :: 0 <= i < |ws| && Names(hash, ws[i], id, t)) ==>
              exists i :: 0 <= i < |ws| && Names(hash, ws[i], id, t) && TimeAt(RegisterAll(hash, x, ws, m), id, t) == Some(ws[i].entry)
  {
    if ws != [] {
      var n := |ws| - 1;
      RegisterAllTimes(hash, x, ws[..n], m, id, t);
      var y, z := RegisterAll(hash, x, ws[..n], m), RegisterAll(hash, x, ws, m);
      RegisteredTime(hash, y, ws[n], m, id, t);
      hide TimeAt, Registered, Names;
      if Names(hash, ws[n], id, t) {
        assert TimeAt(z, id, t) == Some(ws[n].entry);
      } else if i :| 0 <= i < n && Names(hash, ws[..n][i], id, t) && TimeAt(y, id, t) == Some(ws[..n][i].entry) {
        assert Names(hash, ws[i], id, t) && TimeAt(z, id, t) == Some(ws[i].entry);
      } else {
        assert forall i :: 0 <= i < n ==> ws[..n][i] == ws[i];
      }
    }
  }

  lemma RegisteredTime(hash: Hash, x: Index, w: Written, m: Meta, id: SeriesId, t: i64)
    ensures TimeAt(Registered(hash, x, w.key, w.entry, w.stats, m), id, t) ==
            if Names(hash, w, id, t) then Some(w.entry) else TimeAt(x, id, t)
  {
    hide WithTags;
  }

  lemma {:induction false} RegisterAllStats(hash: Hash, x: Index, ws: seq<Written>, m: Meta, c: ChunkId, id: SeriesId)
    ensures (c, id) in RegisterAll(hash, x, ws, m).stats <==>
            (c, id) in x.stats || exists i :: 0 <= i < |ws| && ws[i].entry.chunk == c && hash(ws[i].key) == id
  {
    if ws != [] {
      var n := |ws| - 1;
      RegisterAllStats(hash, x, ws[..n], m, c, id);
      if i :| 0 <= i < n && ws[..n][i].entry.chunk == c && hash(ws[..n][i].key) == id {
        assert ws[i].entry.chunk == c && hash(ws[i].key) == id;
      }
      if i :| 0 <= i < n && ws[i].entry.chunk == c && hash(ws[i].key) == id {
        assert ws[..n][i].entry.chunk == c && hash(ws[..n][i].key) == id;
      }
    }
  }

  predicate Wrote(hash: Hash, ws: seq<Written>, id: SeriesId) {
    exists i :: 0 <= i < |ws| && hash(ws[i].key) == id
  }

  /** The written series join the registered ones, each under its own key. */
  ghost predicate Joined(hash: Hash, before: Registry, ws: seq<Written>, after: Registry) {
    && (forall id :: id in after <==> id in before || Wrote(hash, ws, id))
    && (forall id :: id in before ==> after[id] == before[id])
    && (forall i :: 0 <= i < |ws| ==> after[hash(ws[i].key)] == ws[i].key)
  }

  lemma JoinedStep(hash: Hash, x: Index, ws: seq<Written>, w: Written, y: Index)
    requires Apart(hash, x, ws + [w]) && Joined(hash, x.registry, ws, y.registry)
    ensures NoCollision(hash, y, w.key)
    ensures Joined(hash, x.registry, ws + [w], y.registry[hash(w.key) := w.key])
  {
    var more := ws + [w];
    assert more[|ws|] == w && NoCollision(hash, x, more[|ws|].key);
    forall id | id in y.registry && hash(w.key) == id ensures y.registry[id] == w.key {
      if id !in x.registry {
        var i :| 0 <= i < |ws| && hash(ws[i].key) == id;
        assert more[i] == ws[i] && hash(more[i].key) == hash(more[|ws|].key);
      }
    }
    forall id ensures Wrote(hash, more, id) <==> Wrote(hash, ws, id) || id == hash(w.key) {
      if i :| 0 <= i < |ws| && hash(ws[i].key) == id {
        assert hash(more[i].key) == id;
      }
    }
  }

  /** Registering the series of a chunk keeps the index exact. */
  lemma {:induction false} RegisterAllOk(hash: Hash, x: Index, ws: seq<Written>, m: Meta)
    requires IndexOk(hash, x) && Apart(hash, x, ws)
    requires forall i :: 0 <= i < |ws| ==> ws[i].entry.series == hash(ws[i].key)
    ensures IndexOk(hash, RegisterAll(hash, x, ws, m))
    ensures Joined(hash, x.registry, ws, RegisterAll(hash, x, ws, m).registry)
  {
    if ws != [] {
      var n := |ws| - 1;
      var y, w := RegisterAll(hash, x, ws[..n], m), ws[n];
      assert ws == ws[..n] + [w];
      hide IndexOk, NoCollision, Joined, WithTags;
      RegisterAllOk(hash, x, ws[..n], m);
      JoinedStep(hash, x, ws[..n], w, y);
      RegisterOk(hash, y, w.key, w.entry, w.stats, m);
    }
  }

  lemma {:induction false} DeregisterAllOk(hash: Hash, x: Index, ds: seq<Listed>)
    requires IndexOk(hash, x)
    ensures IndexOk(hash, DeregisterAll(x, ds)) && DeregisterAll(x, ds).registry == x.registry
  {
    if ds != [] {
      var n := |ds| - 1;
      DeregisterAllOk(hash, x, ds[..n]);
      hide IndexOk;
      DeregisterOk(hash, DeregisterAll(x, ds[..n]), ds[n].0, ds[n].1, ds[n].2);
    }
  }

  /** An entry goes exactly when it is listed under the chunk that owns it. */
  lemma {:induction false} DeregisterAllTimes(x: Index, ds: seq<Listed>, id: SeriesId, t: i64)
    ensures TimeAt(DeregisterAll(x, ds), id, t) ==
            if TimeAt(x, id, t).Some? && (id, TimeAt(x, id, t).value.chunk, t) in ds then None else TimeAt(x, id, t)
  {
    if ds != [] {
      var n := |ds| - 1;
      DeregisterAllTimes(x, ds[..n], id, t);
      assert ds == ds[..n] + [ds[n]];
    }
  }

  lemma {:induction false} DeregisterAllStats(x: Index, ds: seq<Listed>, c: ChunkId, id: SeriesId)
    ensures (c, id) in DeregisterAll(x, ds).stats <==> (c, id) in x.stats && forall t :: (id, c, t) !in ds
  {
    if ds != [] {
      var n := |ds| - 1;
      DeregisterAllStats(x, ds[..n], c, id);
      assert ds == ds[..n] + [ds[n]];
      assert (id, c, ds[n].2) in ds <==> (id, c, ds[n].2) in ds[..n] || (id, c, ds[n].2) == ds[n];
      if ds[n].0 == id && ds[n].1 == c {
        assert (id, c, ds[n].2) in ds;
      }
    }
  }
}
