/** Saving the index as plain lists and rebuilding it, tag index included. */
module IndexPersistence {
  import opened Types
  import opened Pruning
  import opened ChunkIndex
  import SeriesKeys

  const SNAPSHOT_VERSION: nat := 2

  /** What is written to disk; the tag index is not. */
  datatype Snapshot = Snapshot(
    version: nat,
    watermarks: seq<nat>,
    registry: seq<(SeriesId, SeriesKey)>,
    times: seq<(SeriesId, seq<(i64, SeriesChunk)>)>,
    stats: seq<(ChunkId, SeriesId, Stats)>,
    files: seq<(ChunkId, Meta)>)

  /** The pairs of a map, each once, in some iteration order. */
  ghost predicate Lists<K(!new), V>(ps: seq<(K, V)>, m: map<K, V>) {
    && (forall i :: 0 <= i < |ps| ==> ps[i].0 in m && m[ps[i].0] == ps[i].1)
    && (forall k :: k in m ==> exists i :: 0 <= i < |ps| && ps[i].0 == k)
    && (forall i, j :: 0 <= i < j < |ps| ==> ps[i].0 != ps[j].0)
  }

  ghost predicate ListsTimes(ps: seq<(SeriesId, seq<(i64, SeriesChunk)>)>, m: TimeIndex) {
    && (forall i :: 0 <= i < |ps| ==> ps[i].0 in m && Lists(ps[i].1, m[ps[i].0]))
    && (forall k :: k in m ==> exists i :: 0 <= i < |ps| && ps[i].0 == k)
  }

  ghost predicate ListsStats(ps: seq<(ChunkId, SeriesId, Stats)>, m: map<(ChunkId, SeriesId), Stats>) {
    && (forall i :: 0 <= i < |ps| ==> (ps[i].0, ps[i].1) in m && m[(ps[i].0, ps[i].1)] == ps[i].2)
    && (forall k :: k in m ==> exists i :: 0 <= i < |ps| && (ps[i].0, ps[i].1) == k)
  }

  /** `snap` is a snapshot of `x`, whatever order the maps were iterated in. */
  ghost predicate Saves(snap: Snapshot, x: Index, watermarks: seq<nat>) {
    && snap.version == SNAPSHOT_VERSION
    && snap.watermarks == watermarks
    && Lists(snap.registry, x.registry)
    && ListsTimes(snap.times, x.times)
    && ListsStats(snap.stats, x.stats)
    && Lists(snap.files, x.files)
  }

  // ----- Rebuilding -----

  function Collected<K, V>(ps: seq<(K, V)>): map<K, V> {
    if ps == [] then map[] else Collected(ps[..|ps| - 1])[ps[|ps| - 1].0 := ps[|ps| - 1].1]
  }

  function CollectedTimes(ps: seq<(SeriesId, seq<(i64, SeriesChunk)>)>): TimeIndex {
    if ps == [] then map[] else CollectedTimes(ps[..|ps| - 1])[ps[|ps| - 1].0 := Collected(ps[|ps| - 1].1)]
  }

  function CollectedStats(ps: seq<(ChunkId, SeriesId, Stats)>): map<(ChunkId, SeriesId), Stats> {
    if ps == [] then map[]
    else
      var p := ps[|ps| - 1];
      CollectedStats(ps[..|ps| - 1])[(p.0, p.1) := p.2]
  }

  function CollectedTags(ps: seq<(SeriesId, SeriesKey)>): TagIndex {
    if ps == [] then map[]
    else
      var (id, key) := ps[|ps| - 1];
      WithTags(CollectedTags(ps[..|ps| - 1]), key, SeriesKeys.SortedKeys(key.tags.Keys), id)
  }

  function Rebuilt(snap: Snapshot): Index {
    Index(Collected(snap.registry), CollectedTimes(snap.times), CollectedTags(snap.registry),
          CollectedStats(snap.stats), Collected(snap.files))
  }

  /** A snapshot of another version is discarded. */
  function Loaded(snap: Snapshot): Option<(Index, seq<nat>)> {
    if snap.version != SNAPSHOT_VERSION then None else Some((Rebuilt(snap), snap.watermarks))
  }

  /** The tag index is rebuilt from the tags of the registered keys. */
  method RebuildTags(ps: seq<(SeriesId, SeriesKey)>) returns (tags: TagIndex)
    ensures tags == CollectedTags(ps)
  {
    hide WithTags, SeriesKeys.SortedKeys;
    tags := map[];
    for i := 0 to |ps|
      invariant tags == CollectedTags(ps[..i])
    {
      assert ps[..i + 1][..i] == ps[..i];
      tags := AddTags(tags, ps[i].1, ps[i].0);
    }
    assert ps[..|ps|] == ps;
  }

  // ----- Round trip -----

  lemma {:induction false} CollectedKeys<K(!new), V>(ps: seq<(K, V)>)
    ensures forall k :: k in Collected(ps) <==> exists i :: 0 <= i < |ps| && ps[i].0 == k
    ensures forall k :: k in Collected(ps) ==> exists i :: 0 <= i < |ps| && ps[i] == (k, Collected(ps)[k])
  {
    if ps != [] {
      var n := |ps| - 1;
      CollectedKeys(ps[..n]);
      forall k | k in Collected(ps) ensures exists i :: 0 <= i < |ps| && ps[i] == (k, Collected(ps)[k]) {
        if k == ps[n].0 {
          assert ps[n] == (k, Collected(ps)[k]);
        } else {
          var i :| 0 <= i < |ps[..n]| && ps[..n][i] == (k, Collected(ps[..n])[k]);
          assert ps[i] == (k, Collected(ps)[k]);
        }
      }
      forall i | 0 <= i < |ps| ensures ps[i].0 in Collected(ps) {
        if i < n {
          assert ps[..n][i].0 in Collected(ps[..n]);
        }
      }
    }
  }

  lemma CollectedIs<K(!new), V>(ps: seq<(K, V)>, m: map<K, V>)
    requires Lists(ps, m)
    ensures Collected(ps) == m
  {
    CollectedKeys(ps);
  }

  lemma {:induction false} CollectedTimesAre(ps: seq<(SeriesId, seq<(i64, SeriesChunk)>)>, m: TimeIndex)
    requires forall i :: 0 <= i < |ps| ==> ps[i].0 in m && Lists(ps[i].1, m[ps[i].0])
    ensures forall k :: k in CollectedTimes(ps) <==> exists i :: 0 <= i < |ps| && ps[i].0 == k
    ensures forall k :: k in CollectedTimes(ps) ==> k in m && CollectedTimes(ps)[k] == m[k]
  {
    if ps != [] {
      var n := |ps| - 1;
      CollectedTimesAre(ps[..n], m);
      CollectedIs(ps[n].1, m[ps[n].0]);
      forall i | 0 <= i < |ps| ensures ps[i].0 in CollectedTimes(ps) {
        if i < n {
          assert ps[..n][i].0 in CollectedTimes(ps[..n]);
        }
      }
      forall k | k in CollectedTimes(ps) && k != ps[n].0 ensures exists i :: 0 <= i < |ps| && ps[i].0 == k {
        var i :| 0 <= i < n && ps[..n][i].0 == k;
        assert ps[i].0 == k;
      }
    }
  }

  lemma {:induction false} CollectedStatsAre(ps: seq<(ChunkId, SeriesId, Stats)>, m: map<(ChunkId, SeriesId), Stats>)
    requires forall i :: 0 <= i < |ps| ==> (ps[i].0, ps[i].1) in m && m[(ps[i].0, ps[i].1)] == ps[i].2
    ensures forall k :: k in CollectedStats(ps) ==> k in m && CollectedStats(ps)[k] == m[k]
    ensures forall i :: 0 <= i < |ps| ==> (ps[i].0, ps[i].1) in CollectedStats(ps)
  {
    if ps != [] {
      var n := |ps| - 1;
      CollectedStatsAre(ps[..n], m);
      forall i | 0 <= i < |ps| ensures (ps[i].0, ps[i].1) in CollectedStats(ps) {
        if i < n {
          assert (ps[..n][i].0, ps[..n][i].1) in CollectedStats(ps[..n]);
        }
      }
    }
  }

  lemma {:induction false} CollectedTagsExact(ps: seq<(SeriesId, SeriesKey)>)
    requires forall i, j :: 0 <= i < j < |ps| ==> ps[i].0 != ps[j].0
    ensures TagsExact(Collected(ps), CollectedTags(ps))
  {
    if ps != [] {
      var n := |ps| - 1;
      CollectedTagsExact(ps[..n]);
      CollectedKeys(ps[..n]);
      hide TagsExact, WithTags;
      assert ps[n].0 !in Collected(ps[..n]);
      NewTags(Collected(ps[..n]), CollectedTags(ps[..n]), ps[n].1, SeriesKeys.SortedKeys(ps[n].1.tags.Keys), ps[n].0);
    }
  }

  /** A registry has only one exact tag index. */
  lemma TagsUnique(registry: Registry, a: TagIndex, b: TagIndex)
    requires TagsExact(registry, a) && TagsExact(registry, b)
    ensures a == b
  {
    forall tag | tag in a ensures tag in b && a[tag] <= b[tag] {
      TagsIncluded(registry, a, b, tag.0, tag.1);
    }
    forall tag | tag in b ensures tag in a && b[tag] <= a[tag] {
      TagsIncluded(registry, b, a, tag.0, tag.1);
    }
    assert a.Keys == b.Keys && forall tag :: tag in a ==> a[tag] == b[tag];
  }

  lemma TagsIncluded(registry: Registry, a: TagIndex, b: TagIndex, k: Text, v: Text)
    requires TagsExact(registry, a) && TagsExact(registry, b) && (k, v) in a
    ensures (k, v) in b && a[(k, v)] <= b[(k, v)]
  {
    var id :| id in a[(k, v)];
    forall i | i in a[(k, v)] ensures (k, v) in b && i in b[(k, v)] {
      assert (k, registry[i].tags[k]) == (k, v);
    }
  }

  /** Loading a snapshot restores the index it was taken of, and its watermarks. */
  lemma SnapshotRoundTrip(hash: Hash, snap: Snapshot, x: Index, watermarks: seq<nat>)
    requires IndexOk(hash, x) && Saves(snap, x, watermarks)
    ensures Loaded(snap) == Some((x, watermarks))
  {
    hide TagsExact, TimesExact, FilesExact, Lists, ListsTimes, ListsStats, Collected, CollectedTimes, CollectedStats, CollectedTags;
    CollectedIs(snap.registry, x.registry);
    CollectedIs(snap.files, x.files);
    TimesBack(snap.times, x.times);
    StatsBack(snap.stats, x.stats);
    TagsBack(snap.registry, x.registry);
    TagsUnique(x.registry, CollectedTags(snap.registry), x.tags);
  }

  /** A snapshot is discarded exactly when its version is not 2; its maps and watermarks are taken as they are. */
  lemma LoadedExact(snap: Snapshot)
    ensures Loaded(snap).Some? <==> snap.version == 2
    ensures Loaded(snap).Some? ==>
      var (x, watermarks) := Loaded(snap).value;
      && watermarks == snap.watermarks
      && (forall id :: id in x.registry <==> exists i :: 0 <= i < |snap.registry| && snap.registry[i].0 == id)
      && (forall c :: c in x.files <==> exists i :: 0 <= i < |snap.files| && snap.files[i].0 == c)
  {
    hide CollectedTimes, CollectedStats, CollectedTags, Collected;
    CollectedKeys(snap.registry);
    CollectedKeys(snap.files);
  }

  lemma TagsBack(ps: seq<(SeriesId, SeriesKey)>, m: Registry)
    requires Lists(ps, m)
    ensures TagsExact(m, CollectedTags(ps))
  {
    hide TagsExact, Collected, CollectedTags;
    CollectedIs(ps, m);
    CollectedTagsExact(ps);
  }

  lemma TimesBack(ps: seq<(SeriesId, seq<(i64, SeriesChunk)>)>, m: TimeIndex)
    requires ListsTimes(ps, m)
    ensures CollectedTimes(ps) == m
  {
    hide Lists, CollectedTimes;
    CollectedTimesAre(ps, m);
  }

  lemma StatsBack(ps: seq<(ChunkId, SeriesId, Stats)>, m: map<(ChunkId, SeriesId), Stats>)
    requires ListsStats(ps, m)
    ensures CollectedStats(ps) == m
  {
    hide CollectedStats;
    CollectedStatsAre(ps, m);
  }
}
