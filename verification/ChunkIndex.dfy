/** The in-memory index over all chunk files. */
module ChunkIndex {
  import opened Types
  import opened Pruning
  import SeriesKeys

  /** One series in one chunk file. */
  datatype SeriesChunk = SeriesChunk(chunk: ChunkId, series: SeriesId, start: i64, end: i64, size: nat)

  datatype Meta = Meta(fileSize: nat)

  type Registry = map<SeriesId, SeriesKey>
  type TimeIndex = map<SeriesId, map<i64, SeriesChunk>>
  type TagIndex = map<(Text, Text), set<SeriesId>>

  datatype Index = Index(
    registry: Registry,
    times: TimeIndex,
    tags: TagIndex,
    stats: map<(ChunkId, SeriesId), Stats>,
    files: map<ChunkId, Meta>)

  /** The hash that turns a series key into its id. */
  type Hash = SeriesKey -> SeriesId

  function Empty(): Index {
    Index(map[], map[], map[], map[], map[])
  }

  function TagSet(tags: TagIndex, tag: (Text, Text)): set<SeriesId> {
    if tag in tags then tags[tag] else {}
  }

  /** Adds a series under each of its tags. */
  function WithTags(tags: TagIndex, key: SeriesKey, ks: seq<Text>, id: SeriesId): TagIndex
    requires forall k :: k in ks ==> k in key.tags
  {
    if ks == [] then tags
    else
      var n := |ks| - 1;
      var front := WithTags(tags, key, ks[..n], id);
      var tag := (ks[n], key.tags[ks[n]]);
      front[tag := TagSet(front, tag) + {id}]
  }

  /** Files a series under each of its tags. */
  method AddTags(before: TagIndex, key: SeriesKey, id: SeriesId) returns (tags: TagIndex)
    ensures tags == WithTags(before, key, SeriesKeys.SortedKeys(key.tags.Keys), id)
  {
    hide SeriesKeys.SortedKeys;
    var ks := SeriesKeys.SortedKeys(key.tags.Keys);
    tags := before;
    for i := 0 to |ks|
      invariant tags == WithTags(before, key, ks[..i], id)
    {
      assert ks[..i + 1][..i] == ks[..i];
      var tag := (ks[i], key.tags[ks[i]]);
      tags := tags[tag := (if tag in tags then tags[tag] else {}) + {id}];
    }
    assert ks[..|ks|] == ks;
  }

  function TimeMap(times: TimeIndex, id: SeriesId): map<i64, SeriesChunk> {
    if id in times then times[id] else map[]
  }

  /** A chunk of a series is added; tags are only indexed when the series id is new. */
  function Registered(hash: Hash, x: Index, key: SeriesKey, c: SeriesChunk, s: Stats, m: Meta): Index {
    var id := hash(key);
    Index(x.registry[id := key],
          x.times[id := TimeMap(x.times, id)[c.start := c]],
          if id in x.registry then x.tags else WithTags(x.tags, key, SeriesKeys.SortedKeys(key.tags.Keys), id),
          x.stats[(c.chunk, id) := s],
          x.files[c.chunk := m])
  }

  predicate Referenced(stats: map<(ChunkId, SeriesId), Stats>, chunk: ChunkId) {
    exists k :: k in stats && k.0 == chunk
  }

  /** A chunk of a series is removed; its time entry only if the chunk still owns it. */
  function Deregistered(x: Index, id: SeriesId, chunk: ChunkId, start: i64): Index {
    var stats := x.stats - {(chunk, id)};
    x.(times := if id in x.times && start in x.times[id] && x.times[id][start].chunk == chunk
                then x.times[id := x.times[id] - {start}] else x.times,
       stats := stats,
       files := if Referenced(stats, chunk) then x.files else x.files - {chunk})
  }

  /** The series a query selects, by looking at every registered key. */
  function Naive(x: Index, metric: Text, filters: map<Text, Text>): set<SeriesId> {
    set id | id in x.registry && Selects(metric, filters, x.registry[id])
  }

  /** Whether the chunk filed at start `t` may hold points of a query, by time and by statistics. */
  predicate Survives(x: Index, t: i64, c: SeriesChunk, lo: i64, hi: i64, pred: Option<Predicate>) {
    && t <= hi
    && lo <= c.end
    && (pred.None? || (c.chunk, c.series) !in x.stats || Matches(pred.value, x.stats[(c.chunk, c.series)]))
  }

  function Pruned(x: Index, id: SeriesId, lo: i64, hi: i64, pred: Option<Predicate>): set<SeriesChunk> {
    var m := TimeMap(x.times, id);
    set t | t in m && Survives(x, t, m[t], lo, hi, pred) :: m[t]
  }

  // ----- What every operation keeps -----

  /** The inverted tag index against the registry. */
  ghost predicate TagsExact(registry: Registry, tags: TagIndex) {
    && (forall k, v, id :: (k, v) in tags && id in tags[(k, v)] ==> id in registry && k in registry[id].tags && registry[id].tags[k] == v)
    && (forall id, k :: id in registry && k in registry[id].tags ==>
          (k, registry[id].tags[k]) in tags && id in tags[(k, registry[id].tags[k])])
    && (forall tag :: tag in tags ==> tags[tag] != {})
  }

  /** Every indexed chunk is filed under its own series and start. */
  ghost predicate TimesExact(x: Index) {
    && x.times.Keys == x.registry.Keys
    && forall id, t :: id in x.times && t in x.times[id] ==> x.times[id][t].start == t && x.times[id][t].series == id
  }

  ghost predicate FilesExact(x: Index) {
    forall c :: c in x.files <==> Referenced(x.stats, c)
  }

  ghost predicate IndexOk(hash: Hash, x: Index) {
    && (forall id :: id in x.registry ==> hash(x.registry[id]) == id)
    && TagsExact(x.registry, x.tags)
    && TimesExact(x)
    && FilesExact(x)
  }

  /** The hash tells the registered series and `key` apart. */
  ghost predicate NoCollision(hash: Hash, x: Index, key: SeriesKey) {
    forall id :: id in x.registry && hash(key) == id ==> x.registry[id] == key
  }

  lemma {:induction false} WithTagsAt(tags: TagIndex, key: SeriesKey, ks: seq<Text>, id: SeriesId, tag: (Text, Text))
    requires forall k :: k in ks ==> k in key.tags
    ensures var added := tag.0 in ks && key.tags[tag.0] == tag.1;
            && (tag in WithTags(tags, key, ks, id) <==> tag in tags || added)
            && TagSet(WithTags(tags, key, ks, id), tag) == TagSet(tags, tag) + (if added then {id} else {})
  {
    if ks != [] {
      var n := |ks| - 1;
      WithTagsAt(tags, key, ks[..n], id, tag);
      assert ks == ks[..n] + [ks[n]];
    }
  }

  lemma WithTagsIs(tags: TagIndex, key: SeriesKey, ks: seq<Text>, id: SeriesId)
    requires forall k :: k in ks ==> k in key.tags
    ensures forall k, v :: (k, v) in WithTags(tags, key, ks, id) <==> (k, v) in tags || (k in ks && key.tags[k] == v)
    ensures forall k, v, i :: i in TagSet(WithTags(tags, key, ks, id), (k, v)) <==>
              i in TagSet(tags, (k, v)) || (i == id && k in ks && key.tags[k] == v)
  {
    hide WithTags, TagSet;
    forall k, v ensures (k, v) in WithTags(tags, key, ks, id) <==> (k, v) in tags || (k in ks && key.tags[k] == v) {
      WithTagsAt(tags, key, ks, id, (k, v));
    }
    forall k, v, i ensures i in TagSet(WithTags(tags, key, ks, id), (k, v)) <==>
              i in TagSet(tags, (k, v)) || (i == id && k in ks && key.tags[k] == v) {
      WithTagsAt(tags, key, ks, id, (k, v));
    }
  }

  lemma RegisterTags(hash: Hash, x: Index, key: SeriesKey, c: SeriesChunk, s: Stats, m: Meta)
    requires IndexOk(hash, x) && NoCollision(hash, x, key)
    ensures TagsExact(Registered(hash, x, key, c, s, m).registry, Registered(hash, x, key, c, s, m).tags)
  {
    var id, ks := hash(key), SeriesKeys.SortedKeys(key.tags.Keys);
    if id in x.registry {
      assert x.registry[id := key] == x.registry;
    } else {
      NewTags(x.registry, x.tags, key, ks, id);
    }
  }

  lemma NewTags(registry: Registry, tags: TagIndex, key: SeriesKey, ks: seq<Text>, id: SeriesId)
    requires TagsExact(registry, tags) && id !in registry && forall k :: k in ks <==> k in key.tags
    ensures TagsExact(registry[id := key], WithTags(tags, key, ks, id))
  {
    var r, more := registry[id := key], WithTags(tags, key, ks, id);
    WithTagsIs(tags, key, ks, id);
    hide WithTags;
    forall tag | tag in more ensures more[tag] != {} {
      var (k, v) := tag;
      if (k, v) in tags {
        var i :| i in tags[(k, v)];
        assert i in TagSet(more, (k, v));
      } else {
        assert id in TagSet(more, (k, v));
      }
    }
    forall k, v, i | (k, v) in more && i in more[(k, v)] ensures i in r && k in r[i].tags && r[i].tags[k] == v {
      assert i in TagSet(more, (k, v));
    }
    forall i, k | i in r && k in r[i].tags ensures (k, r[i].tags[k]) in more && i in more[(k, r[i].tags[k])] {
      assert i in TagSet(more, (k, r[i].tags[k]));
    }
  }

  /** Registering a chunk keeps the index exact. */
  lemma RegisterOk(hash: Hash, x: Index, key: SeriesKey, c: SeriesChunk, s: Stats, m: Meta)
    requires IndexOk(hash, x) && NoCollision(hash, x, key) && c.series == hash(key)
    ensures IndexOk(hash, Registered(hash, x, key, c, s, m))
  {
    RegisterTags(hash, x, key, c, s, m);
    RegisterFiles(hash, x, key, c, s, m);
    RegisterTimes(hash, x, key, c, s, m);
    hide TagsExact, TimesExact, WithTags, FilesExact, NoCollision, TimeMap;
  }

  lemma RegisterTimes(hash: Hash, x: Index, key: SeriesKey, c: SeriesChunk, s: Stats, m: Meta)
    requires TimesExact(x) && c.series == hash(key)
    ensures TimesExact(Registered(hash, x, key, c, s, m))
  {
    hide WithTags;
    var id, x' := hash(key), Registered(hash, x, key, c, s, m);
    forall i, t | i in x'.times && t in x'.times[i] ensures x'.times[i][t].start == t && x'.times[i][t].series == i {
      if i == id && t != c.start {
        assert t in x.times[id] && x'.times[id][t] == x.times[id][t];
      }
    }
  }

  lemma RegisterFiles(hash: Hash, x: Index, key: SeriesKey, c: SeriesChunk, s: Stats, m: Meta)
    requires FilesExact(x)
    ensures FilesExact(Registered(hash, x, key, c, s, m))
  {
    hide WithTags;
    var x' := Registered(hash, x, key, c, s, m);
    forall d ensures d in x'.files <==> Referenced(x'.stats, d) {
      if d in x.files {
        var k :| k in x.stats && k.0 == d;
        assert k in x'.stats;
      } else if d == c.chunk {
        assert (c.chunk, hash(key)) in x'.stats;
      }
    }
  }

  /** Removing a chunk keeps the index exact: files stay as long as some series refers to them. */
  lemma DeregisterOk(hash: Hash, x: Index, id: SeriesId, chunk: ChunkId, start: i64)
    requires IndexOk(hash, x)
    ensures IndexOk(hash, Deregistered(x, id, chunk, start))
  {
    hide TagsExact;
    var x' := Deregistered(x, id, chunk, start);
    forall d ensures d in x'.files <==> Referenced(x'.stats, d) {
      if d != chunk && d in x.files {
        var k :| k in x.stats && k.0 == d;
        assert k in x'.stats;
      }
    }
  }

  datatype Op = Register(key: SeriesKey, c: SeriesChunk, s: Stats, m: Meta) | Deregister(id: SeriesId, chunk: ChunkId, start: i64)

  function Applied(hash: Hash, ops: seq<Op>): Index {
    if ops == [] then Empty()
    else
      var x := Applied(hash, ops[..|ops| - 1]);
      match ops[|ops| - 1]
      case Register(key, c, s, m) => Registered(hash, x, key, c, s, m)
      case Deregister(id, chunk, start) => Deregistered(x, id, chunk, start)
  }

  /** The hash tells the registered series apart, and chunks carry the id of their series. */
  ghost predicate Lawful(hash: Hash, ops: seq<Op>) {
    && (forall i :: 0 <= i < |ops| && ops[i].Register? ==> ops[i].c.series == hash(ops[i].key))
    && (forall i, j :: 0 <= i < |ops| && 0 <= j < |ops| && ops[i].Register? && ops[j].Register? ==>
          hash(ops[i].key) == hash(ops[j].key) ==> ops[i].key == ops[j].key)
  }

  lemma {:induction false} RegistryFrom(hash: Hash, ops: seq<Op>, id: SeriesId)
    requires id in Applied(hash, ops).registry
    ensures exists i :: 0 <= i < |ops| && ops[i].Register? && ops[i].key == Applied(hash, ops).registry[id] && hash(ops[i].key) == id
  {
    var n := |ops| - 1;
    if ops[n].Register? && hash(ops[n].key) == id {
      assert ops[n].key == Applied(hash, ops).registry[id];
    } else {
      RegistryFrom(hash, ops[..n], id);
      var i :| 0 <= i < n && ops[..n][i].Register? && ops[..n][i].key == Applied(hash, ops[..n]).registry[id] && hash(ops[..n][i].key) == id;
      assert ops[i].Register?;
    }
  }

  /** After any sequence of registrations and removals the index is exact. */
  lemma {:induction false} RunOk(hash: Hash, ops: seq<Op>)
    requires Lawful(hash, ops)
    ensures IndexOk(hash, Applied(hash, ops))
  {
    if ops != [] {
      var n := |ops| - 1;
      RunOk(hash, ops[..n]);
      var x := Applied(hash, ops[..n]);
      hide IndexOk, Registered, Deregistered;
      match ops[n] {
        case Register(key, c, s, m) =>
          forall id | id in x.registry && hash(key) == id ensures x.registry[id] == key {
            RegistryFrom(hash, ops[..n], id);
            var i :| 0 <= i < n && ops[..n][i].Register? && ops[..n][i].key == x.registry[id] && hash(ops[..n][i].key) == id;
            assert ops[i] == ops[..n][i];
          }
          RegisterOk(hash, x, key, c, s, m);
        case Deregister(id, chunk, start) =>
          DeregisterOk(hash, x, id, chunk, start);
      }
    }
  }

  // ----- The index object -----

  class ChunkIndex {
    const hash: Hash
    var registry: Registry
    var times: TimeIndex
    var tags: TagIndex
    var stats: map<(ChunkId, SeriesId), Stats>
    var files: map<ChunkId, Meta>

    function View(): Index
      reads this
    {
      Index(registry, times, tags, stats, files)
    }

    constructor (hash: Hash)
      ensures this.hash == hash && View() == Empty()
    {
      this.hash := hash;
      registry, times, tags, stats, files := map[], map[], map[], map[], map[];
    }

    method Register(key: SeriesKey, c: SeriesChunk, s: Stats, m: Meta) returns (id: SeriesId)
      modifies this
      ensures id == hash(key) && View() == Registered(hash, old(View()), key, c, s, m)
    {
      hide WithTags, SeriesKeys.SortedKeys;
      id := hash(key);
      var isNew := id !in registry;
      registry := registry[id := key];
      if isNew {
        tags := AddTags(tags, key, id);
      }
      times := times[id := (if id in times then times[id] else map[])[c.start := c]];
      stats := stats[(c.chunk, id) := s];
      files := files[c.chunk := m];
    }

    method Deregister(id: SeriesId, chunk: ChunkId, start: i64)
      modifies this
      ensures View() == Deregistered(old(View()), id, chunk, start)
    {
      if id in times {
        if start in times[id] && times[id][start].chunk == chunk {
          times := times[id := times[id] - {start}];
        }
      }
      stats := stats - {(chunk, id)};
      if !Referenced(stats, chunk) {
        files := files - {chunk};
      }
    }

    /** Narrows the candidates of the first filter by the other ones, in whatever order they are iterated. */
    method NarrowByTags(metric: Text, filters: map<Text, Text>, order: seq<Text>, first: set<SeriesId>) returns (ids: set<SeriesId>)
      requires order != [] && (forall k :: k in order ==> k in filters) && TagsExact(registry, tags)
      requires Narrowed(View(), metric, filters, [order[0]], first)
      ensures Narrowed(View(), metric, filters, order, ids)
    {
      ghost var x := View();
      assert x.registry == registry && x.tags == tags;
      hide *;
      ids := first;
      assert order[..1] == [order[0]];
      for i := 1 to |order|
        invariant Narrowed(x, metric, filters, order[..i], ids)
      {
        var tag := (order[i], filters[order[i]]);
        if tag !in tags {
          NoTagNoneLeft(x, metric, filters, order, order[i]);
          return {};
        }
        NarrowedStep(x, metric, filters, order[..i], order[i], ids);
        assert order[..i + 1] == order[..i] + [order[i]];
        ids := ids * tags[tag];
        if ids == {} {
          NoneLeft(x, metric, filters, order, i + 1);
          return {};
        }
      }
      assert order[..|order|] == order;
    }

    /** The series of a metric that carry all the given tags. */
    method ResolveSeries(metric: Text, filters: map<Text, Text>, order: seq<Text>) returns (ids: set<SeriesId>)
      requires IndexOk(hash, View())
      requires forall k :: k in order <==> k in filters
      ensures ids == Naive(View(), metric, filters)
    {
      ghost var x := View();
      assert TagsExact(x.registry, x.tags) && x.registry == registry && x.tags == tags;
      hide *;
      if order == [] {
        NoFilters(x, metric, filters);
        return set id | id in registry && registry[id].metric == metric;
      }
      var first := (order[0], filters[order[0]]);
      if first !in tags {
        NoTagNoneLeft(x, metric, filters, order, order[0]);
        ids := {};
      } else {
        var candidates := set id | id in tags[first] && id in registry && registry[id].metric == metric;
        NarrowedFirst(x, metric, filters, order[0], candidates);
        ids := NarrowByTags(metric, filters, order, candidates);
      }
      NarrowedAll(x, metric, filters, order, ids);
      ids := set id | id in ids && id in registry && registry[id].metric == metric;
    }
  }

  lemma NoFilters(x: Index, metric: Text, filters: map<Text, Text>)
    requires forall k :: k !in filters
    ensures Naive(x, metric, filters) == set id | id in x.registry && x.registry[id].metric == metric
  {
  }

  /** The candidates are the series of the metric that pass the filters looked at so far. */
  ghost predicate Narrowed(x: Index, metric: Text, filters: map<Text, Text>, done: seq<Text>, ids: set<SeriesId>)
    requires forall k :: k in done ==> k in filters
  {
    forall id :: id in ids <==>
      && id in x.registry
      && x.registry[id].metric == metric
      && forall k :: k in done ==> k in x.registry[id].tags && x.registry[id].tags[k] == filters[k]
  }

  lemma NarrowedFirst(x: Index, metric: Text, filters: map<Text, Text>, k: Text, ids: set<SeriesId>)
    requires TagsExact(x.registry, x.tags) && k in filters && (k, filters[k]) in x.tags
    requires ids == set id | id in x.tags[(k, filters[k])] && id in x.registry && x.registry[id].metric == metric
    ensures Narrowed(x, metric, filters, [k], ids)
  {
  }

  lemma NarrowedStep(x: Index, metric: Text, filters: map<Text, Text>, done: seq<Text>, k: Text, ids: set<SeriesId>)
    requires TagsExact(x.registry, x.tags) && k in filters && (k, filters[k]) in x.tags
    requires (forall j :: j in done ==> j in filters) && Narrowed(x, metric, filters, done, ids)
    ensures Narrowed(x, metric, filters, done + [k], ids * x.tags[(k, filters[k])])
  {
    assert forall j :: j in done + [k] <==> j in done || j == k;
  }

  lemma NarrowedAll(x: Index, metric: Text, filters: map<Text, Text>, order: seq<Text>, ids: set<SeriesId>)
    requires (forall k :: k in order <==> k in filters) && Narrowed(x, metric, filters, order, ids)
    ensures (set id | id in ids && id in x.registry && x.registry[id].metric == metric) == Naive(x, metric, filters)
  {
  }

  lemma NoTagNoneLeft(x: Index, metric: Text, filters: map<Text, Text>, order: seq<Text>, k: Text)
    requires TagsExact(x.registry, x.tags) && (forall j :: j in order ==> j in filters)
    requires k in order && (k, filters[k]) !in x.tags
    ensures Narrowed(x, metric, filters, order, {})
  {
  }

  lemma NoneLeft(x: Index, metric: Text, filters: map<Text, Text>, order: seq<Text>, i: nat)
    requires i <= |order| && (forall k :: k in order ==> k in filters) && Narrowed(x, metric, filters, order[..i], {})
    ensures Narrowed(x, metric, filters, order, {})
  {
    assert forall k :: k in order[..i] ==> k in order;
  }

  // ----- Pruning -----

  /** A column as the index describes it: time bounds from its ends, statistics from its values. */
  ghost predicate Describes(x: Index, c: SeriesChunk, column: seq<(i64, Float)>) {
    && column != []
    && (forall i, j :: 0 <= i < j < |column| ==> column[i].0 < column[j].0)
    && c.start == column[0].0 && c.end == column[|column| - 1].0
    && ((c.chunk, c.series) in x.stats ==>
          x.stats[(c.chunk, c.series)] == FromValues(seq(|column|, i requires 0 <= i < |column| => column[i].1)).value)
  }

  /**
    Exactly what pruning keeps of a series: the entries that start by the end of the range and end at its start or
    later, and, under a predicate, have no statistics or statistics that the predicate can meet.
  */
  lemma PrunedExact(x: Index, id: SeriesId, lo: i64, hi: i64, pred: Option<Predicate>, c: SeriesChunk)
    requires TimesExact(x)
    ensures c in Pruned(x, id, lo, hi, pred) <==>
      && id in x.times && c.start in x.times[id] && x.times[id][c.start] == c
      && c.start <= hi && lo <= c.end
      && (pred.Some? && (c.chunk, id) in x.stats ==> Matches(pred.value, x.stats[(c.chunk, id)]))
  {
    var m := TimeMap(x.times, id);
    if c in Pruned(x, id, lo, hi, pred) {
      var t :| t in m && Survives(x, t, m[t], lo, hi, pred) && m[t] == c;
      assert t == c.start;
    }
  }

  /** Pruning keeps every chunk that holds a point of the query, special values included. */
  lemma PruningNeverDropsMatch(x: Index, id: SeriesId, c: SeriesChunk, column: seq<(i64, Float)>, i: nat,
                               lo: i64, hi: i64, pred: Option<Predicate>)
    requires TimesExact(x) && c.start in TimeMap(x.times, id) && TimeMap(x.times, id)[c.start] == c
    requires Describes(x, c, column) && i < |column| && lo <= column[i].0 <= hi
    requires pred.Some? ==> Satisfies(pred.value, column[i].1)
    ensures c in Pruned(x, id, lo, hi, pred)
  {
    var vs := seq(|column|, i requires 0 <= i < |column| => column[i].1);
    assert vs[i] == column[i].1;
    if pred.Some? {
      StatsNeverDropMatch(vs, column[i].1, pred.value);
    }
    assert Survives(x, c.start, c, lo, hi, pred);
  }
}
