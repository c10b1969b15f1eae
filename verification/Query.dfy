/** Answering a query from the memtables and the chunk files. */
module Query {
  import opened Types
  import opened ChunkIndex
  import opened Merging
  import opened Compaction
  import opened ChunkStore
  import Memtable
  import Runs = CompactionRuns
  import Theorems = CompactionTheorems

  /** One streamed result. */
  datatype Hit = Hit(series: SeriesId, ts: i64, value: F64)

  /** Where a point is stored. */
  datatype Loc = Mem(shard: nat) | Chunk(id: ChunkId)

  /** A stored point together with its place. */
  datatype Found = Found(loc: Loc, key: SeriesKey, ts: i64, value: F64)

  type Item = (Loc, SeriesKey)

  datatype Request = Request(metric: Text, filters: map<Text, Text>, lo: i64, hi: i64)

  /** Everything that is stored: the memtables of all shards, and the chunk store. */
  datatype Data = Data(mems: seq<Memtable.Table>, store: Store)

  function TableAt(d: Data, loc: Loc): Memtable.Table {
    match loc
    case Mem(i) => if i < |d.mems| then d.mems[i] else map[]
    case Chunk(c) => if c in d.store.index.files && c in d.store.disk then d.store.disk[c] else map[]
  }

  /** The full scan: every stored point of a selected series within the time range. */
  ghost predicate Wanted(d: Data, q: Request, f: Found) {
    && f.key.metric == q.metric
    && (forall k :: k in q.filters ==> k in f.key.tags && f.key.tags[k] == q.filters[k])
    && q.lo <= f.ts <= q.hi
    && Memtable.Holds(TableAt(d, f.loc), f.key, f.ts, f.value)
  }

  /** All wanted points, each once. */
  ghost predicate Lists(d: Data, q: Request, found: seq<Found>) {
    NoDup(found) && forall f :: f in found <==> Wanted(d, q, f)
  }

  /** The hits are those of a full scan, in some order: one for every wanted point, with its id, time and value, and no others. */
  ghost predicate FullScan(hash: Hash, d: Data, q: Request, hits: seq<Hit>) {
    exists found: seq<Found> :: Lists(d, q, found) && |hits| == |found| &&
      forall i :: 0 <= i < |hits| ==> hits[i].series == hash(found[i].key) && hits[i].ts == found[i].ts && hits[i].value == found[i].value
  }

  ghost predicate DataOk(hash: Hash, d: Data) {
    StoreOk(hash, d.store) && forall i :: 0 <= i < |d.mems| ==> Memtable.TableOk(d.mems[i])
  }

  ghost predicate NoDup<T>(s: seq<T>) {
    forall i, j :: 0 <= i < j < |s| ==> s[i] != s[j]
  }

  lemma NoDupConcat<T>(a: seq<T>, b: seq<T>)
    requires NoDup(a) && NoDup(b) && forall x :: x in a ==> x !in b
    ensures NoDup(a + b)
  {
    var s := a + b;
    forall i, j | 0 <= i < j < |s| ensures s[i] != s[j] {
      if i < |a| <= j {
        assert s[i] in a && s[j] in b;
      }
    }
  }

  // ----- The points of a list of places -----

  ghost function Tagged(loc: Loc, key: SeriesKey, v: Points): seq<Found> {
    seq(|v|, i requires 0 <= i < |v| => Found(loc, key, v[i].0, v[i].1))
  }

  ghost function PointsAt(d: Data, q: Request, item: Item): Points {
    InRange(Memtable.Series(TableAt(d, item.0), item.1), q.lo, q.hi)
  }

  ghost function Answer(d: Data, q: Request, items: seq<Item>): seq<Found> {
    if items == [] then []
    else
      var n := |items| - 1;
      Answer(d, q, items[..n]) + Tagged(items[n].0, items[n].1, PointsAt(d, q, items[n]))
  }

  function Responses(hash: Hash, found: seq<Found>): seq<Hit> {
    seq(|found|, i requires 0 <= i < |found| => Hit(hash(found[i].key), found[i].ts, found[i].value))
  }

  lemma {:induction false} InRangeSorted(v: Points, lo: i64, hi: i64)
    requires Memtable.Sorted(v)
    ensures Memtable.Sorted(InRange(v, lo, hi))
  {
    if v != [] {
      InRangeSorted(v[1..], lo, hi);
      InRangeExact(v[1..], lo, hi);
      var rest := InRange(v[1..], lo, hi);
      forall i | 0 <= i < |rest| ensures v[0].0 < rest[i].0 {
        assert rest[i] in rest;
      }
      Memtable.SortedCons(v[0], rest);
    }
  }

  lemma TaggedIs(d: Data, q: Request, item: Item, f: Found)
    requires Memtable.TableOk(TableAt(d, item.0))
    ensures f in Tagged(item.0, item.1, PointsAt(d, q, item)) <==>
            (f.loc, f.key) == item && q.lo <= f.ts <= q.hi && Memtable.Holds(TableAt(d, f.loc), f.key, f.ts, f.value)
    ensures NoDup(Tagged(item.0, item.1, PointsAt(d, q, item)))
  {
    var v, ps := Memtable.Series(TableAt(d, item.0), item.1), PointsAt(d, q, item);
    InRangeExact(v, q.lo, q.hi);
    InRangeSorted(v, q.lo, q.hi);
    hide TableAt;
    var tagged := Tagged(item.0, item.1, ps);
    if (f.loc, f.key) == item && (f.ts, f.value) in ps {
      var i :| 0 <= i < |ps| && ps[i] == (f.ts, f.value);
      assert tagged[i] == f;
    }
    if f in tagged {
      var i :| 0 <= i < |tagged| && tagged[i] == f;
      assert ps[i] in ps;
    }
  }

  /** Reading distinct places yields every point in range of each of them, once. */
  lemma {:induction false} AnswerIs(d: Data, q: Request, items: seq<Item>)
    requires NoDup(items) && forall i :: 0 <= i < |items| ==> Memtable.TableOk(TableAt(d, items[i].0))
    ensures forall f :: f in Answer(d, q, items) <==>
              (f.loc, f.key) in items && q.lo <= f.ts <= q.hi && Memtable.Holds(TableAt(d, f.loc), f.key, f.ts, f.value)
    ensures NoDup(Answer(d, q, items))
  {
    if items != [] {
      var n := |items| - 1;
      var item, tagged := items[n], Tagged(items[n].0, items[n].1, PointsAt(d, q, items[n]));
      AnswerIs(d, q, items[..n]);
      assert items == items[..n] + [item];
      assert item !in items[..n];
      hide TableAt, Tagged, PointsAt, Memtable.Holds, Memtable.TableOk;
      forall f ensures f in tagged <==> (f.loc, f.key) == item && q.lo <= f.ts <= q.hi && Memtable.Holds(TableAt(d, f.loc), f.key, f.ts, f.value) {
        TaggedIs(d, q, item, f);
      }
      TaggedIs(d, q, item, Found(item.0, item.1, 0, 0));
      NoDupConcat(Answer(d, q, items[..n]), tagged);
    }
  }

  lemma AnswerSnoc(d: Data, q: Request, items: seq<Item>, item: Item)
    ensures Answer(d, q, items + [item]) == Answer(d, q, items) + Tagged(item.0, item.1, PointsAt(d, q, item))
  {
    assert (items + [item])[..|items|] == items;
  }

  lemma {:induction false} AnswerConcat(d: Data, q: Request, a: seq<Item>, b: seq<Item>)
    ensures Answer(d, q, a + b) == Answer(d, q, a) + Answer(d, q, b)
  {
    if b == [] {
      assert a + b == a;
    } else {
      hide *;
      var n := |b| - 1;
      AnswerConcat(d, q, a, b[..n]);
      assert b == b[..n] + [b[n]] && a + b == a + b[..n] + [b[n]];
      AnswerSnoc(d, q, b[..n], b[n]);
      AnswerSnoc(d, q, a + b[..n], b[n]);
      Assoc(Answer(d, q, a), Answer(d, q, b[..n]), Tagged(b[n].0, b[n].1, PointsAt(d, q, b[n])));
    }
  }

  /** The hits are the responses for the points at the given places. */
  ghost predicate Delivers(hash: Hash, d: Data, q: Request, items: seq<Item>, hits: seq<Hit>) {
    hits == Responses(hash, Answer(d, q, items))
  }

  lemma DeliversConcat(hash: Hash, d: Data, q: Request, a: seq<Item>, b: seq<Item>, ha: seq<Hit>, hb: seq<Hit>)
    requires Delivers(hash, d, q, a, ha) && Delivers(hash, d, q, b, hb)
    ensures Delivers(hash, d, q, a + b, ha + hb)
  {
    AnswerConcat(d, q, a, b);
    hide Answer;
  }

  /** Streams the points of one series at one place. */
  method ReadSeries(hash: Hash, v: Points, id: SeriesId, ghost d: Data, q: Request, ghost item: Item) returns (hits: seq<Hit>)
    requires v == Memtable.Series(TableAt(d, item.0), item.1) && id == hash(item.1)
    ensures Delivers(hash, d, q, [item], hits)
    ensures forall h :: h in hits <==> h.series == hash(item.1) && (h.ts, h.value) in v && q.lo <= h.ts <= q.hi
  {
    var points := InRange(v, q.lo, q.hi);
    hits := seq(|points|, i requires 0 <= i < |points| => Hit(id, points[i].0, points[i].1));
    InRangeExact(v, q.lo, q.hi);
    hide TableAt, InRange;
    forall h ensures h in hits <==> h.series == id && (h.ts, h.value) in points {
      if h.series == id && (h.ts, h.value) in points {
        var i :| 0 <= i < |points| && points[i] == (h.ts, h.value);
        assert hits[i] == h;
      }
    }
    assert [item][..0] == [] && Answer(d, q, [item]) == Tagged(item.0, item.1, points);
  }

  // ----- Memtables -----

  /** The series of a memtable that a query selects. */
  function SelectedIn(t: Memtable.Table, q: Request): set<SeriesKey> {
    set k | k in t && Selects(q.metric, q.filters, k)
  }

  ghost predicate MemItems(i: nat, done: set<SeriesKey>, items: seq<Item>) {
    NoDup(items) && forall loc, k :: (loc, k) in items <==> loc == Mem(i) && k in done
  }

  /** The matching series of one shard: their hits, and the places these come from. */
  method ScanMemtable(hash: Hash, ghost d: Data, q: Request, i: nat, t: Memtable.Table) returns (hits: seq<Hit>, items: seq<Item>)
    requires i < |d.mems| && t == d.mems[i]
    ensures Delivers(hash, d, q, items, hits)
    ensures MemItems(i, SelectedIn(t, q), items)
  {
    var all := SelectedIn(t, q);
    var left := all;
    hits, items := [], [];
    while left != {}
      invariant left <= all && MemItems(i, all - left, items) && Delivers(hash, d, q, items, hits)
      decreases |left|
    {
      var k :| k in left;
      var item := (Mem(i), k);
      hide Delivers;
      var more := ReadSeries(hash, t[k], hash(k), d, q, item);
      DeliversConcat(hash, d, q, items, [item], hits, more);
      MemItemsSnoc(i, all - left, items, k);
      hits, items := hits + more, items + [item];
      assert all - (left - {k}) == all - left + {k};
      left := left - {k};
    }
    assert all - {} == all;
  }

  lemma MemItemsSnoc(i: nat, done: set<SeriesKey>, items: seq<Item>, k: SeriesKey)
    requires MemItems(i, done, items) && k !in done
    ensures MemItems(i, done + {k}, items + [(Mem(i), k)])
  {
    NoDupConcat(items, [(Mem(i), k)]);
  }

  // ----- Chunk files -----

  ghost predicate ChunkItems(x: Index, id: SeriesId, done: set<SeriesChunk>, items: seq<Item>)
    requires id in x.registry
  {
    && NoDup(items)
    && forall loc, k :: (loc, k) in items <==> k == x.registry[id] && exists e :: e in done && loc == Chunk(e.chunk)
  }

  lemma ChunkItemsSnoc(x: Index, id: SeriesId, done: set<SeriesChunk>, items: seq<Item>, e: SeriesChunk)
    requires id in x.registry && ChunkItems(x, id, done, items) && forall e' :: e' in done ==> e'.chunk != e.chunk
    ensures ChunkItems(x, id, done + {e}, items + [(Chunk(e.chunk), x.registry[id])])
  {
    var item := (Chunk(e.chunk), x.registry[id]);
    var more := items + [item];
    NoDupConcat(items, [item]);
    forall loc, k ensures (loc, k) in more <==> k == x.registry[id] && exists e' :: e' in done + {e} && loc == Chunk(e'.chunk) {
      assert (loc, k) in more <==> (loc, k) in items || (loc, k) == item;
      if e' :| e' in done && loc == Chunk(e'.chunk) {
        assert e' in done + {e};
      }
      if loc == Chunk(e.chunk) {
        assert e in done + {e};
      }
    }
  }

  /** The entries of one series lead to different live chunks that hold the series. */
  lemma EntriesLive(hash: Hash, s: Store, id: SeriesId, lo: i64, hi: i64, e: SeriesChunk)
    requires StoreOk(hash, s) && e in Pruned(s.index, id, lo, hi, None)
    ensures id in s.index.registry && hash(s.index.registry[id]) == id
    ensures e.series == id && e.chunk in s.index.files && e.chunk in s.disk && s.index.registry[id] in s.disk[e.chunk]
    ensures s.disk[e.chunk][s.index.registry[id]] != [] && e.start == s.disk[e.chunk][s.index.registry[id]][0].0
    ensures TimeAt(s.index, id, e.start) == Some(e)
  {
    var t :| t in TimeMap(s.index.times, id) && TimeMap(s.index.times, id)[t] == e;
    assert TimeAt(s.index, id, t) == Some(e);
    assert Owned(s, id, t);
  }

  /** The surviving chunks of one series: their hits, and the places these come from. */
  method ScanChunks(index: ChunkIndex, disk: Disk, ghost d: Data, q: Request, id: SeriesId) returns (hits: seq<Hit>, items: seq<Item>)
    requires StoreOk(index.hash, d.store) && d.store == Store(index.View(), disk) && id in index.registry
    ensures Delivers(index.hash, d, q, items, hits)
    ensures ChunkItems(d.store.index, id, Pruned(d.store.index, id, q.lo, q.hi, None), items)
  {
    hide StoreOk, Pruned, Memtable.TableOk;
    ghost var x := d.store.index;
    var all := Pruned(index.View(), id, q.lo, q.hi, None);
    var left := all;
    hits, items := [], [];
    while left != {}
      invariant left <= all && ChunkItems(x, id, all - left, items) && Delivers(index.hash, d, q, items, hits)
      decreases |left|
    {
      hide Delivers, ChunkItems;
      var e :| e in left;
      EntriesLive(index.hash, d.store, id, q.lo, q.hi, e);
      if e.chunk in index.files && e.series in index.registry && e.chunk in disk {
        var key := index.registry[e.series];
        var item := (Chunk(e.chunk), key);
        var more := ReadSeries(index.hash, Memtable.Series(disk[e.chunk], key), e.series, d, q, item);
        DeliversConcat(index.hash, d, q, items, [item], hits, more);
        OtherChunks(index.hash, d.store, id, q.lo, q.hi, all - left, e);
        ChunkItemsSnoc(x, id, all - left, items, e);
        hits, items := hits + more, items + [item];
      }
      assert all - (left - {e}) == all - left + {e};
      left := left - {e};
    }
    assert all - {} == all;
  }

  lemma OtherChunks(hash: Hash, s: Store, id: SeriesId, lo: i64, hi: i64, done: set<SeriesChunk>, e: SeriesChunk)
    requires StoreOk(hash, s) && done <= Pruned(s.index, id, lo, hi, None) && e in Pruned(s.index, id, lo, hi, None) && e !in done
    ensures forall e' :: e' in done ==> e'.chunk != e.chunk
  {
    hide StoreOk, Pruned, TimeAt;
    forall e' | e' in done ensures e'.chunk != e.chunk {
      EntriesLive(hash, s, id, lo, hi, e);
      EntriesLive(hash, s, id, lo, hi, e');
    }
  }

  // ----- The whole query -----

  ghost predicate ShardsDone(d: Data, q: Request, n: nat, items: seq<Item>)
    requires n <= |d.mems|
  {
    && NoDup(items)
    && forall loc, k :: (loc, k) in items <==> loc.Mem? && loc.shard < n && k in SelectedIn(d.mems[loc.shard], q)
  }

  lemma ShardsDoneSnoc(d: Data, q: Request, n: nat, items: seq<Item>, more: seq<Item>)
    requires n < |d.mems| && ShardsDone(d, q, n, items) && MemItems(n, SelectedIn(d.mems[n], q), more)
    ensures ShardsDone(d, q, n + 1, items + more)
  {
    hide SelectedIn;
    forall item | item in items ensures item !in more {
      assert (item.0, item.1) in items;
      assert (item.0, item.1) !in more;
    }
    NoDupConcat(items, more);
    hide NoDup;
    forall loc, k ensures (loc, k) in items + more <==> loc.Mem? && loc.shard < n + 1 && k in SelectedIn(d.mems[loc.shard], q) {
      assert (loc, k) in items + more <==> (loc, k) in items || (loc, k) in more;
    }
  }

  method ScanMemtables(hash: Hash, mems: seq<Memtable.Table>, ghost d: Data, q: Request) returns (hits: seq<Hit>, items: seq<Item>)
    requires mems == d.mems
    ensures Delivers(hash, d, q, items, hits) && ShardsDone(d, q, |mems|, items)
  {
    hits, items := [], [];
    for i := 0 to |mems|
      invariant Delivers(hash, d, q, items, hits) && ShardsDone(d, q, i, items)
    {
      hide Delivers, ShardsDone, MemItems, SelectedIn;
      var more, found := ScanMemtable(hash, d, q, i, mems[i]);
      DeliversConcat(hash, d, q, items, found, hits, more);
      ShardsDoneSnoc(d, q, i, items, found);
      hits, items := hits + more, items + found;
    }
  }

  /** The index leads from series `id` to the place. */
  ghost predicate Leads(x: Index, q: Request, id: SeriesId, loc: Loc, k: SeriesKey) {
    id in x.registry && k == x.registry[id] && exists e :: e in Pruned(x, id, q.lo, q.hi, None) && loc == Chunk(e.chunk)
  }

  ghost predicate SeriesDone(hash: Hash, x: Index, q: Request, done: set<SeriesId>, items: seq<Item>) {
    NoDup(items) && forall loc, k :: (loc, k) in items <==> hash(k) in done && Leads(x, q, hash(k), loc, k)
  }

  lemma SeriesDoneSnoc(hash: Hash, x: Index, q: Request, done: set<SeriesId>, items: seq<Item>, id: SeriesId, more: seq<Item>)
    requires IndexOk(hash, x) && id in x.registry && id !in done && SeriesDone(hash, x, q, done, items)
    requires ChunkItems(x, id, Pruned(x, id, q.lo, q.hi, None), more)
    ensures SeriesDone(hash, x, q, done + {id}, items + more)
  {
    assert hash(x.registry[id]) == id;
    hide IndexOk, Pruned;
    forall item | item in items ensures item !in more {
      assert (item.0, item.1) in items;
      assert (item.0, item.1) !in more;
    }
    NoDupConcat(items, more);
    hide NoDup;
    forall loc, k ensures (loc, k) in items + more <==> hash(k) in done + {id} && Leads(x, q, hash(k), loc, k) {
      assert (loc, k) in items + more <==> (loc, k) in items || (loc, k) in more;
    }
  }

  lemma NothingDone(hash: Hash, d: Data, q: Request)
    requires StoreOk(hash, d.store)
    ensures IndexOk(hash, d.store.index) && SeriesDone(hash, d.store.index, q, {}, []) && Delivers(hash, d, q, [], [])
  {
    hide IndexOk, Filed, Owned, Backed, Memtable.TableOk;
  }

  lemma ViewRegistry(index: ChunkIndex)
    ensures index.View().registry == index.registry
  {
  }

  lemma NaiveRegistered(x: Index, q: Request)
    ensures forall id :: id in Naive(x, q.metric, q.filters) ==> id in x.registry
  {
  }

  method ScanStore(index: ChunkIndex, disk: Disk, ghost d: Data, q: Request, order: seq<Text>) returns (hits: seq<Hit>, items: seq<Item>)
    requires StoreOk(index.hash, d.store) && d.store == Store(index.View(), disk)
    requires forall k :: k in order <==> k in q.filters
    ensures Delivers(index.hash, d, q, items, hits)
    ensures SeriesDone(index.hash, d.store.index, q, Naive(d.store.index, q.metric, q.filters), items)
  {
    hide *;
    ghost var x := d.store.index;
    ViewRegistry(index);
    NothingDone(index.hash, d, q);
    var all := index.ResolveSeries(q.metric, q.filters, order);
    NaiveRegistered(x, q);
    hits, items := [], [];
    var left := all;
    assert all - left == {};
    while left != {}
      invariant left <= all && SeriesDone(index.hash, x, q, all - left, items) && Delivers(index.hash, d, q, items, hits)
      decreases |left|
    {
      var id :| id in left;
      var more, found := ScanChunks(index, disk, d, q, id);
      DeliversConcat(index.hash, d, q, items, found, hits, more);
      SeriesDoneSnoc(index.hash, x, q, all - left, items, id, found);
      hits, items := hits + more, items + found;
      assert all - (left - {id}) == all - left + {id};
      left := left - {id};
    }
    assert all - {} == all;
  }

  /** No chunk that holds a wanted point is pruned. */
  lemma WantedLeads(hash: Hash, d: Data, q: Request, f: Found)
    requires StoreOk(hash, d.store) && Wanted(d, q, f) && f.loc.Chunk?
    ensures hash(f.key) in Naive(d.store.index, q.metric, q.filters) && Leads(d.store.index, q, hash(f.key), f.loc, f.key)
  {
    var s, c, id := d.store, f.loc.id, hash(f.key);
    assert Filed(hash, s, c, f.key);
    var v := s.disk[c][f.key];
    var e := TimeAt(s.index, id, v[0].0).value;
    assert Memtable.Sorted(v);
    assert v[0].0 <= f.ts <= e.end;
    assert TimeMap(s.index.times, id)[v[0].0] == e && Survives(s.index, v[0].0, e, q.lo, q.hi, None);
    assert e in Pruned(s.index, id, q.lo, q.hi, None);
  }

  lemma ItemsComplete(hash: Hash, d: Data, q: Request, mem: seq<Item>, chunk: seq<Item>)
    requires DataOk(hash, d) && ShardsDone(d, q, |d.mems|, mem)
    requires SeriesDone(hash, d.store.index, q, Naive(d.store.index, q.metric, q.filters), chunk)
    ensures NoDup(mem + chunk)
    ensures forall f :: Wanted(d, q, f) <==>
              (f.loc, f.key) in mem + chunk && q.lo <= f.ts <= q.hi && Memtable.Holds(TableAt(d, f.loc), f.key, f.ts, f.value)
  {
    forall item | item in mem ensures item !in chunk {
      assert (item.0, item.1) in mem;
      assert (item.0, item.1) !in chunk;
    }
    NoDupConcat(mem, chunk);
    hide DataOk, NoDup, Memtable.TableOk;
    forall f ensures Wanted(d, q, f) <==>
              (f.loc, f.key) in mem + chunk && q.lo <= f.ts <= q.hi && Memtable.Holds(TableAt(d, f.loc), f.key, f.ts, f.value) {
      assert (f.loc, f.key) in mem + chunk <==> (f.loc, f.key) in mem || (f.loc, f.key) in chunk;
      if f.loc.Chunk? && Wanted(d, q, f) {
        DataStore(hash, d);
        WantedLeads(hash, d, q, f);
      }
    }
  }

  lemma DataStore(hash: Hash, d: Data)
    requires DataOk(hash, d)
    ensures StoreOk(hash, d.store)
    ensures forall loc :: Memtable.TableOk(TableAt(d, loc))
  {
  }

  /**
   * A query over a store at rest returns the response of every stored point of every selected series
   * within the time range, each stored point once, and nothing else.
   */
  method RunQuery(mems: seq<Memtable.Table>, index: ChunkIndex, disk: Disk, q: Request, order: seq<Text>) returns (hits: seq<Hit>)
    requires DataOk(index.hash, Data(mems, Store(index.View(), disk)))
    requires forall k :: k in order <==> k in q.filters
    ensures FullScan(index.hash, Data(mems, Store(index.View(), disk)), q, hits)
  {
    ghost var d := Data(mems, Store(index.View(), disk));
    DataStore(index.hash, d);
    hide DataOk, StoreOk, Naive, TableAt, Wanted, ShardsDone, SeriesDone, Answer, NoDup, Responses, Memtable.TableOk, Memtable.Holds;
    var mem, memItems := ScanMemtables(index.hash, mems, d, q);
    var chunk, chunkItems := ScanStore(index, disk, d, q, order);
    hits := mem + chunk;
    ghost var items := memItems + chunkItems;
    DeliversConcat(index.hash, d, q, memItems, chunkItems, mem, chunk);
    ItemsComplete(index.hash, d, q, memItems, chunkItems);
    AnswerIs(d, q, items);
    ghost var found := Answer(d, q, items);
    RespondsTo(index.hash, found, hits);
    assert Lists(d, q, found);
  }

  lemma RespondsTo(hash: Hash, found: seq<Found>, hits: seq<Hit>)
    requires hits == Responses(hash, found)
    ensures |hits| == |found|
    ensures forall i :: 0 <= i < |hits| ==> hits[i].series == hash(found[i].key) && hits[i].ts == found[i].ts && hits[i].value == found[i].value
  {
  }

  function Shards(inserts: seq<seq<DataPoint>>): seq<Memtable.Table> {
    seq(|inserts|, i requires 0 <= i < |inserts| => Memtable.InsertedAll(map[], inserts[i]))
  }

  /** Every state reached by inserts into the shards and any run of flushes and compaction cycles can be queried. */
  lemma ReachableIsQueryable(hash: Hash, steps: seq<Runs.Step>, inserts: seq<seq<DataPoint>>)
    requires Theorems.Valid(hash, steps)
    ensures DataOk(hash, Data(Shards(inserts), Theorems.Run(hash, steps).store))
  {
    hide StoreOk, Memtable.InsertedAll, Memtable.TableOk;
    Theorems.RunInv(hash, steps);
    forall i | 0 <= i < |inserts| ensures Memtable.TableOk(Memtable.InsertedAll(map[], inserts[i])) {
      Memtable.TableIsLastWriteWins(inserts[i]);
    }
  }
}
