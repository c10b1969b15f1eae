/** The statistics the chunk writer reports, followed through runs of flushes and merges up to pruning. */
module ChunkStats {
  import opened Types
  import opened ChunkIndex
  import opened Merging
  import opened Compaction
  import opened ChunkStore
  import opened CompactionRuns
  import opened CompactionTheorems
  import opened Pruning
  import C = ChunkWriter
  import T = ChunkRoundTrip
  import ChunkTables
  import Memtable

  /** The number a bit pattern stands for. */
  type Decode = F64 -> Float

  function Numbers(num: Decode, vs: seq<F64>): (ns: seq<Float>)
    ensures |ns| == |vs| && forall i :: 0 <= i < |vs| ==> ns[i] == num(vs[i])
  {
    seq(|vs|, i requires 0 <= i < |vs| => num(vs[i]))
  }

  /** A series of a table as the index describes it: times and numbers. */
  function ColumnOf(num: Decode, ps: Points): (column: seq<(i64, Float)>)
    ensures |column| == |ps| && forall i :: 0 <= i < |ps| ==> column[i] == (ps[i].0, num(ps[i].1))
  {
    seq(|ps|, i requires 0 <= i < |ps| => (ps[i].0, num(ps[i].1)))
  }

  function StatsOf(num: Decode, ps: Points): Stats
    requires ps != []
  {
    FromValues(Numbers(num, C.Values(ps))).value
  }

  // ----- The writer -----

  /** The library's minimum and maximum are the folds of the numbers. */
  ghost predicate Folds(lib: C.Lib, num: Decode) {
    forall vs :: vs != [] ==> num(lib.minOf(vs)) == FoldMin(Numbers(num, vs)) && num(lib.maxOf(vs)) == FoldMax(Numbers(num, vs))
  }

  function Reported(num: Decode): C.SeriesResult -> Stats {
    (r: C.SeriesResult) => Stats(num(r.min), num(r.max))
  }

  /** Every report carries the statistics of its series. */
  ghost predicate StatsTrue(num: Decode, ws: seq<Written>, t: Memtable.Table) {
    forall i :: 0 <= i < |ws| ==> ws[i].key in t && t[ws[i].key] != [] && ws[i].stats == StatsOf(num, t[ws[i].key])
  }

  lemma RowStats(lib: C.Lib, num: Decode, row: C.Row)
    requires Folds(lib, num) && row.points != []
    ensures Reported(num)(C.ResultOf(C.EncodeRow(lib, row))) == StatsOf(num, row.points)
  {
    var vs := C.Values(row.points);
    assert vs != [];
  }

  /** The chunk writer's reports are true of the table it writes. */
  lemma WriterStatsTrue(lib: C.Lib, num: Decode, hash: Hash, id: ChunkId, rows: seq<C.Row>, t: Memtable.Table)
    requires Folds(lib, num) && ChunkTables.RowsOf(rows, t) && Memtable.TableOk(t)
    ensures StatsTrue(num, ChunkTables.Entries(hash, id, C.ResultsOf(C.EncodeRows(lib, rows)), Reported(num)), t)
  {
    hide Folds, C.EncodeRows, C.EncodeRow, T.Live, StatsOf, Memtable.Sorted;
    T.EncodedLive(lib, rows);
    ChunkTables.AllLive(rows, t);
    var es := C.EncodeRows(lib, rows);
    var ws := ChunkTables.Entries(hash, id, C.ResultsOf(es), Reported(num));
    forall i | 0 <= i < |ws| ensures ws[i].key in t && t[ws[i].key] != [] && ws[i].stats == StatsOf(num, t[ws[i].key]) {
      RowStats(lib, num, rows[i]);
      ChunkTables.RowReported(lib, hash, id, rows[i], t, Reported(num)(C.ResultOf(es[i])));
    }
  }

  // ----- The index -----

  predicate Concerns(hash: Hash, w: Written, c: ChunkId, id: SeriesId) {
    w.entry.chunk == c && hash(w.key) == id
  }

  /** The statistics after registering: those of a written series with the chunk and the id, or else the old ones. */
  ghost predicate Overlaid(hash: Hash, before: Option<Stats>, ws: seq<Written>, c: ChunkId, id: SeriesId, after: Option<Stats>) {
    if exists i :: 0 <= i < |ws| && Concerns(hash, ws[i], c, id)
    then exists i :: 0 <= i < |ws| && Concerns(hash, ws[i], c, id) && after == Some(ws[i].stats)
    else after == before
  }

  function StatAt(x: Index, c: ChunkId, id: SeriesId): Option<Stats> {
    if (c, id) in x.stats then Some(x.stats[(c, id)]) else None
  }

  lemma OneStat(hash: Hash, x: Index, w: Written, m: Meta, c: ChunkId, id: SeriesId)
    ensures StatAt(Registered(hash, x, w.key, w.entry, w.stats, m), c, id) == if Concerns(hash, w, c, id) then Some(w.stats) else StatAt(x, c, id)
  {
  }

  lemma {:induction false} RegisterAllStatValues(hash: Hash, x: Index, ws: seq<Written>, m: Meta, c: ChunkId, id: SeriesId)
    ensures Overlaid(hash, StatAt(x, c, id), ws, c, id, StatAt(RegisterAll(hash, x, ws, m), c, id))
  {
    hide Registered, Concerns, StatAt;
    if ws != [] {
      var n := |ws| - 1;
      var front := ws[..n];
      RegisterAllStatValues(hash, x, front, m, c, id);
      OneStat(hash, RegisterAll(hash, x, front, m), ws[n], m, c, id);
      OverlaidSnoc(hash, StatAt(x, c, id), front, ws[n], c, id, StatAt(RegisterAll(hash, x, front, m), c, id));
      assert ws == front + [ws[n]];
    }
  }

  lemma OverlaidSnoc(hash: Hash, before: Option<Stats>, front: seq<Written>, w: Written, c: ChunkId, id: SeriesId, mid: Option<Stats>)
    requires Overlaid(hash, before, front, c, id, mid)
    ensures Overlaid(hash, before, front + [w], c, id, if Concerns(hash, w, c, id) then Some(w.stats) else mid)
  {
    hide Concerns;
    var ws := front + [w];
    if Concerns(hash, w, c, id) {
      assert ws[|front|] == w;
    } else if i :| 0 <= i < |front| && Concerns(hash, front[i], c, id) {
      var j :| 0 <= j < |front| && Concerns(hash, front[j], c, id) && mid == Some(front[j].stats);
      assert ws[j] == front[j];
    } else {
      assert forall i :: 0 <= i < |ws| ==> ws[i] == w || ws[i] == front[i];
    }
  }

  lemma {:induction false} DeregisterAllStatValues(x: Index, ds: seq<Listed>, c: ChunkId, id: SeriesId)
    ensures var x' := DeregisterAll(x, ds);
      (c, id) in x'.stats ==> (c, id) in x.stats && x'.stats[(c, id)] == x.stats[(c, id)]
  {
    if ds != [] {
      DeregisterAllStatValues(x, ds[..|ds| - 1], c, id);
    }
  }

  /** The statistics of a chunk of a series are those of its points. */
  ghost predicate StatTrue(num: Decode, s: Store, c: ChunkId, id: SeriesId) {
    (c, id) in s.index.stats ==>
      && c in s.disk && id in s.index.registry && s.index.registry[id] in s.disk[c] && s.disk[c][s.index.registry[id]] != []
      && s.index.stats[(c, id)] == StatsOf(num, s.disk[c][s.index.registry[id]])
  }

  ghost predicate AllStatsTrue(num: Decode, s: Store) {
    forall c, id: SeriesId :: StatTrue(num, s, c, id)
  }

  /** What a step that writes chunk `c` does to the statistics of one chunk and series. */
  ghost predicate StatFrom(hash: Hash, x: Index, x': Index, ws: seq<Written>, d: ChunkId, id: SeriesId) {
    (d, id) in x'.stats ==>
      || ((d, id) in x.stats && x'.stats[(d, id)] == x.stats[(d, id)] && forall i :: 0 <= i < |ws| ==> !Concerns(hash, ws[i], d, id))
      || exists i :: 0 <= i < |ws| && Concerns(hash, ws[i], d, id) && x'.stats[(d, id)] == ws[i].stats
  }

  lemma StatFromMerge(hash: Hash, s: Store, p: Plan, c: ChunkId, t: Memtable.Table, ws: seq<Written>, m: Meta, d: ChunkId, id: SeriesId)
    ensures StatFrom(hash, s.index, Compacted(hash, s, p, c, t, ws, m).index, ws, d, id)
    ensures StatFrom(hash, s.index, Flushed(hash, s, c, t, ws, m).index, ws, d, id)
  {
    hide RegisterAll, DeregisterAll, Concerns;
    RegisterAllStatValues(hash, s.index, ws, m, d, id);
    DeregisterAllStatValues(RegisterAll(hash, s.index, ws, m), p.listed, d, id);
  }

  lemma StatKept(num: Decode, hash: Hash, s: Store, s': Store, gone: set<ChunkId>, c: ChunkId, t: Memtable.Table, ws: seq<Written>, d: ChunkId, id: SeriesId)
    requires Change(hash, s, s', gone, c, t, ws) && StatTrue(num, s, d, id) && StatsTrue(num, ws, t)
    requires StatFrom(hash, s.index, s'.index, ws, d, id)
    ensures StatTrue(num, s', d, id)
  {
    hide IndexOk, EntryAfter, Apart, Memtable.TableOk, StatsOf, Named;
    if (d, id) in s'.index.stats {
      if i :| 0 <= i < |ws| && Concerns(hash, ws[i], d, id) && s'.index.stats[(d, id)] == ws[i].stats {
        assert ReportOk(hash, ws[i], c, t);
      } else {
        assert (d, id) in s.index.stats && d in s.disk;
        assert d != c && !(d == c && Wrote(hash, ws, id));
        assert d !in gone;
      }
    }
  }

  /** Every step of a run reports true statistics. */
  ghost predicate ReportsStats(num: Decode, steps: seq<Step>) {
    forall i :: 0 <= i < |steps| && (steps[i].Flush? || steps[i].Merge?) ==> StatsTrue(num, steps[i].written, steps[i].table)
  }

  lemma StepStats(num: Decode, hash: Hash, s: State, step: Step)
    requires Inv(hash, s) && Enabled(hash, s, step) && AllStatsTrue(num, s.store)
    requires step.Flush? || step.Merge? ==> StatsTrue(num, step.written, step.table)
    ensures AllStatsTrue(num, Next(hash, s, step).store)
  {
    hide Inv, Enabled, StatsTrue, StatTrue, Change, StatFrom, Flushed, Compacted;
    if step.Flush? || step.Merge? {
      MergePending(hash, s, step);
      StepChange(hash, s, step);
      var s', gone := Next(hash, s, step).store, if step.Flush? then {} else Members(s.pending[0].group);
      forall d, id: SeriesId ensures StatTrue(num, s', d, id) {
        StatFromMerge(hash, s.store, if step.Merge? then s.pending[0] else Plan([], []), step.chunk, step.table, step.written, step.meta, d, id);
        StatKept(num, hash, s.store, s', gone, step.chunk, step.table, step.written, d, id);
      }
    }
  }

  lemma {:induction false} RunStats(num: Decode, hash: Hash, steps: seq<Step>)
    requires Valid(hash, steps) && ReportsStats(num, steps)
    ensures AllStatsTrue(num, Run(hash, steps).store)
  {
    if steps == [] {
      NoStats(num);
    } else {
      var n := |steps| - 1;
      assert forall i :: 0 <= i < n ==> steps[..n][i] == steps[i];
      RunStats(num, hash, steps[..n]);
      RunInv(hash, steps[..n]);
      hide Inv, Enabled, Next, AllStatsTrue, StatsTrue;
      StepStats(num, hash, Run(hash, steps[..n]), steps[n]);
    }
  }

  lemma NoStats(num: Decode)
    ensures AllStatsTrue(num, NO_CHUNKS)
  {
  }

  // ----- Pruning -----

  /** An entry of the index describes the series of its chunk. */
  lemma EntryDescribes(num: Decode, hash: Hash, s: Store, id: SeriesId, t: i64)
    requires StoreOk(hash, s) && AllStatsTrue(num, s) && TimeAt(s.index, id, t).Some?
    ensures var e := TimeAt(s.index, id, t).value;
      && id in s.index.registry && e.chunk in s.disk && s.index.registry[id] in s.disk[e.chunk]
      && e.series == id && e.start == t
      && Describes(s.index, e, ColumnOf(num, s.disk[e.chunk][s.index.registry[id]]))
  {
    var e := TimeAt(s.index, id, t).value;
    assert Owned(s, id, t) && StatTrue(num, s, e.chunk, id);
    var key := s.index.registry[id];
    assert hash(key) == id && Filed(hash, s, e.chunk, key) && Memtable.TableOk(s.disk[e.chunk]);
    var ps := s.disk[e.chunk][key];
    SameNumbers(num, ps);
    hide StoreOk, StatsOf;
  }

  lemma SameNumbers(num: Decode, ps: Points)
    ensures var column := ColumnOf(num, ps); seq(|column|, i requires 0 <= i < |column| => column[i].1) == Numbers(num, C.Values(ps))
  {
  }

  /** In every reachable state every entry describes the points of its chunk. */
  lemma RunDescribes(num: Decode, hash: Hash, steps: seq<Step>, id: SeriesId, t: i64)
    requires Valid(hash, steps) && ReportsStats(num, steps) && TimeAt(Run(hash, steps).store.index, id, t).Some?
    ensures var s := Run(hash, steps).store;
      var e := TimeAt(s.index, id, t).value;
      && id in s.index.registry && e.chunk in s.disk && s.index.registry[id] in s.disk[e.chunk]
      && Describes(s.index, e, ColumnOf(num, s.disk[e.chunk][s.index.registry[id]]))
  {
    hide Valid, Run, StoreOk, PlansOk, AllStatsTrue, Describes, ReportsStats;
    RunStats(num, hash, steps);
    RunInv(hash, steps);
    EntryDescribes(num, hash, Run(hash, steps).store, id, t);
  }

  /** The chunks that pruning keeps have every value that can be seen, is in the range and satisfies the predicate. */
  lemma VisibleNeverPruned(num: Decode, hash: Hash, steps: seq<Step>, key: SeriesKey, ts: i64, v: F64,
                           lo: i64, hi: i64, pred: Option<Predicate>) returns (e: SeriesChunk)
    requires Valid(hash, steps) && ReportsStats(num, steps) && Visible(hash, Run(hash, steps).store, key, ts, v)
    requires lo <= ts <= hi && (pred.Some? ==> Satisfies(pred.value, num(v)))
    ensures var s := Run(hash, steps).store;
      e in Pruned(s.index, hash(key), lo, hi, pred) && e.chunk in s.disk && Memtable.Holds(s.disk[e.chunk], key, ts, v)
  {
    hide Valid, Run, StoreOk, PlansOk, AllStatsTrue, Describes, ReportsStats, Pruned, Satisfies;
    var s := Run(hash, steps).store;
    RunStats(num, hash, steps);
    RunInv(hash, steps);
    var t: i64 :| TimeAt(s.index, hash(key), t).Some? && TimeAt(s.index, hash(key), t).value.chunk in s.disk
      && Memtable.Holds(s.disk[TimeAt(s.index, hash(key), t).value.chunk], key, ts, v);
    e := TimeAt(s.index, hash(key), t).value;
    EntryDescribes(num, hash, s, hash(key), t);
    KeyRegistered(hash, s, key, t, ts, v);
    var ps := s.disk[e.chunk][key];
    var i :| 0 <= i < |ps| && ps[i] == (ts, v);
    StoreTimes(hash, s);
    PruningNeverDropsMatch(s.index, hash(key), e, ColumnOf(num, ps), i, lo, hi, pred);
  }

  lemma KeyRegistered(hash: Hash, s: Store, key: SeriesKey, t: i64, ts: i64, v: F64)
    requires StoreOk(hash, s) && TimeAt(s.index, hash(key), t).Some? && TimeAt(s.index, hash(key), t).value.chunk in s.disk
    requires Memtable.Holds(s.disk[TimeAt(s.index, hash(key), t).value.chunk], key, ts, v)
    ensures hash(key) in s.index.registry && s.index.registry[hash(key)] == key
  {
    assert Owned(s, hash(key), t);
    assert Filed(hash, s, TimeAt(s.index, hash(key), t).value.chunk, key);
  }

  lemma StoreTimes(hash: Hash, s: Store)
    requires StoreOk(hash, s)
    ensures TimesExact(s.index)
  {
  }
}
