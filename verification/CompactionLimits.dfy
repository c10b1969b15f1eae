/** A compaction cycle that brings an older value back: groups are merged in order of file size. */
module CompactionLimits {
  import opened Types
  import opened ChunkIndex
  import opened Merging
  import opened Compaction
  import opened ChunkStore
  import opened CompactionRuns
  import opened CompactionGroups
  import opened CompactionTheorems
  import Memtable
  import Pruning

  // The slot at 5 is written with value 1, then with value 2; the second chunk file is the smaller one.
  const FIRST: Memtable.Table := map[SERIES := [(4, 1), (5, 1)]]
  const SECOND: Memtable.Table := map[SERIES := [(5, 2)]]

  function Entry(chunk: ChunkId, start: i64, stats: Pruning.Stats): Written {
    Written(SERIES, SeriesChunk(chunk, 0, start, 5, 0), stats)
  }

  function FlushFirst(stats: Pruning.Stats): Step {
    Flush(1, FIRST, [Entry(1, 4, stats)], Meta(100))
  }

  function FlushSecond(stats: Pruning.Stats): Step {
    Flush(2, SECOND, [Entry(2, 5, stats)], Meta(60))
  }

  const BY_SIZE := [File(2, 60), File(1, 100)]
  const PLAN := Plan([2, 1], [(0, 2, 5), (0, 1, 4)])

  function MergeBoth(stats: Pruning.Stats): Step {
    Merge(3, FIRST, [Entry(3, 4, stats)], Meta(100))
  }

  function Flushes(stats: Pruning.Stats): seq<Step> {
    [FlushFirst(stats), FlushSecond(stats)]
  }

  function Cycle(stats: Pruning.Stats): seq<Step> {
    Flushes(stats) + [StartCycle([PLAN]), MergeBoth(stats)]
  }

  lemma TablesOk()
    ensures Memtable.TableOk(FIRST) && Memtable.TableOk(SECOND)
  {
  }

  lemma EntryReports(c: ChunkId, start: i64, stats: Pruning.Stats, t: Memtable.Table)
    requires t == (if start == 4 then FIRST else SECOND) && (start == 4 || start == 5)
    ensures Reports(CONSTANT, [Entry(c, start, stats)], c, t)
  {
    assert [Entry(c, start, stats)][0].key == SERIES;
  }

  lemma EntryApart(x: Index, c: ChunkId, start: i64, stats: Pruning.Stats)
    requires forall id :: id in x.registry ==> x.registry[id] == SERIES
    ensures Apart(CONSTANT, x, [Entry(c, start, stats)])
  {
  }

  lemma NamedOnly(c: ChunkId, start: i64, stats: Pruning.Stats, id: SeriesId, t: i64)
    ensures Named(CONSTANT, [Entry(c, start, stats)], id, t) <==> id == 0 && t == start
  {
    assert Names(CONSTANT, [Entry(c, start, stats)][0], id, t) <==> id == 0 && t == start;
  }

  /** One more entry of the series, and nothing else changes. */
  lemma OneMore(s: Store, c: ChunkId, start: i64, stats: Pruning.Stats, t: Memtable.Table, m: Meta, id: SeriesId, t0: i64)
    ensures TimeAt(Flushed(CONSTANT, s, c, t, [Entry(c, start, stats)], m).index, id, t0) ==
            if id == 0 && t0 == start then Some(Entry(c, start, stats).entry) else TimeAt(s.index, id, t0)
  {
    hide RegisterAll, TimeAt;
    var ws := [Entry(c, start, stats)];
    RegisterAllTimes(CONSTANT, s.index, ws, m, id, t0);
    assert Names(CONSTANT, ws[0], id, t0) <==> id == 0 && t0 == start;
  }

  lemma OneFile(s: Store, c: ChunkId, start: i64, stats: Pruning.Stats, t: Memtable.Table, m: Meta)
    ensures var x := Flushed(CONSTANT, s, c, t, [Entry(c, start, stats)], m).index;
      x.files == s.index.files[c := m] && x.registry == s.index.registry[0 := SERIES]
  {
    var ws := [Entry(c, start, stats)];
    assert ws[..0] == [] && RegisterAll(CONSTANT, s.index, ws[..0], m) == s.index;
  }

  // ----- The flushes -----

  function Nothing(): State {
    State(NO_CHUNKS, [])
  }

  lemma StartInv()
    ensures Inv(CONSTANT, Nothing()) && Run(CONSTANT, []) == Nothing() && Valid(CONSTANT, [])
  {
    RunInv(CONSTANT, []);
  }

  lemma FirstFits(stats: Pruning.Stats)
    ensures Enabled(CONSTANT, Nothing(), FlushFirst(stats))
  {
    TablesOk();
    EntryReports(1, 4, stats, FIRST);
    EntryApart(NO_CHUNKS.index, 1, 4, stats);
  }

  function One(stats: Pruning.Stats): State {
    Next(CONSTANT, Nothing(), FlushFirst(stats))
  }

  function Two(stats: Pruning.Stats): State {
    Next(CONSTANT, One(stats), FlushSecond(stats))
  }

  lemma SecondFits(stats: Pruning.Stats)
    ensures Enabled(CONSTANT, One(stats), FlushSecond(stats))
  {
    hide RegisterAll, TimeAt, Apart, Reports, Named, Memtable.TableOk;
    TablesOk();
    EntryReports(2, 5, stats, SECOND);
    OneFile(NO_CHUNKS, 1, 4, stats, FIRST, Meta(100));
    EntryApart(One(stats).store.index, 2, 5, stats);
    forall id: SeriesId, t0: i64 | Named(CONSTANT, [Entry(2, 5, stats)], id, t0) ensures TimeAt(One(stats).store.index, id, t0).None? {
      NamedOnly(2, 5, stats, id, t0);
      OneMore(NO_CHUNKS, 1, 4, stats, FIRST, Meta(100), id, t0);
      NoTimes(id, t0);
    }
  }

  lemma NoTimes(id: SeriesId, t: i64)
    ensures TimeAt(NO_CHUNKS.index, id, t).None?
  {
  }

  lemma TwoTimes(stats: Pruning.Stats, id: SeriesId, t: i64)
    ensures TimeAt(Two(stats).store.index, id, t) ==
            if id == 0 && t == 5 then Some(Entry(2, 5, stats).entry)
            else if id == 0 && t == 4 then Some(Entry(1, 4, stats).entry)
            else None
  {
    hide RegisterAll, TimeAt;
    OneMore(NO_CHUNKS, 1, 4, stats, FIRST, Meta(100), id, t);
    OneMore(One(stats).store, 2, 5, stats, SECOND, Meta(60), id, t);
    NoTimes(id, t);
  }

  lemma TwoFiles(stats: Pruning.Stats)
    ensures Two(stats).store.index.files == map[1 := Meta(100), 2 := Meta(60)]
    ensures Two(stats).store.disk == map[1 := FIRST, 2 := SECOND] && Two(stats).pending == []
  {
    hide RegisterAll;
    OneFile(NO_CHUNKS, 1, 4, stats, FIRST, Meta(100));
    OneFile(One(stats).store, 2, 5, stats, SECOND, Meta(60));
  }

  // ----- The cycle -----

  /** The sizes put the newer chunk first. */
  lemma GroupedBySize(stats: Pruning.Stats)
    ensures Enumerates(Two(stats).store.index, BY_SIZE) && Groups(BY_SIZE, 4.0, 2) == [BY_SIZE] && Ids(BY_SIZE) == PLAN.group
  {
    hide Two, Groups;
    TwoFiles(stats);
    OneGroup();
    forall c, n: Size ensures File(c, n) in BY_SIZE <==> c in Two(stats).store.index.files && Two(stats).store.index.files[c].fileSize == n {
      assert File(c, n) in BY_SIZE <==> File(c, n) == BY_SIZE[0] || File(c, n) == BY_SIZE[1];
    }
  }

  lemma OneGroup()
    ensures Groups(BY_SIZE, 4.0, 2) == [BY_SIZE]
  {
    assert Close(BY_SIZE[0], BY_SIZE[1], 4.0);
    TierSplits(BY_SIZE, [], 4.0);
    assert BY_SIZE + [] == BY_SIZE && Tiers([], 4.0) == [];
    assert LongEnough([BY_SIZE], 2) == [BY_SIZE] by {
      assert [BY_SIZE][1..] == [] && LongEnough([], 2) == [];
    }
  }

  lemma PlanExact(stats: Pruning.Stats)
    ensures PlansOk(Two(stats).store.index, [PLAN])
  {
    hide Two, TimeAt;
    TwoFiles(stats);
    var x := Two(stats).store.index;
    forall id: SeriesId, c: ChunkId, t: i64 ensures (id, c, t) in PLAN.listed <==> OwnedBy(x, PLAN.group, id, c, t) {
      TwoTimes(stats, id, t);
      assert (id, c, t) in PLAN.listed <==> (id, c, t) == PLAN.listed[0] || (id, c, t) == PLAN.listed[1];
    }
  }

  lemma ValuesOf(ts: i64)
    ensures ValueAt(FIRST[SERIES], ts) == if ts == 4 || ts == 5 then Some(1) else None
    ensures ValueAt(SECOND[SERIES], ts) == if ts == 5 then Some(2) else None
  {
    var first, second := FIRST[SERIES], SECOND[SERIES];
    var rest := first[1..];
    assert rest == [(5, 1)] && |rest[1..]| == 0 && |second[1..]| == 0;
    assert ValueAt(rest, ts) == if ts == 5 then Some(1) else None;
  }

  /** Merged in this order, the first table hides the second. */
  lemma MergedIsFirst(key: SeriesKey, ts: i64)
    ensures RightBiased(map[1 := FIRST, 2 := SECOND], [2, 1], key, ts) ==
            if key == SERIES && (ts == 4 || ts == 5) then Some(1) else None
  {
    var disk := map[1 := FIRST, 2 := SECOND];
    ValuesOf(ts);
    hide ValueAt;
    assert [2, 1][..1] == [2] && [2][..0] == [];
    assert RightBiased(disk, [2], key, ts) == if key == SERIES then ValueAt(SECOND[SERIES], ts) else ValueAt([], ts);
    assert ValueAt([], ts) == None by {
      EmptyValue(ts);
    }
  }

  lemma EmptyValue(ts: i64)
    ensures ValueAt([], ts) == None
  {
  }

  lemma BothMerge()
    ensures Merges(map[1 := FIRST, 2 := SECOND], [2, 1], FIRST)
  {
    TablesOk();
    hide RightBiased, Memtable.TableOk;
    forall k, ts: i64, v: F64 ensures Memtable.Holds(FIRST, k, ts, v) <==> RightBiased(map[1 := FIRST, 2 := SECOND], [2, 1], k, ts) == Some(v) {
      MergedIsFirst(k, ts);
      FirstHolds(k, ts, v);
    }
  }

  lemma FirstHolds(k: SeriesKey, ts: i64, v: F64)
    ensures Memtable.Holds(FIRST, k, ts, v) <==> k == SERIES && (ts == 4 || ts == 5) && v == 1
  {
    var ps := FIRST[SERIES];
    assert (ts, v) in ps <==> (ts, v) == ps[0] || (ts, v) == ps[1];
  }

  function Planned(stats: Pruning.Stats): State {
    Next(CONSTANT, Two(stats), StartCycle([PLAN]))
  }

  lemma FlushesRun(stats: Pruning.Stats)
    ensures Valid(CONSTANT, Flushes(stats)) && Run(CONSTANT, Flushes(stats)) == Two(stats)
  {
    hide Enabled, Next, Inv;
    StartInv();
    FirstFits(stats);
    SecondFits(stats);
    assert [FlushFirst(stats)][..0] == [] && Flushes(stats)[..1] == [FlushFirst(stats)];
  }

  lemma CycleRuns(stats: Pruning.Stats)
    ensures Valid(CONSTANT, Cycle(stats)) && Run(CONSTANT, Cycle(stats)) == Next(CONSTANT, Planned(stats), MergeBoth(stats))
    ensures Enabled(CONSTANT, Planned(stats), MergeBoth(stats)) && Inv(CONSTANT, Planned(stats))
    ensures Run(CONSTANT, Cycle(stats)[..3]) == Planned(stats)
  {
    CycleEnabled(stats);
    hide Enabled, Next, Inv, Flushes;
    FlushesRun(stats);
    var steps := Cycle(stats);
    assert |Flushes(stats)| == 2 by {
      TwoFlushes(stats);
    }
    assert steps[..3][..2] == Flushes(stats) && steps[..3] == Flushes(stats) + [StartCycle([PLAN])] && steps[..3][2] == StartCycle([PLAN]) && steps[3] == MergeBoth(stats);
    RunInv(CONSTANT, steps[..3]);
  }

  lemma TwoFlushes(stats: Pruning.Stats)
    ensures |Flushes(stats)| == 2
  {
  }

  lemma CycleEnabled(stats: Pruning.Stats)
    ensures Enabled(CONSTANT, Two(stats), StartCycle([PLAN])) && Enabled(CONSTANT, Planned(stats), MergeBoth(stats))
  {
    hide Two, Merges, Reports;
    PlanExact(stats);
    TwoFiles(stats);
    BothMerge();
    EntryReports(3, 4, stats, FIRST);
  }

  /**
   * A run of two flushes and one cycle whose only group is the one chosen by file size. The value written last
   * can be read before the merge; after it only the older one can.
   */
  lemma OlderValueWins(stats: Pruning.Stats)
    ensures Valid(CONSTANT, Cycle(stats))
    ensures Enumerates(Run(CONSTANT, Flushes(stats)).store.index, BY_SIZE)
    ensures Groups(BY_SIZE, 4.0, 2) == [BY_SIZE] && Ids(BY_SIZE) == PLAN.group
    ensures Visible(CONSTANT, Run(CONSTANT, Cycle(stats)[..3]).store, SERIES, 5, 2)
    ensures !Visible(CONSTANT, Run(CONSTANT, Cycle(stats)).store, SERIES, 5, 2)
    ensures Visible(CONSTANT, Run(CONSTANT, Cycle(stats)).store, SERIES, 5, 1)
  {
    hide Enabled, Next, Inv, Valid, Run, Enumerates, Groups, Ids, Visible, RightBiased, HeldOutside, Planned, Cycle, Flushes;
    GroupedBySize(stats);
    FlushesRun(stats);
    CycleRuns(stats);
    SecondVisible(stats);
    NothingElse(stats);
    MergeLeavesExact(CONSTANT, Planned(stats), MergeBoth(stats), SERIES, 5, 2);
    MergeLeavesExact(CONSTANT, Planned(stats), MergeBoth(stats), SERIES, 5, 1);
    MergedIsFirst(SERIES, 5);
    PlannedIs(stats);
  }

  lemma PlannedIs(stats: Pruning.Stats)
    ensures Planned(stats).store == Two(stats).store && Planned(stats).store.disk == map[1 := FIRST, 2 := SECOND]
    ensures Planned(stats).pending == [PLAN] && PLAN.group == [2, 1]
  {
    hide Two;
    TwoFiles(stats);
  }

  lemma SecondVisible(stats: Pruning.Stats)
    ensures Visible(CONSTANT, Planned(stats).store, SERIES, 5, 2)
  {
    hide Two, TimeAt;
    TwoFiles(stats);
    TwoTimes(stats, 0, 5);
    assert SECOND[SERIES][0] == (5, 2) && Memtable.Holds(SECOND, SERIES, 5, 2);
    assert TimeAt(Planned(stats).store.index, CONSTANT(SERIES), 5).Some?;
  }

  lemma NothingElse(stats: Pruning.Stats)
    ensures forall v: F64 :: !HeldOutside(Planned(stats).store, Members(PLAN.group), SERIES, 5, v)
  {
    hide Two;
    TwoFiles(stats);
    assert PLAN.group[0] == 2 && PLAN.group[1] == 1;
  }
}
