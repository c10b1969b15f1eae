/** Runs of flushes and compaction cycles over the chunk store. */
module CompactionRuns {
  import opened Types
  import opened ChunkIndex
  import opened Merging
  import opened Compaction
  import opened ChunkStore
  import Memtable

  function Members(group: seq<ChunkId>): set<ChunkId> {
    set c | c in group
  }

  /** The removal list of a group: the index entries its chunks own. */
  ghost predicate Lists(x: Index, group: seq<ChunkId>, ds: seq<Listed>) {
    forall id: SeriesId, c: ChunkId, t: i64 :: (id, c, t) in ds <==> OwnedBy(x, group, id, c, t)
  }

  predicate OwnedBy(x: Index, group: seq<ChunkId>, id: SeriesId, c: ChunkId, t: i64) {
    TimeAt(x, id, t).Some? && TimeAt(x, id, t).value.chunk == c && c in group
  }

  // ----- A flush -----

  function Flushed(hash: Hash, s: Store, c: ChunkId, t: Memtable.Table, ws: seq<Written>, m: Meta): Store {
    Store(RegisterAll(hash, s.index, ws, m), s.disk[c := t])
  }

  lemma SeriesReported(hash: Hash, ws: seq<Written>, c: ChunkId, t: Memtable.Table)
    requires Reports(hash, ws, c, t)
    ensures forall i :: 0 <= i < |ws| ==> ws[i].entry.series == hash(ws[i].key)
  {
    forall i | 0 <= i < |ws| ensures ws[i].entry.series == hash(ws[i].key) {
      assert ReportOk(hash, ws[i], c, t);
    }
  }

  lemma WroteChunk(hash: Hash, ws: seq<Written>, c: ChunkId, t: Memtable.Table, d: ChunkId, id: SeriesId)
    requires Reports(hash, ws, c, t)
    ensures (exists i :: 0 <= i < |ws| && ws[i].entry.chunk == d && hash(ws[i].key) == id) <==> d == c && Wrote(hash, ws, id)
  {
    if i :| 0 <= i < |ws| && hash(ws[i].key) == id {
      assert ReportOk(hash, ws[i], c, t);
    }
  }

  // ----- A merge -----

  function Compacted(hash: Hash, s: Store, p: Plan, c: ChunkId, t: Memtable.Table, ws: seq<Written>, m: Meta): Store {
    Store(DeregisterAll(RegisterAll(hash, s.index, ws, m), p.listed), (s.disk - Members(p.group))[c := t])
  }

  /**
   * Reads the chunks of a group, writes their merge as chunk `c`, registers it, removes the listed
   * entries and deletes the old files. `report` is what the chunk writer says of the chunk it wrote.
   */
  method CompactGroup(index: ChunkIndex, disk: Disk, p: Plan, files: seq<seq<DataPoint>>, c: ChunkId,
                      report: Memtable.Table -> seq<Written>, m: Meta) returns (merged: Memtable.Table, disk': Disk)
    requires |files| == |p.group|
    requires forall i :: 0 <= i < |files| ==> p.group[i] in disk && Memtable.TableOk(disk[p.group[i]]) && ReadsAs(files[i], disk[p.group[i]])
    modifies index
    ensures Merges(disk, p.group, merged)
    ensures Store(index.View(), disk') == Compacted(index.hash, Store(old(index.View()), disk), p, c, merged, report(merged), m)
  {
    merged := MergeGroup(disk, p.group, files);
    RegisterSeries(index, report(merged), m);
    RemoveListed(index, p.listed);
    disk' := (disk - Members(p.group))[c := merged];
  }

  /** The merged chunk starts each series where a chunk of the group did, so nothing else is displaced. */
  lemma MergeFits(hash: Hash, s: Store, group: seq<ChunkId>, c: ChunkId, t: Memtable.Table, ws: seq<Written>)
    requires StoreOk(hash, s) && (forall d :: d in group ==> d in s.index.files)
    requires c !in s.disk && Merges(s.disk, group, t) && Reports(hash, ws, c, t)
    ensures Fits(hash, s, Members(group), c, t, ws)
  {
    assert GroupOk(s.disk, group);
    forall i | 0 <= i < |ws| ensures KnownAs(hash, s.index, ws[i].key) {
      MergedKeyFiled(hash, s, group, c, t, ws, i);
    }
    forall id: SeriesId, t0: i64 | Named(hash, ws, id, t0)
      ensures TimeAt(s.index, id, t0).None? || TimeAt(s.index, id, t0).value.chunk in Members(group)
    {
      var i :| 0 <= i < |ws| && Names(hash, ws[i], id, t0);
      MergedKeyFiled(hash, s, group, c, t, ws, i);
    }
    hide StoreOk, Merges, Reports, TimeAt;
  }

  ghost predicate KnownAs(hash: Hash, x: Index, key: SeriesKey) {
    hash(key) in x.registry && x.registry[hash(key)] == key
  }

  lemma MergedKeyFiled(hash: Hash, s: Store, group: seq<ChunkId>, c: ChunkId, t: Memtable.Table, ws: seq<Written>, i: nat)
    requires StoreOk(hash, s) && (forall d :: d in group ==> d in s.index.files)
    requires Merges(s.disk, group, t) && Reports(hash, ws, c, t) && i < |ws|
    ensures KnownAs(hash, s.index, ws[i].key)
    ensures TimeAt(s.index, hash(ws[i].key), ws[i].entry.start).Some?
    ensures TimeAt(s.index, hash(ws[i].key), ws[i].entry.start).value.chunk in Members(group)
  {
    assert ReportOk(hash, ws[i], c, t);
    assert GroupOk(s.disk, group);
    var key := ws[i].key;
    var j := FirstFromGroup(s.disk, group, t, key);
    assert group[j] in s.index.files;
    assert Filed(hash, s, group[j], key);
  }

  lemma FitsFacts(hash: Hash, s: Store, group: seq<ChunkId>, c: ChunkId, t: Memtable.Table, ws: seq<Written>)
    requires StoreOk(hash, s) && (forall d :: d in group ==> d in s.index.files) && Fits(hash, s, Members(group), c, t, ws)
    ensures IndexOk(hash, s.index) && Apart(hash, s.index, ws) && Reports(hash, ws, c, t) && c !in Members(group)
  {
    hide IndexOk, Filed, Owned, Backed, Apart, Reports, Memtable.TableOk;
  }

  lemma MergedIndex(hash: Hash, s: Store, p: Plan, c: ChunkId, t: Memtable.Table, ws: seq<Written>, m: Meta)
    requires IndexOk(hash, s.index) && Apart(hash, s.index, ws) && Reports(hash, ws, c, t)
    ensures var x2 := DeregisterAll(RegisterAll(hash, s.index, ws, m), p.listed);
            IndexOk(hash, x2) && Joined(hash, s.index.registry, ws, x2.registry)
  {
    hide *;
    SeriesReported(hash, ws, c, t);
    RegisterAllOk(hash, s.index, ws, m);
    DeregisterAllOk(hash, RegisterAll(hash, s.index, ws, m), p.listed);
  }

  /** Registering the merged chunk and removing the listed entries leaves no trace of the group. */
  lemma MergeReplaces(hash: Hash, s: Store, p: Plan, c: ChunkId, t: Memtable.Table, ws: seq<Written>, m: Meta)
    requires StoreOk(hash, s) && (forall d :: d in p.group ==> d in s.index.files) && Lists(s.index, p.group, p.listed)
    requires Fits(hash, s, Members(p.group), c, t, ws)
    ensures Change(hash, s, Compacted(hash, s, p, c, t, ws, m), Members(p.group), c, t, ws)
  {
    hide IndexOk, RegisterAll, DeregisterAll, Joined, Lists, StoreOk, Fits, EntryAfter, Wrote, Members, Apart, Reports;
    var x, gone, x2 := s.index, Members(p.group), DeregisterAll(RegisterAll(hash, s.index, ws, m), p.listed);
    FitsFacts(hash, s, p.group, c, t, ws);
    MergedIndex(hash, s, p, c, t, ws, m);
    forall id: SeriesId, t0: i64 ensures EntryAfter(hash, x, x2, gone, ws, id, t0) {
      MergedEntry(hash, s, p, c, t, ws, m, id, t0);
    }
    forall d: ChunkId, id: SeriesId ensures (d, id) in x2.stats <==> ((d, id) in x.stats && d !in gone) || (d == c && Wrote(hash, ws, id)) {
      MergedStats(hash, s, p, c, t, ws, m, d, id);
    }
  }

  /** A flush is a merge that removes nothing. */
  lemma FlushReplaces(hash: Hash, s: Store, c: ChunkId, t: Memtable.Table, ws: seq<Written>, m: Meta)
    requires StoreOk(hash, s) && Fits(hash, s, {}, c, t, ws)
    ensures Change(hash, s, Flushed(hash, s, c, t, ws, m), {}, c, t, ws)
  {
    hide StoreOk, Fits, Change, RegisterAll;
    assert Members([]) == {};
    MergeReplaces(hash, s, Plan([], []), c, t, ws, m);
    assert s.disk - {} == s.disk;
  }

  lemma MergedEntry(hash: Hash, s: Store, p: Plan, c: ChunkId, t: Memtable.Table, ws: seq<Written>, m: Meta, id: SeriesId, t0: i64)
    requires Lists(s.index, p.group, p.listed) && Reports(hash, ws, c, t) && c !in Members(p.group)
    ensures EntryAfter(hash, s.index, DeregisterAll(RegisterAll(hash, s.index, ws, m), p.listed), Members(p.group), ws, id, t0)
  {
    var x := s.index;
    var x1 := RegisterAll(hash, x, ws, m);
    RegisterAllTimes(hash, x, ws, m, id, t0);
    DeregisterAllTimes(x1, p.listed, id, t0);
    hide RegisterAll, DeregisterAll, TimeAt, Names;
    if Named(hash, ws, id, t0) {
      var i :| 0 <= i < |ws| && Names(hash, ws[i], id, t0) && TimeAt(x1, id, t0) == Some(ws[i].entry);
      assert ReportOk(hash, ws[i], c, t);
      assert !OwnedBy(x, p.group, id, c, t0);
    } else if TimeAt(x, id, t0).Some? {
      assert OwnedBy(x, p.group, id, TimeAt(x, id, t0).value.chunk, t0) <==> TimeAt(x, id, t0).value.chunk in p.group;
    }
  }

  lemma MergedStats(hash: Hash, s: Store, p: Plan, c: ChunkId, t: Memtable.Table, ws: seq<Written>, m: Meta, d: ChunkId, id: SeriesId)
    requires StoreOk(hash, s) && Lists(s.index, p.group, p.listed) && Reports(hash, ws, c, t) && c !in Members(p.group)
    ensures (d, id) in DeregisterAll(RegisterAll(hash, s.index, ws, m), p.listed).stats <==>
            ((d, id) in s.index.stats && d !in Members(p.group)) || (d == c && Wrote(hash, ws, id))
  {
    var x := s.index;
    RegisterAllStats(hash, x, ws, m, d, id);
    WroteChunk(hash, ws, c, t, d, id);
    DeregisterAllStats(RegisterAll(hash, x, ws, m), p.listed, d, id);
    hide RegisterAll, DeregisterAll, Reports;
    if d in p.group {
      if (d, id) in x.stats {
        StatsListed(hash, s, p, d, id);
      }
    } else {
      assert forall t0: i64 :: (id, d, t0) in p.listed ==> OwnedBy(x, p.group, id, d, t0);
    }
  }

  lemma StatsListed(hash: Hash, s: Store, p: Plan, d: ChunkId, id: SeriesId)
    requires StoreOk(hash, s) && Lists(s.index, p.group, p.listed) && d in p.group && (d, id) in s.index.stats
    ensures exists t0: i64 :: (id, d, t0) in p.listed
  {
    assert Backed(s, d, id);
    var key := s.index.registry[id];
    assert Referenced(s.index.stats, d);
    assert Filed(hash, s, d, key);
    assert OwnedBy(s.index, p.group, id, d, s.disk[d][key][0].0);
  }

  // ----- Runs -----

  datatype Plan = Plan(group: seq<ChunkId>, listed: seq<Listed>)

  /** The store, and what is left of the compaction cycle in progress. */
  datatype State = State(store: Store, pending: seq<Plan>)

  datatype Step =
    | Flush(chunk: ChunkId, table: Memtable.Table, written: seq<Written>, meta: Meta)
    | StartCycle(plans: seq<Plan>)
    | Merge(chunk: ChunkId, table: Memtable.Table, written: seq<Written>, meta: Meta)
    | Abandon

  const NO_CHUNKS := Store(Empty(), map[])

  /** The groups of a cycle lie in the live files, are apart, and come with exact removal lists. */
  ghost predicate PlansOk(x: Index, plans: seq<Plan>) {
    && (forall i :: 0 <= i < |plans| ==> PlanOk(x, plans[i]))
    && (forall i, j :: 0 <= i < j < |plans| ==> Members(plans[i].group) !! Members(plans[j].group))
  }

  ghost predicate PlanOk(x: Index, p: Plan) {
    (forall c :: c in p.group ==> c in x.files) && Lists(x, p.group, p.listed)
  }

  /** A flush needs a fresh chunk id and free starts; a merge writes the union of the next planned group. */
  ghost predicate Enabled(hash: Hash, s: State, step: Step) {
    match step
    case Flush(c, t, ws, m) => ws != [] && Fits(hash, s.store, {}, c, t, ws)
    case StartCycle(plans) => s.pending == [] && PlansOk(s.store.index, plans)
    case Merge(c, t, ws, m) =>
      && s.pending != [] && c !in s.store.disk
      && Merges(s.store.disk, s.pending[0].group, t) && Reports(hash, ws, c, t)
    case Abandon => true
  }

  function Next(hash: Hash, s: State, step: Step): State {
    match step
    case Flush(c, t, ws, m) => s.(store := Flushed(hash, s.store, c, t, ws, m))
    case StartCycle(plans) => s.(pending := plans)
    case Merge(c, t, ws, m) =>
      if s.pending == [] then s else State(Compacted(hash, s.store, s.pending[0], c, t, ws, m), s.pending[1..])
    case Abandon => s.(pending := [])
  }

  ghost predicate Inv(hash: Hash, s: State) {
    StoreOk(hash, s.store) && PlansOk(s.store.index, s.pending)
  }

  /** A removal list made when the cycle started is still exact after a flush or another group's merge. */
  lemma PlanKept(hash: Hash, s: Store, s': Store, gone: set<ChunkId>, c: ChunkId, t: Memtable.Table, ws: seq<Written>, p: Plan)
    requires StoreOk(hash, s) && Change(hash, s, s', gone, c, t, ws)
    requires PlanOk(s.index, p) && Members(p.group) !! gone
    ensures PlanOk(s'.index, p)
  {
    LiveAfter(hash, s, s', gone, c, t, ws);
    assert forall d :: d in p.group ==> d in Members(p.group) && d in s.index.files;
    assert c !in p.group by {
      assert c !in s.disk && forall d :: d in s.index.files ==> d in s.disk;
    }
    hide StoreOk, Change, IndexOk, Memtable.TableOk, OwnedBy, Members;
    forall id: SeriesId, d: ChunkId, t0: i64 ensures OwnedBy(s'.index, p.group, id, d, t0) <==> OwnedBy(s.index, p.group, id, d, t0) {
      ChunkKept(hash, s, s', gone, c, t, ws, p.group, id, d, t0);
    }
  }

  lemma ChunkKept(hash: Hash, s: Store, s': Store, gone: set<ChunkId>, c: ChunkId, t: Memtable.Table, ws: seq<Written>, group: seq<ChunkId>, id: SeriesId, d: ChunkId, t0: i64)
    requires Change(hash, s, s', gone, c, t, ws) && c !in group && Members(group) !! gone
    ensures OwnedBy(s'.index, group, id, d, t0) <==> OwnedBy(s.index, group, id, d, t0)
  {
    assert d in group ==> d in Members(group);
    assert EntryAfter(hash, s.index, s'.index, gone, ws, id, t0);
    hide Replaced, TimeAt, Apart, IndexOk, Memtable.TableOk;
    if Named(hash, ws, id, t0) {
      var i :| 0 <= i < |ws| && Names(hash, ws[i], id, t0) && TimeAt(s'.index, id, t0) == Some(ws[i].entry);
      assert ReportOk(hash, ws[i], c, t);
    }
  }

  lemma PlansKept(hash: Hash, s: Store, s': Store, gone: set<ChunkId>, c: ChunkId, t: Memtable.Table, ws: seq<Written>, plans: seq<Plan>)
    requires StoreOk(hash, s) && Change(hash, s, s', gone, c, t, ws) && PlansOk(s.index, plans)
    requires forall i :: 0 <= i < |plans| ==> Members(plans[i].group) !! gone
    ensures PlansOk(s'.index, plans)
  {
    hide StoreOk, Change, PlanOk, Members;
    forall i | 0 <= i < |plans| ensures PlanOk(s'.index, plans[i]) {
      PlanKept(hash, s, s', gone, c, t, ws, plans[i]);
    }
  }

  /** What a step does to the store, as one change. */
  lemma StepChange(hash: Hash, s: State, step: Step)
    requires Inv(hash, s) && Enabled(hash, s, step) && (step.Flush? || step.Merge?)
    ensures Change(hash, s.store, Next(hash, s, step).store, if step.Flush? then {} else Members(s.pending[0].group), step.chunk, step.table, step.written)
  {
    hide StoreOk, Fits, Change, Lists, Merges, Reports, Flushed, Compacted;
    match step {
      case Flush(c, t, ws, m) => FlushReplaces(hash, s.store, c, t, ws, m);
      case Merge(c, t, ws, m) =>
        assert PlanOk(s.store.index, s.pending[0]);
        MergeFits(hash, s.store, s.pending[0].group, c, t, ws);
        MergeReplaces(hash, s.store, s.pending[0], c, t, ws, m);
    }
  }

  lemma InvStep(hash: Hash, s: State, step: Step)
    requires Inv(hash, s) && Enabled(hash, s, step)
    ensures Inv(hash, Next(hash, s, step))
  {
    hide StoreOk, Enabled, Change, Flushed, Compacted, PlanOk, Members;
    if step.Flush? || step.Merge? {
      assert step.Merge? ==> s.pending != [] by { MergePending(hash, s, step); }
      StepChange(hash, s, step);
      var s', gone := Next(hash, s, step), if step.Flush? then {} else Members(s.pending[0].group);
      ChangeOk(hash, s.store, s'.store, gone, step.chunk, step.table, step.written);
      PlansKept(hash, s.store, s'.store, gone, step.chunk, step.table, step.written, s'.pending);
    } else {
      PlansStart(hash, s, step);
    }
  }

  lemma MergePending(hash: Hash, s: State, step: Step)
    requires Enabled(hash, s, step)
    ensures step.Merge? ==> s.pending != []
  {
  }

  lemma PlansStart(hash: Hash, s: State, step: Step)
    requires Enabled(hash, s, step) && (step.StartCycle? || step.Abandon?)
    ensures PlansOk(s.store.index, Next(hash, s, step).pending)
  {
  }
}
