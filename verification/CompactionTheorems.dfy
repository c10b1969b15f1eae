/** What flushes and compaction cycles keep visible, over whole runs. */
module CompactionTheorems {
  import opened Types
  import opened ChunkIndex
  import opened Merging
  import opened Compaction
  import opened ChunkStore
  import opened CompactionRuns
  import Memtable
  import Pruning

  // ----- One step -----

  lemma HeldAfter(hash: Hash, s: Store, s': Store, gone: set<ChunkId>, c: ChunkId, t: Memtable.Table, ws: seq<Written>, key: SeriesKey, ts: i64, v: F64)
    requires StoreOk(hash, s) && Change(hash, s, s', gone, c, t, ws)
    ensures Held(s', key, ts, v) <==> Memtable.Holds(t, key, ts, v) || HeldOutside(s, gone, key, ts, v)
  {
    LiveAfter(hash, s, s', gone, c, t, ws);
    assert Reports(hash, ws, c, t) && s'.disk[c] == t;
    assert forall d :: d in s.index.files ==> d in s.disk && d != c;
    hide StoreOk, Change, IndexOk, Memtable.TableOk;
    if Memtable.Holds(t, key, ts, v) {
      assert c in s'.index.files;
    }
    if HeldOutside(s, gone, key, ts, v) {
      var d :| d in s.index.files && d !in gone && d in s.disk && Memtable.Holds(s.disk[d], key, ts, v);
      assert d in s'.index.files;
    }
  }

  ghost predicate HeldOutside(s: Store, gone: set<ChunkId>, key: SeriesKey, ts: i64, v: F64) {
    exists c :: c in s.index.files && c !in gone && c in s.disk && Memtable.Holds(s.disk[c], key, ts, v)
  }

  /** What is held is held by the group or by the untouched chunks. */
  lemma HeldSplit(hash: Hash, s: Store, group: seq<ChunkId>, key: SeriesKey, ts: i64, v: F64)
    requires StoreOk(hash, s) && forall c :: c in group ==> c in s.index.files
    ensures Held(s, key, ts, v) <==> GroupHolds(s.disk, group, key, ts, v) || HeldOutside(s, Members(group), key, ts, v)
    ensures GroupOk(s.disk, group)
  {
    hide IndexOk, Filed, Owned, Backed, Memtable.TableOk, Memtable.Holds;
    if c :| c in s.index.files && c in s.disk && Memtable.Holds(s.disk[c], key, ts, v) {
      if c in group {
        var i :| 0 <= i < |group| && group[i] == c;
        assert Memtable.Holds(s.disk[group[i]], key, ts, v);
      }
    }
  }

  /** A flush adds its points and hides none. */
  lemma FlushContent(hash: Hash, s: State, step: Step, key: SeriesKey, ts: i64, v: F64)
    requires Inv(hash, s) && Enabled(hash, s, step) && step.Flush?
    ensures Held(Next(hash, s, step).store, key, ts, v) <==> Held(s.store, key, ts, v) || Memtable.Holds(step.table, key, ts, v)
  {
    StepChange(hash, s, step);
    hide StoreOk, Change, PlansOk, Fits, Flushed, Memtable.Holds;
    HeldAfter(hash, s.store, Next(hash, s, step).store, {}, step.chunk, step.table, step.written, key, ts, v);
    assert HeldOutside(s.store, {}, key, ts, v) <==> Held(s.store, key, ts, v);
  }

  /** A merge brings in no value and loses no slot; where the group agrees it loses no value either. */
  lemma MergeContent(hash: Hash, s: State, step: Step, key: SeriesKey, ts: i64, v: F64) returns (w: F64)
    requires Inv(hash, s) && Enabled(hash, s, step) && step.Merge?
    ensures Held(Next(hash, s, step).store, key, ts, v) ==> Held(s.store, key, ts, v)
    ensures Held(s.store, key, ts, v) ==> Held(Next(hash, s, step).store, key, ts, w)
    ensures Held(s.store, key, ts, v) && Agree(s.store.disk, s.pending[0].group) ==> w == v
  {
    var s', group, t := Next(hash, s, step).store, s.pending[0].group, step.table;
    StepChange(hash, s, step);
    assert PlanOk(s.store.index, s.pending[0]);
    hide StoreOk, Change, Next, Reports, Merges, Memtable.Holds, Members, GroupOk, GroupHolds, Agree, Held, HeldOutside;
    HeldSplit(hash, s.store, group, key, ts, v);
    w := MergedValue(s.store.disk, group, t, key, ts, v);
    HeldAfter(hash, s.store, s', Members(group), step.chunk, t, step.written, key, ts, v);
    HeldAfter(hash, s.store, s', Members(group), step.chunk, t, step.written, key, ts, w);
    if !GroupHolds(s.store.disk, group, key, ts, v) {
      w := v;
    }
  }

  lemma MergedValue(disk: Disk, group: seq<ChunkId>, merged: Memtable.Table, key: SeriesKey, ts: i64, v: F64) returns (w: F64)
    requires GroupOk(disk, group) && Merges(disk, group, merged)
    ensures Memtable.Holds(merged, key, ts, v) ==> GroupHolds(disk, group, key, ts, v)
    ensures GroupHolds(disk, group, key, ts, v) ==> Memtable.Holds(merged, key, ts, w) && (Agree(disk, group) ==> w == v)
  {
    w := v;
    if Memtable.Holds(merged, key, ts, v) {
      RightBiasedFrom(disk, group, key, ts, v);
    }
    if GroupHolds(disk, group, key, ts, v) {
      RightBiasedHas(disk, group, key, ts, v);
      w := RightBiased(disk, group, key, ts).value;
      RightBiasedFrom(disk, group, key, ts, w);
    }
  }

  /** Exactly the values a merge leaves: those of untouched chunks, and of each slot the last one in the order of the group. */
  lemma MergeLeavesExact(hash: Hash, s: State, step: Step, key: SeriesKey, ts: i64, v: F64)
    requires Inv(hash, s) && Enabled(hash, s, step) && step.Merge?
    ensures Visible(hash, Next(hash, s, step).store, key, ts, v) <==>
            RightBiased(s.store.disk, s.pending[0].group, key, ts) == Some(v) || HeldOutside(s.store, Members(s.pending[0].group), key, ts, v)
  {
    hide StoreOk, PlansOk, Change, Next, Reports, Memtable.TableOk, Memtable.Holds, Members, Held, HeldOutside, Visible;
    StepChange(hash, s, step);
    InvStep(hash, s, step);
    VisibleIsHeld(hash, Next(hash, s, step).store, key, ts, v);
    HeldAfter(hash, s.store, Next(hash, s, step).store, Members(s.pending[0].group), step.chunk, step.table, step.written, key, ts, v);
  }

  // ----- Runs -----

  function Run(hash: Hash, steps: seq<Step>): State {
    if steps == [] then State(NO_CHUNKS, []) else Next(hash, Run(hash, steps[..|steps| - 1]), steps[|steps| - 1])
  }

  ghost predicate Valid(hash: Hash, steps: seq<Step>) {
    steps != [] ==> Valid(hash, steps[..|steps| - 1]) && Enabled(hash, Run(hash, steps[..|steps| - 1]), steps[|steps| - 1])
  }

  /** Some flush of the run wrote the value. */
  ghost predicate WasFlushed(steps: seq<Step>, key: SeriesKey, ts: i64, v: F64) {
    exists i :: 0 <= i < |steps| && steps[i].Flush? && Memtable.Holds(steps[i].table, key, ts, v)
  }

  lemma WasFlushedSnoc(steps: seq<Step>, key: SeriesKey, ts: i64, v: F64)
    requires steps != []
    ensures var n := |steps| - 1;
            WasFlushed(steps, key, ts, v) <==>
            WasFlushed(steps[..n], key, ts, v) || (steps[n].Flush? && Memtable.Holds(steps[n].table, key, ts, v))
  {
    var n := |steps| - 1;
    if i :| 0 <= i < n && steps[..n][i].Flush? && Memtable.Holds(steps[..n][i].table, key, ts, v) {
      assert steps[i] == steps[..n][i];
    }
    if i :| 0 <= i < n && steps[i].Flush? && Memtable.Holds(steps[i].table, key, ts, v) {
      assert steps[..n][i] == steps[i];
    }
  }

  /** In every reachable state index and files agree and every pending removal list is exact. */
  lemma {:induction false} RunInv(hash: Hash, steps: seq<Step>)
    requires Valid(hash, steps)
    ensures Inv(hash, Run(hash, steps))
  {
    if steps != [] {
      var n := |steps| - 1;
      RunInv(hash, steps[..n]);
      hide Inv, Enabled, Next;
      InvStep(hash, Run(hash, steps[..n]), steps[n]);
    }
  }

  lemma SameStore(hash: Hash, s: State, step: Step)
    requires !step.Flush? && !step.Merge?
    ensures Next(hash, s, step).store == s.store
  {
  }

  lemma {:induction false} HeldWasFlushed(hash: Hash, steps: seq<Step>, key: SeriesKey, ts: i64, v: F64)
    requires Valid(hash, steps)
    ensures Held(Run(hash, steps).store, key, ts, v) ==> WasFlushed(steps, key, ts, v)
  {
    if steps != [] {
      var n := |steps| - 1;
      var s, step := Run(hash, steps[..n]), steps[n];
      assert Enabled(hash, s, step) && Run(hash, steps) == Next(hash, s, step);
      RunInv(hash, steps[..n]);
      HeldWasFlushed(hash, steps[..n], key, ts, v);
      hide *;
      WasFlushedSnoc(steps, key, ts, v);
      if step.Flush? {
        FlushContent(hash, s, step, key, ts, v);
      } else if step.Merge? {
        var _ := MergeContent(hash, s, step, key, ts, v);
      } else {
        SameStore(hash, s, step);
      }
    }
  }

  lemma {:induction false} SlotKept(hash: Hash, steps: seq<Step>, key: SeriesKey, ts: i64, v: F64) returns (w: F64)
    requires Valid(hash, steps)
    ensures WasFlushed(steps, key, ts, v) ==> Held(Run(hash, steps).store, key, ts, w)
  {
    w := v;
    if steps != [] {
      var n := |steps| - 1;
      var s, step := Run(hash, steps[..n]), steps[n];
      assert Enabled(hash, s, step) && Run(hash, steps) == Next(hash, s, step);
      RunInv(hash, steps[..n]);
      w := SlotKept(hash, steps[..n], key, ts, v);
      hide *;
      WasFlushedSnoc(steps, key, ts, v);
      if step.Flush? {
        FlushContent(hash, s, step, key, ts, w);
        if Memtable.Holds(step.table, key, ts, v) {
          w := v;
          FlushContent(hash, s, step, key, ts, w);
        }
      } else if step.Merge? {
        w := MergeContent(hash, s, step, key, ts, w);
      } else {
        SameStore(hash, s, step);
      }
    }
  }

  /**
   * Over every run of flushes and compaction cycles, the index leads to a value of a slot only if
   * some flush wrote it there, and to some value of every slot that was ever flushed.
   */
  lemma CompactionConserves(hash: Hash, steps: seq<Step>, key: SeriesKey, ts: i64)
    requires Valid(hash, steps)
    ensures forall v: F64 :: Visible(hash, Run(hash, steps).store, key, ts, v) ==> WasFlushed(steps, key, ts, v)
    ensures (exists v: F64 :: WasFlushed(steps, key, ts, v)) ==> exists v: F64 :: Visible(hash, Run(hash, steps).store, key, ts, v)
  {
    var s := Run(hash, steps).store;
    RunInv(hash, steps);
    hide StoreOk, PlansOk, Run, Visible, Held, WasFlushed, Valid;
    forall v: F64 ensures Visible(hash, s, key, ts, v) ==> WasFlushed(steps, key, ts, v) {
      VisibleIsHeld(hash, s, key, ts, v);
      HeldWasFlushed(hash, steps, key, ts, v);
    }
    if v: F64 :| WasFlushed(steps, key, ts, v) {
      var w := SlotKept(hash, steps, key, ts, v);
      VisibleIsHeld(hash, s, key, ts, w);
    }
  }

  /** A slot only ever flushed with one value keeps exactly that value. */
  lemma SoleValueVisible(hash: Hash, steps: seq<Step>, key: SeriesKey, ts: i64, v: F64)
    requires Valid(hash, steps)
    requires WasFlushed(steps, key, ts, v) && forall w: F64 :: WasFlushed(steps, key, ts, w) ==> w == v
    ensures forall w: F64 :: Visible(hash, Run(hash, steps).store, key, ts, w) <==> w == v
  {
    hide *;
    CompactionConserves(hash, steps, key, ts);
  }

  // ----- Starts that are taken -----

  /**
   * Entries are keyed by their first timestamp alone. Registering a new chunk leaves every entry in place
   * exactly when none of its series starts where an entry of the same series already does.
   */
  lemma FlushKeepsEntriesExact(hash: Hash, s: Store, c: ChunkId, t: Memtable.Table, ws: seq<Written>, m: Meta)
    requires StoreOk(hash, s) && c !in s.disk && Reports(hash, ws, c, t)
    ensures (forall id: SeriesId, t0: i64 :: TimeAt(s.index, id, t0).Some? ==> TimeAt(RegisterAll(hash, s.index, ws, m), id, t0) == TimeAt(s.index, id, t0))
       <==> (forall i :: 0 <= i < |ws| ==> TimeAt(s.index, hash(ws[i].key), ws[i].entry.start).None?)
  {
    var x, x' := s.index, RegisterAll(hash, s.index, ws, m);
    if forall i :: 0 <= i < |ws| ==> TimeAt(x, hash(ws[i].key), ws[i].entry.start).None? {
      forall id: SeriesId, t0: i64 | TimeAt(x, id, t0).Some? ensures TimeAt(x', id, t0) == TimeAt(x, id, t0) {
        RegisterAllTimes(hash, x, ws, m, id, t0);
      }
    }
    if i :| 0 <= i < |ws| && TimeAt(x, hash(ws[i].key), ws[i].entry.start).Some? {
      var id, t0 := hash(ws[i].key), ws[i].entry.start;
      assert Owned(s, id, t0);
      assert Names(hash, ws[i], id, t0);
      RegisterAllTimes(hash, x, ws, m, id, t0);
      var j :| 0 <= j < |ws| && Names(hash, ws[j], id, t0) && TimeAt(x', id, t0) == Some(ws[j].entry);
      assert ReportOk(hash, ws[j], c, t);
    }
  }

  // One series, all ids equal: enough to show both failures.
  const SERIES := SeriesKey([], map[])
  const CONSTANT: Hash := _ => 0
  const OLDER: Memtable.Table := map[SERIES := [(5, 1), (6, 1)]]
  const NEWER: Memtable.Table := map[SERIES := [(5, 2)]]

  function Report(chunk: ChunkId, end: i64, stats: Pruning.Stats): Written {
    Written(SERIES, SeriesChunk(chunk, 0, 5, end, 0), stats)
  }

  function AfterOlder(stats: Pruning.Stats): Store {
    Flushed(CONSTANT, NO_CHUNKS, 1, OLDER, [Report(1, 6, stats)], Meta(1))
  }

  /** A flush whose series starts where an earlier chunk starts it takes the other points of that chunk out of sight. */
  lemma SharedStartHides(stats: Pruning.Stats)
    ensures Visible(CONSTANT, AfterOlder(stats), SERIES, 6, 1)
    ensures Reports(CONSTANT, [Report(2, 5, stats)], 2, NEWER) && 2 !in AfterOlder(stats).disk
    ensures !Visible(CONSTANT, Flushed(CONSTANT, AfterOlder(stats), 2, NEWER, [Report(2, 5, stats)], Meta(1)), SERIES, 6, 1)
  {
    hide RegisterAll, Registered, TimeAt;
    var one, two, s := [Report(1, 6, stats)], [Report(2, 5, stats)], AfterOlder(stats);
    var s' := Flushed(CONSTANT, s, 2, NEWER, two, Meta(1));
    assert two[0].key == SERIES && Names(CONSTANT, one[0], 0, 5);
    RegisterAllTimes(CONSTANT, NO_CHUNKS.index, one, Meta(1), 0, 5);
    assert OLDER[SERIES][1] == (6, 1);
    assert Memtable.Holds(s.disk[1], SERIES, 6, 1);
    forall t: i64 | TimeAt(s'.index, 0, t).Some? ensures TimeAt(s'.index, 0, t).value.chunk == 2 {
      StartsOnlyAtFive(one, two, t);
    }
    assert s'.disk[2] == NEWER;
  }

  lemma StartsOnlyAtFive(one: seq<Written>, two: seq<Written>, t: i64)
    requires |one| == |two| == 1 && Names(CONSTANT, one[0], 0, 5) && Names(CONSTANT, two[0], 0, 5)
    ensures var x := RegisterAll(CONSTANT, RegisterAll(CONSTANT, NO_CHUNKS.index, one, Meta(1)), two, Meta(1));
            TimeAt(x, 0, t) == if t == 5 then Some(two[0].entry) else None
  {
    var x := RegisterAll(CONSTANT, NO_CHUNKS.index, one, Meta(1));
    RegisterAllTimes(CONSTANT, NO_CHUNKS.index, one, Meta(1), 0, t);
    RegisterAllTimes(CONSTANT, x, two, Meta(1), 0, t);
    assert TimeAt(NO_CHUNKS.index, 0, t).None?;
    hide RegisterAll, TimeAt;
    if t == 5 {
      assert Names(CONSTANT, two[0], 0, t);
    }
  }
}
