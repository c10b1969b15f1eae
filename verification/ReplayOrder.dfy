/** When replaying the log rebuilds the memtable that was lost, and which value of a slot it brings back. */
module ReplayOrder {
  import opened Types
  import opened Durability
  import opened DurabilityInvariant
  import opened DurabilityTheorems
  import Memtable

  predicate Increasing(es: seq<Entry>) {
    forall i, j :: 0 <= i < j < |es| ==> es[i].seqno < es[j].seqno
  }

  // ----- The writer of a slot -----

  /** The value an entry gives to a slot, if it writes it. */
  function Value(e: Entry, slot: Slot): Option<F64> {
    Memtable.Latest(e.points, slot)
  }

  /** `k` is the last entry of the list that writes the slot. */
  ghost predicate LastWriter(es: seq<Entry>, slot: Slot, k: nat) {
    k < |es| && Value(es[k], slot).Some? && forall i :: k < i < |es| ==> Value(es[i], slot).None?
  }

  lemma {:induction false} LatestConcat(a: seq<DataPoint>, b: seq<DataPoint>, slot: Slot)
    ensures Memtable.Latest(a + b, slot) == if Memtable.Latest(b, slot).Some? then Memtable.Latest(b, slot) else Memtable.Latest(a, slot)
  {
    if b == [] {
      assert a + b == a;
    } else {
      var n := |b| - 1;
      assert (a + b)[..|a| + n] == a + b[..n] && (a + b)[|a| + n] == b[n];
      LatestConcat(a, b[..n], slot);
    }
  }

  /** A list of entries gives a slot the value of its last writer. */
  lemma {:induction false} LatestOfEntries(es: seq<Entry>, slot: Slot) returns (k: nat)
    ensures if Memtable.Latest(PointsOf(es), slot).None? then forall i :: 0 <= i < |es| ==> Value(es[i], slot).None?
            else LastWriter(es, slot, k) && Memtable.Latest(PointsOf(es), slot) == Value(es[k], slot)
  {
    k := 0;
    if es != [] {
      hide Memtable.Latest;
      var n := |es| - 1;
      LatestConcat(PointsOf(es[..n]), es[n].points, slot);
      if Value(es[n], slot).Some? {
        k := n;
      } else {
        k := LatestOfEntries(es[..n], slot);
        assert forall i :: 0 <= i < n ==> es[..n][i] == es[i];
      }
    } else {
      EmptyLatest(slot);
    }
  }

  lemma EmptyLatest(slot: Slot)
    ensures Memtable.Latest(PointsOf([]), slot) == None
  {
  }

  /** The value is that of whatever entry is the last writer. */
  lemma LastWriterValue(es: seq<Entry>, slot: Slot, k: nat)
    requires LastWriter(es, slot, k)
    ensures Memtable.Latest(PointsOf(es), slot) == Value(es[k], slot)
  {
    hide Value;
    var m := LatestOfEntries(es, slot);
  }

  // ----- One shard, in whatever order its inserts happen -----

  /** A shard with the entries it has flushed and the sequences deleted from its log. */
  datatype Progress = Progress(shard: Shard, flushed: set<Entry>, gone: set<nat>)

  function After(p: Progress, step: Step): Progress
    requires ShardStep(step) && Ready(p.shard, step)
  {
    Progress(AfterShard(p.shard, step),
             if step.Drain? then p.flushed + Elems(p.shard.mem) else p.flushed,
             if step.DeleteSegments? then p.gone + step.gone else p.gone)
  }

  ghost predicate Runs(p: Progress, steps: seq<Step>)
    decreases |steps|
  {
    steps == [] || (ShardStep(steps[0]) && Ready(p.shard, steps[0]) && Runs(After(p, steps[0]), steps[1..]))
  }

  function EndOf(p: Progress, steps: seq<Step>): Progress
    requires Runs(p, steps)
    decreases |steps|
  {
    if steps == [] then p else EndOf(After(p, steps[0]), steps[1..])
  }

  const FRESH := Progress(FreshShard(), {}, {})

  ghost predicate Waiting(h: Shard, e: Entry) {
    e in h.inflight || e in h.unpublished
  }

  /** Where the entries of the log are, and which entries are still in it. */
  ghost predicate Accounted(p: Progress) {
    var h := p.shard;
    && Increasing(h.wal)
    && (forall e :: e in h.wal || e in h.mem || Waiting(h, e) ==> e.seqno <= h.current)
    && (forall e :: e in h.wal ==> e in p.flushed || e in h.mem || Waiting(h, e) || e in h.abandoned)
    && (forall e :: e in h.mem || Waiting(h, e) ==> e in h.wal || e.seqno in p.gone)
    && (forall e :: e in h.mem ==> !Waiting(h, e))
    && (forall i, j :: 0 <= i < j < |h.mem| ==> h.mem[i] != h.mem[j])
    && (forall e :: e in h.inflight ==> e !in h.unpublished)
  }

  lemma {:induction false} WithoutIncreasing(log: seq<Entry>, gone: set<nat>)
    requires Increasing(log)
    ensures Increasing(Without(log, gone))
  {
    if log != [] {
      WithoutIncreasing(log[1..], gone);
      var rest := Without(log[1..], gone);
      forall i | 0 <= i < |rest| ensures log[0].seqno < rest[i].seqno {
        assert rest[i] in rest && rest[i] in log[1..];
      }
    }
  }

  lemma AccountedSync(p: Progress, step: Step)
    requires Accounted(p) && step.Sync? && Ready(p.shard, step)
    ensures Accounted(After(p, step))
  {
    var h := p.shard;
    var es := Numbered(step.shard, h.current, step.batches);
    assert forall e :: e in es ==> h.current < e.seqno <= h.current + |step.batches|;
    forall a, b | 0 <= a < b < |h.wal + es| ensures (h.wal + es)[a].seqno < (h.wal + es)[b].seqno {
      if a < |h.wal| {
        assert h.wal[a] in h.wal;
        if b >= |h.wal| {
          assert es[b - |h.wal|] in es;
        }
      }
    }
  }

  lemma AccountedDelete(p: Progress, step: Step)
    requires Accounted(p) && step.DeleteSegments? && Ready(p.shard, step)
    ensures Accounted(After(p, step))
  {
    WithoutIncreasing(p.shard.wal, step.gone);
  }

  lemma AccountedMove(p: Progress, step: Step)
    requires Accounted(p) && ShardStep(step) && !step.Sync? && !step.DeleteSegments? && Ready(p.shard, step)
    ensures Accounted(After(p, step))
  {
    hide Increasing;
  }

  lemma {:induction false} RunAccounted(p: Progress, steps: seq<Step>)
    requires Accounted(p) && Runs(p, steps)
    ensures Accounted(EndOf(p, steps))
    decreases |steps|
  {
    if steps != [] {
      hide Accounted, Ready, After;
      var step := steps[0];
      if step.Sync? {
        AccountedSync(p, step);
      } else if step.DeleteSegments? {
        AccountedDelete(p, step);
      } else {
        AccountedMove(p, step);
      }
      RunAccounted(After(p, step), steps[1..]);
    }
  }

  /**
    At rest: every committed entry is inserted or was given up, what was flushed or deleted is at or below the
    watermark, and what is in the memtable is above it.
  */
  ghost predicate AtRest(p: Progress, watermark: nat) {
    && p.shard.inflight == {} && p.shard.unpublished == []
    && (forall e :: e in p.flushed ==> e.seqno <= watermark)
    && (forall q :: q in p.gone ==> q <= watermark)
    && (forall e :: e in p.shard.mem ==> watermark < e.seqno)
  }

  /** Replay reads exactly the memtable and the appends above the watermark that were given up. */
  lemma SameEntries(p: Progress, watermark: nat)
    requires Accounted(p) && AtRest(p, watermark)
    ensures forall e :: e in p.shard.mem ==> e in Replay(p.shard.wal, watermark)
    ensures forall e :: e in Replay(p.shard.wal, watermark) ==> e in p.shard.mem || e in p.shard.abandoned
  {
    hide Increasing;
  }

  lemma {:induction false} ReplayIncreasing(log: seq<Entry>, watermark: nat)
    requires Increasing(log)
    ensures Increasing(Replay(log, watermark))
  {
    if log != [] {
      ReplayIncreasing(log[1..], watermark);
      var rest := Replay(log[1..], watermark);
      forall i | 0 <= i < |rest| ensures log[0].seqno < rest[i].seqno {
        assert rest[i] in rest && rest[i] in log[1..];
      }
    }
  }

  /** No entry above the watermark was given up after its sync. */
  ghost predicate NoneAbandoned(p: Progress, watermark: nat) {
    forall e :: e in p.shard.abandoned ==> e.seqno <= watermark
  }

  /** Both give the slot the same value. */
  ghost predicate Agree(p: Progress, watermark: nat, slot: Slot) {
    Memtable.Latest(PointsOf(Replay(p.shard.wal, watermark)), slot) == Memtable.Latest(PointsOf(p.shard.mem), slot)
  }

  /** `b` is the entry with the highest sequence above the watermark that writes the slot. */
  ghost predicate NewestLogged(p: Progress, watermark: nat, slot: Slot, b: Entry) {
    && b in p.shard.wal && watermark < b.seqno && Value(b, slot).Some?
    && forall e :: e in p.shard.wal && Value(e, slot).Some? ==> e.seqno <= b.seqno
  }

  lemma NewestIsLast(p: Progress, watermark: nat, slot: Slot, b: Entry) returns (k: nat)
    requires Increasing(p.shard.wal) && NewestLogged(p, watermark, slot, b)
    ensures LastWriter(Replay(p.shard.wal, watermark), slot, k) && Replay(p.shard.wal, watermark)[k] == b
  {
    hide Value;
    var es := Replay(p.shard.wal, watermark);
    ReplayIncreasing(p.shard.wal, watermark);
    k :| 0 <= k < |es| && es[k] == b;
    forall i | k < i < |es| ensures Value(es[i], slot).None? {
      assert es[i] in es;
    }
  }

  /**
    Exactly when replay rebuilds the value of a slot: if and only if the entry with the highest sequence that
    writes it and the entry that was inserted last of those that write it give it the same value.
  */
  lemma SlotExact(p: Progress, watermark: nat, slot: Slot, b: Entry, k: nat)
    requires Accounted(p) && NewestLogged(p, watermark, slot, b) && LastWriter(p.shard.mem, slot, k)
    ensures Agree(p, watermark, slot) <==> Value(b, slot) == Value(p.shard.mem[k], slot)
  {
    hide Value, PointsOf, Replay;
    var m := NewestIsLast(p, watermark, slot, b);
    LastWriterValue(Replay(p.shard.wal, watermark), slot, m);
    LastWriterValue(p.shard.mem, slot, k);
  }

  predicate Conflict(a: Entry, b: Entry, slot: Slot) {
    Value(a, slot).Some? && Value(b, slot).Some? && Value(a, slot) != Value(b, slot)
  }

  /** Entries that give the slot different values were inserted in commit order. */
  ghost predicate ConflictsInOrder(mem: seq<Entry>, slot: Slot) {
    forall i, j :: 0 <= i < j < |mem| && Conflict(mem[i], mem[j], slot) ==> mem[i].seqno < mem[j].seqno
  }

  lemma ListsAgree(es: seq<Entry>, mem: seq<Entry>, slot: Slot)
    requires Increasing(es) && (forall e :: e in es <==> e in mem) && ConflictsInOrder(mem, slot)
    ensures Memtable.Latest(PointsOf(es), slot) == Memtable.Latest(PointsOf(mem), slot)
  {
    hide Value, PointsOf, Memtable.Latest;
    var m := LatestOfEntries(es, slot);
    var k := LatestOfEntries(mem, slot);
    if Memtable.Latest(PointsOf(es), slot).Some? {
      assert es[m] in es;
      var i :| 0 <= i < |mem| && mem[i] == es[m];
      if Memtable.Latest(PointsOf(mem), slot).Some? {
        assert mem[k] in mem;
        var n :| 0 <= n < |es| && es[n] == mem[k];
        assert i <= k && n <= m;
      }
    } else {
      forall i | 0 <= i < |mem| ensures Value(mem[i], slot).None? {
        assert mem[i] in es;
      }
    }
  }

  /** Only conflicting entries need to be inserted in commit order. */
  lemma ConflictsDecide(p: Progress, watermark: nat, slot: Slot)
    requires Accounted(p) && AtRest(p, watermark) && NoneAbandoned(p, watermark) && ConflictsInOrder(p.shard.mem, slot)
    ensures Agree(p, watermark, slot)
  {
    hide Increasing, ConflictsInOrder, PointsOf, Memtable.Latest;
    SameList(p, watermark);
    ReplayIncreasing(p.shard.wal, watermark);
    ListsAgree(Replay(p.shard.wal, watermark), p.shard.mem, slot);
  }

  lemma Inhabited(es: seq<Entry>)
    ensures es != [] ==> exists e :: e in es
  {
    if es != [] {
      assert es[0] in es;
    }
  }

  /** Two increasing lists with the same entries are equal. */
  lemma {:induction false} SameIncreasing(a: seq<Entry>, b: seq<Entry>)
    requires Increasing(a) && Increasing(b) && forall e :: e in a <==> e in b
    ensures a == b
  {
    if a == [] {
      Inhabited(b);
    } else {
      assert a[0] in a && b != [] && b[0] in b;
      var i :| 0 <= i < |b| && b[i] == a[0];
      var j :| 0 <= j < |a| && a[j] == b[0];
      assert i == 0 && j == 0;
      forall e ensures e in a[1..] <==> e in b[1..] {
        if e in a[1..] {
          assert e in a && e in b;
        }
        if e in b[1..] {
          assert e in b && e in a;
        }
      }
      SameIncreasing(a[1..], b[1..]);
    }
  }

  /**
    Over every run of a shard, deletions and failed appends included: once it is at rest and nothing above the
    watermark was given up, replay reads exactly the memtable, in the same order if and only if all inserts followed
    commit order, and with the same value for every slot whose conflicting entries did.
  */
  lemma ReplayRebuildsMemtable(steps: seq<Step>, watermark: nat)
    requires Runs(FRESH, steps) && AtRest(EndOf(FRESH, steps), watermark) && NoneAbandoned(EndOf(FRESH, steps), watermark)
    ensures var h := EndOf(FRESH, steps).shard;
      && (Replay(h.wal, watermark) == h.mem <==> Increasing(h.mem))
      && (forall e :: e in Replay(h.wal, watermark) <==> e in h.mem)
      && forall slot :: ConflictsInOrder(h.mem, slot) ==> Agree(EndOf(FRESH, steps), watermark, slot)
  {
    hide Runs, EndOf, Replay, Increasing, AtRest, ConflictsInOrder, Agree;
    FreshAccounted();
    RunAccounted(FRESH, steps);
    var p := EndOf(FRESH, steps);
    SameList(p, watermark);
    forall slot | ConflictsInOrder(p.shard.mem, slot) ensures Agree(p, watermark, slot) {
      ConflictsDecide(p, watermark, slot);
    }
  }

  lemma FreshAccounted()
    ensures Accounted(FRESH)
  {
  }

  lemma SameList(p: Progress, watermark: nat)
    requires Accounted(p) && AtRest(p, watermark) && NoneAbandoned(p, watermark)
    ensures Replay(p.shard.wal, watermark) == p.shard.mem <==> Increasing(p.shard.mem)
    ensures forall e :: e in Replay(p.shard.wal, watermark) <==> e in p.shard.mem
  {
    hide Increasing;
    SameEntries(p, watermark);
    ReplayIncreasing(p.shard.wal, watermark);
    if Increasing(p.shard.mem) {
      SameIncreasing(Replay(p.shard.wal, watermark), p.shard.mem);
    }
  }

  /** A run whose two inserts go against commit order: replay brings back another value than the memtable had. */
  lemma OutOfOrderDiffers(key: SeriesKey)
    ensures var a, b := Entry(0, 1, [DataPoint(key, 0, 1)]), Entry(0, 2, [DataPoint(key, 0, 2)]);
            var steps := [Sync(0, [a.points, b.points]), PublishSeq(0), Insert(0, b), Insert(0, a)];
      && Runs(FRESH, steps) && AtRest(EndOf(FRESH, steps), 0) && NoneAbandoned(EndOf(FRESH, steps), 0)
      && !Agree(EndOf(FRESH, steps), 0, (key, 0))
  {
    hide Runs, EndOf, Agree, Accounted, Memtable.Latest, Replay, PointsOf;
    var a, b := Entry(0, 1, [DataPoint(key, 0, 1)]), Entry(0, 2, [DataPoint(key, 0, 2)]);
    TwoRun(a, b);
    FreshAccounted();
    RunAccounted(FRESH, Against(a, b));
    TwoDiffer(EndOf(FRESH, Against(a, b)), a, b, key);
  }

  /** Two commits, inserted in the other order. */
  function Against(a: Entry, b: Entry): seq<Step> {
    [Sync(0, [a.points, b.points]), PublishSeq(0), Insert(0, b), Insert(0, a)]
  }

  lemma TwoRun(a: Entry, b: Entry)
    requires a.shard == b.shard == 0 && a.seqno == 1 && b.seqno == 2
    ensures Runs(FRESH, Against(a, b))
    ensures EndOf(FRESH, Against(a, b)) ==
            Progress(FreshShard().(current := 2, last := 2, history := {a, b}, wal := [a, b], mem := [b, a]), {}, {})
  {
    hide Runs, EndOf, After;
    var p := TwoSynced(a, b);
    var end := TwoInserted(p, b, a);
    var sync, inserts := Sync(0, [a.points, b.points]), [Insert(0, b), Insert(0, a)];
    RunsCons(After(FRESH, sync), PublishSeq(0), inserts);
    RunsCons(FRESH, sync, [PublishSeq(0)] + inserts);
    assert Against(a, b) == [sync] + ([PublishSeq(0)] + inserts);
  }

  lemma TwoDiffer(p: Progress, a: Entry, b: Entry, key: SeriesKey)
    requires Accounted(p) && p.shard.wal == [a, b] && p.shard.mem == [b, a] && 0 < a.seqno < b.seqno
    requires a.points == [DataPoint(key, 0, 1)] && b.points == [DataPoint(key, 0, 2)]
    ensures !Agree(p, 0, (key, 0))
  {
    hide Agree, Accounted, Memtable.Latest, Replay, PointsOf;
    OneValue(a, key, 1);
    OneValue(b, key, 2);
    assert LastWriter([b, a], (key, 0), 1) && NewestLogged(p, 0, (key, 0), b);
    SlotExact(p, 0, (key, 0), b, 1);
  }

  lemma OneValue(e: Entry, key: SeriesKey, v: F64)
    requires e.points == [DataPoint(key, 0, v)]
    ensures Value(e, (key, 0)) == Some(v)
  {
  }

  lemma RunsCons(p: Progress, step: Step, rest: seq<Step>)
    requires ShardStep(step) && Ready(p.shard, step) && Runs(After(p, step), rest)
    ensures Runs(p, [step] + rest) && EndOf(p, [step] + rest) == EndOf(After(p, step), rest)
  {
    assert ([step] + rest)[1..] == rest;
  }

  lemma TwoInserted(p: Progress, b: Entry, a: Entry) returns (end: Progress)
    requires a != b && p.shard.inflight == {a, b} && p.shard.mem == []
    ensures Runs(p, [Insert(0, b), Insert(0, a)]) && end == EndOf(p, [Insert(0, b), Insert(0, a)])
    ensures end == p.(shard := p.shard.(inflight := {}, mem := [b, a]))
  {
    var p1 := After(p, Insert(0, b));
    end := After(p1, Insert(0, a));
    assert {a, b} - {b} == {a};
    assert [Insert(0, b), Insert(0, a)] == [Insert(0, b)] + ([Insert(0, a)] + []);
    RunsCons(p1, Insert(0, a), []);
    RunsCons(p, Insert(0, b), [Insert(0, a)] + []);
  }

  lemma TwoSynced(a: Entry, b: Entry) returns (p: Progress)
    requires a.shard == b.shard == 0 && a.seqno == 1 && b.seqno == 2
    ensures Ready(FreshShard(), Sync(0, [a.points, b.points]))
    ensures Ready(After(FRESH, Sync(0, [a.points, b.points])).shard, PublishSeq(0))
    ensures p == After(After(FRESH, Sync(0, [a.points, b.points])), PublishSeq(0))
    ensures p == Progress(FreshShard().(current := 2, last := 2, history := {a, b}, wal := [a, b], inflight := {a, b}), {}, {})
  {
    assert Numbered(0, 0, [a.points, b.points]) == [a, b];
    assert Elems([a, b]) == {a, b} && [] + [a, b] == [a, b];
    p := After(After(FRESH, Sync(0, [a.points, b.points])), PublishSeq(0));
  }

  // ----- Whole runs: the last committed value -----

  /** Every insert of the run comes after the memtable's entries in commit order. */
  ghost predicate OrderedRun(s: State, steps: seq<Step>)
    requires Valid(s, steps)
    decreases |steps|
  {
    steps == [] || (Ordered(s, steps[0]) && OrderedRun(Next(s, steps[0]), steps[1..]))
  }

  predicate Ordered(s: State, step: Step)
    requires Enabled(s, step)
  {
    step.Insert? ==> forall e :: e in s.shards[step.shard].mem ==> e.seqno < step.entry.seqno
  }

  /** Logs, memtables, batches and chunks are all in commit order. */
  ghost predicate InOrder(s: State) {
    && (forall j :: 0 <= j < |s.shards| ==> ShardInOrder(s.shards[j]))
    && (forall id :: id in s.chunks ==> Increasing(s.chunks[id]))
  }

  ghost predicate ShardInOrder(h: Shard) {
    && Increasing(h.wal) && Increasing(h.mem) && (h.flush.Drained? ==> Increasing(h.flush.batch))
    && (forall e :: e in h.wal ==> e.seqno <= h.current)
  }

  lemma ShardOrderStep(h: Shard, step: Step)
    requires ShardStep(step) && Ready(h, step) && ShardInOrder(h)
    requires step.Insert? ==> forall e :: e in h.mem ==> e.seqno < step.entry.seqno
    ensures ShardInOrder(AfterShard(h, step))
  {
    if step.DeleteSegments? {
      WithoutIncreasing(h.wal, step.gone);
    } else if step.Sync? {
      var es := Numbered(step.shard, h.current, step.batches);
      forall a, b | 0 <= a < b < |h.wal + es| ensures (h.wal + es)[a].seqno < (h.wal + es)[b].seqno {
        if a < |h.wal| {
          assert h.wal[a] in h.wal;
        }
      }
    }
  }

  lemma OrderStep(s: State, step: Step)
    requires InOrder(s) && Enabled(s, step) && Ordered(s, step)
    ensures InOrder(Next(s, step))
  {
    hide Ready, AfterShard, WorkerEnabled, Increasing;
    if ShardStep(step) {
      ShardOrderStep(s.shards[step.shard], step);
      assert ShardInOrder(s.shards[step.shard]);
      if step.WriteChunk? {
        WriteDrained(s, step);
      }
    } else {
      NoNewChunks(s, step);
      forall j | 0 <= j < |s.shards| ensures ShardInOrder(Next(s, step).shards[j]) {
        assert ShardInOrder(s.shards[j]);
        PersistedOnly(s, step, j);
      }
    }
  }

  lemma WriteDrained(s: State, step: Step)
    requires Enabled(s, step) && step.WriteChunk?
    ensures s.shards[step.shard].flush.Drained?
  {
  }

  lemma NoNewChunks(s: State, step: Step)
    requires !ShardStep(step) && Enabled(s, step)
    ensures Next(s, step).chunks == s.chunks && |Next(s, step).shards| == |s.shards|
  {
  }

  lemma {:induction false} RunInOrder(s: State, steps: seq<Step>)
    requires InOrder(s) && Valid(s, steps) && OrderedRun(s, steps)
    ensures InOrder(Exec(s, steps))
    decreases |steps|
  {
    hide InOrder, Enabled, Next, Ordered;
    if steps != [] {
      OrderStep(s, steps[0]);
      RunInOrder(Next(s, steps[0]), steps[1..]);
    }
  }

  /** No other entry of the history writes the slot with a higher sequence, or on another shard. */
  ghost predicate LastCommitted(s: State, e: Entry, slot: Slot) {
    forall i, f :: 0 <= i < |s.shards| && f in s.shards[i].history && f != e && Value(f, slot).Some? ==>
      i == e.shard && f.shard == e.shard && f.seqno < e.seqno
  }

  /** In an ordered list the last committed writer of a slot is its last writer. */
  lemma LastInList(es: seq<Entry>, e: Entry, slot: Slot)
    requires Increasing(es) && e in es && Value(e, slot).Some?
    requires forall f :: f in es && f != e && Value(f, slot).Some? ==> f.seqno < e.seqno
    ensures Holds(es, slot, Value(e, slot).value)
  {
    hide Value;
    var k :| 0 <= k < |es| && es[k] == e;
    forall i | k < i < |es| ensures Value(es[i], slot).None? {
      assert es[i] in es;
    }
    LastWriterValue(es, slot, k);
  }

  /**
    When inserts follow commit order, a crash at the end of any guarded run recovers for every slot the value of the
    last committed entry that writes it, whatever older values of the slot its chunks may hold as well.
  */
  lemma LastCommittedRecovered(n: nat, steps: seq<Step>, j: nat, e: Entry, slot: Slot)
    requires Valid(Init(n), steps) && GuardedRun(Init(n), steps) && OrderedRun(Init(n), steps)
    requires var s := Exec(Init(n), steps);
      && j < |s.shards| && e in s.shards[j].history && e !in s.shards[j].abandoned
      && Value(e, slot).Some? && LastCommitted(s, e, slot)
    ensures Recovers(Exec(Init(n), steps), slot, Value(e, slot).value)
  {
    InitInv(n);
    RunInv(Init(n), steps);
    InitInOrder(n);
    RunInOrder(Init(n), steps);
    var s := Exec(Init(n), steps);
    hide Valid, GuardedRun, OrderedRun, Exec, Value, Init, WorkerOk;
    LastRecovered(s, j, e, slot);
  }

  lemma InitInOrder(n: nat)
    ensures InOrder(Init(n))
  {
  }

  lemma LastRecovered(s: State, j: nat, e: Entry, slot: Slot)
    requires Inv(s) && InOrder(s) && j < |s.shards| && e in s.shards[j].history && e !in s.shards[j].abandoned
    requires Value(e, slot).Some? && LastCommitted(s, e, slot)
    ensures Recovers(s, slot, Value(e, slot).value)
  {
    hide Value, Increasing, WorkerOk, Holds;
    var h := s.shards[j];
    assert ShardOk(s, j) && ShardInOrder(h);
    if e in h.wal && s.disk.watermarks[j] < e.seqno {
      ReplayIncreasing(h.wal, s.disk.watermarks[j]);
      LastInList(Replay(h.wal, s.disk.watermarks[j]), e, slot);
    } else {
      assert Filed(s.chunks, s.disk.index, e);
      var id :| id in s.disk.index && id in s.chunks && e in s.chunks[id];
      LastInList(s.chunks[id], e, slot);
    }
  }
}
