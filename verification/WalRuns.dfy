/** What the group-commit task keeps on disk, over every run from a fresh or a reopened log. */
module WalRuns {
  import opened Types
  import opened WalFrames
  import opened WalSegments
  import opened GroupCommit
  import opened GroupCommitTheorems

  // ----- Honest tags -----

  /** Every tag bounds the entries of its segment. Maximal tags of a reopened log are honest too. */
  ghost predicate Honest(w: Writer) {
    && w.handle == w.currentSegment && w.currentSegment in w.files
    && (forall n :: n in w.files ==> n <= w.currentSegment)
    && (forall i :: 0 <= i < |w.completed| ==> TagHonest(w, w.completed[i]))
    && (forall e :: e in Segment(w, w.currentSegment) ==> e.seqno <= w.currentSeq)
  }

  ghost predicate TagHonest(w: Writer, t: Tag) {
    t.segment < w.currentSegment && forall e :: e in Segment(w, t.segment) ==> e.seqno <= t.maxSeq
  }

  lemma WriterOkIsHonest(w: Writer)
    requires WriterOk(w)
    ensures Honest(w)
  {
    forall i | 0 <= i < |w.completed| ensures TagHonest(w, w.completed[i]) {
      assert TagBounds(w, w.completed[i]);
    }
  }

  lemma HonestBegun(w: Writer, n: nat)
    requires Honest(w)
    ensures Honest(w.(currentSeq := w.currentSeq + n))
  {
    var w' := w.(currentSeq := w.currentSeq + n);
    forall i | 0 <= i < |w'.completed| ensures TagHonest(w', w'.completed[i]) {
      assert TagHonest(w, w.completed[i]);
    }
  }

  lemma HonestWrote(c: Codec, w: Writer, es: seq<LogEntry>)
    requires Honest(w) && forall e :: e in es ==> e.seqno <= w.currentSeq
    ensures Honest(Wrote(c, w, es))
    ensures forall e :: Holds(Wrote(c, w, es), e) <==> Holds(w, e) || e in es
  {
    hide Frames;
    var w' := Wrote(c, w, es);
    forall i | 0 <= i < |w'.completed| ensures TagHonest(w', w'.completed[i]) {
      assert TagHonest(w, w.completed[i]);
    }
    forall e ensures Holds(w', e) <==> Holds(w, e) || e in es {
      if Holds(w, e) {
        var n :| n in w.files && e in w.files[n];
        assert n in w'.files && e in w'.files[n];
      }
      if e in es {
        assert e in w'.files[w.handle];
      }
    }
  }

  lemma HonestRotated(w: Writer)
    requires Honest(w)
    ensures Honest(Rotated(w, true))
    ensures forall e :: Holds(Rotated(w, true), e) <==> Holds(w, e)
  {
    var w' := Rotated(w, true);
    forall i | 0 <= i < |w'.completed| ensures TagHonest(w', w'.completed[i]) {
      if i < |w.completed| {
        assert TagHonest(w, w.completed[i]);
      }
    }
    HoldsSame(w, w');
  }

  lemma {:induction false} RetainedFrom(tags: seq<Tag>, bound: nat)
    ensures forall t :: t in Retained(tags, bound) ==> t in tags
  {
    if tags != [] {
      var n := |tags| - 1;
      RetainedFrom(tags[..n], bound);
      assert forall t :: t in tags[..n] ==> t in tags;
    }
  }

  /** A drain deletes no entry above its bound. */
  lemma HonestDrained(w: Writer, bound: nat)
    requires Honest(w)
    ensures Honest(Drained(w, bound))
    ensures forall e :: Holds(w, e) && e.seqno > bound ==> Holds(Drained(w, bound), e)
    ensures forall e :: Holds(Drained(w, bound), e) ==> Holds(w, e)
  {
    var w' := Drained(w, bound);
    RetainedFrom(w.completed, bound);
    DrainedFiles(w, bound);
    hide Retained, Expired;
    forall i | 0 <= i < |w'.completed| ensures TagHonest(w', w'.completed[i]) {
      assert w'.completed[i] in w'.completed;
      var k :| 0 <= k < |w.completed| && w.completed[k] == w'.completed[i];
      assert TagHonest(w, w.completed[k]);
    }
    forall e | Holds(w, e) && e.seqno > bound ensures Holds(w', e) {
      var n :| n in w.files && e in w.files[n];
      assert n in w'.files && e in w'.files[n];
    }
  }

  lemma DrainedFiles(w: Writer, bound: nat)
    requires Honest(w)
    ensures w.currentSegment in Drained(w, bound).files
    ensures forall n, e :: n in w.files && e in w.files[n] && e.seqno > bound ==> n in Drained(w, bound).files
    ensures forall n :: n in Drained(w, bound).files ==> n in w.files && Drained(w, bound).files[n] == w.files[n]
  {
    forall n | n in Expired(w.completed, bound)
      ensures n != w.currentSegment && forall e :: e in Segment(w, n) ==> e.seqno <= bound
    {
      ExpiredIs(w.completed, bound, n);
      var i :| 0 <= i < |w.completed| && w.completed[i].segment == n && w.completed[i].maxSeq <= bound;
      assert TagHonest(w, w.completed[i]);
    }
  }

  // ----- One turn -----

  /** No request asks for more than `bound` to be deleted; explicit rotations are told apart below. */
  ghost predicate Asks(rs: seq<Request>, bound: nat) {
    forall i :: 0 <= i < |rs| ==> rs[i].message.DrainBefore? ==> rs[i].message.bound <= bound
  }

  lemma {:induction false} GatherAsks(current: nat, batch: seq<Request>, bound: nat)
    requires Asks(batch, bound)
    ensures forall i :: 0 <= i < |Gather(current, batch).drains| ==> Gather(current, batch).drains[i].0 <= bound
  {
    if batch != [] {
      GatherAsks(current, batch[..|batch| - 1], bound);
    }
  }

  /** The write of the turn succeeded, or there was nothing to write. */
  predicate Commits(t: Task, turn: Turn) {
    NewEntries(t, turn.batch) == [] || turn.io.writeOk
  }

  /** An explicit rotation was served: it deletes every completed segment. */
  predicate Clears(t: Task, turn: Turn) {
    Commits(t, turn) && Gather(t.writer.currentSeq, turn.batch).rotate.Some?
  }

  predicate RotationsSucceed(turn: Turn) {
    turn.io.sizeRotateOk && turn.io.rotateOk
  }

  function Added(t: Task, turn: Turn): set<LogEntry> {
    if Commits(t, turn) then set e | e in NewEntries(t, turn.batch) else {}
  }

  /** Of the entries in `live`, those above the bound are on disk; what is on disk was there before or is in `synced`. */
  ghost predicate Kept(live: set<LogEntry>, before: Writer, synced: set<LogEntry>, w: Writer, bound: nat) {
    && Honest(w)
    && (forall e :: e in live && e.seqno > bound ==> Holds(w, e))
    && (forall e :: Holds(w, e) ==> Holds(before, e) || e in synced)
  }

  lemma CommittedKept(c: Codec, t: Task, g: Gathered, live: set<LogEntry>, before: Writer, synced: set<LogEntry>, bound: nat)
    requires Kept(live, before, synced, t.writer, bound) && |g.appends| == |g.entries|
    requires forall e :: e in g.entries ==> e.seqno <= t.writer.currentSeq
    ensures Kept(live + (set e | e in g.entries), before, synced + (set e | e in g.entries), Committed(c, t, g).writer, bound)
  {
    hide Honest, Wrote;
    HonestWrote(c, t.writer, g.entries);
  }

  lemma SizeRotatedKept(maxBytes: nat, t: Task, io: Io, live: set<LogEntry>, before: Writer, synced: set<LogEntry>, bound: nat)
    requires Kept(live, before, synced, t.writer, bound) && io.sizeRotateOk
    ensures Kept(live, before, synced, SizeRotated(maxBytes, t, io).writer, bound)
  {
    hide Honest, Rotated;
    HonestRotated(t.writer);
  }

  lemma DrainServedKept(t: Task, g: Gathered, live: set<LogEntry>, before: Writer, synced: set<LogEntry>, bound: nat)
    requires Kept(live, before, synced, t.writer, bound) && forall i :: 0 <= i < |g.drains| ==> g.drains[i].0 <= bound
    ensures Kept(live, before, synced, DrainServed(t, g).writer, bound)
  {
    hide Honest, Drained;
    if g.drains != [] {
      HonestDrained(t.writer, MaxBound(g.drains));
    }
  }

  lemma RotateServedKept(t: Task, g: Gathered, io: Io, live: set<LogEntry>, before: Writer, synced: set<LogEntry>, bound: nat)
    requires Kept(live, before, synced, t.writer, bound) && io.rotateOk
    ensures Kept(if g.rotate.Some? then {} else live, before, synced, RotateServed(t, g, io).writer, bound)
  {
    hide Honest, Rotated, Drained;
    if g.rotate.Some? {
      HonestRotated(t.writer);
      HonestDrained(Rotated(t.writer, true), U64_MAX);
    }
  }

  lemma BegunKept(t: Task, g: Gathered, live: set<LogEntry>, before: Writer, synced: set<LogEntry>, bound: nat)
    requires Kept(live, before, synced, t.writer, bound)
    ensures Kept(live, before, synced, Begun(t, g).writer, bound)
  {
    hide Honest;
    HonestBegun(t.writer, |g.entries|);
    HoldsSame(t.writer, Begun(t, g).writer);
  }

  lemma HandleKept(c: Codec, maxBytes: nat, t: Task, turn: Turn, live: set<LogEntry>, before: Writer, synced: set<LogEntry>, bound: nat)
    requires Kept(live, before, synced, t.writer, bound) && Asks(turn.batch, bound) && RotationsSucceed(turn)
    ensures Kept(if Clears(t, turn) then {} else live + Added(t, turn), before, synced + Added(t, turn),
                 Handle(c, maxBytes, t, turn.batch, turn.io).writer, bound)
  {
    hide Kept, Gather, SizeRotated, DrainServed, RotateServed, Committed, Asks;
    var g := Gather(t.writer.currentSeq, turn.batch);
    GatherShape(t.writer.currentSeq, turn.batch);
    GatherAsks(t.writer.currentSeq, turn.batch, bound);
    var t0 := Begun(t, g);
    BegunKept(t, g, live, before, synced, bound);
    if Commits(t, turn) {
      var more, every := live + Added(t, turn), synced + Added(t, turn);
      CommittedKept(c, t0, g, live, before, synced, bound);
      var t1 := Committed(c, t0, g);
      SizeRotatedKept(maxBytes, t1, turn.io, more, before, every, bound);
      var t2 := SizeRotated(maxBytes, t1, turn.io);
      DrainServedKept(t2, g, more, before, every, bound);
      RotateServedKept(DrainServed(t2, g), g, turn.io, more, before, every, bound);
    } else {
      assert live + {} == live && synced + {} == synced;
    }
  }

  // ----- Runs -----

  /** Everything a run synced. */
  function SyncedBy(c: Codec, maxBytes: nat, start: Task, turns: seq<Turn>): set<LogEntry> {
    if turns == [] then {}
    else
      var n := |turns| - 1;
      SyncedBy(c, maxBytes, start, turns[..n]) + Added(Run(c, maxBytes, start, turns[..n]), turns[n])
  }

  /** What a run synced since its last explicit rotation. */
  function Surviving(c: Codec, maxBytes: nat, start: Task, turns: seq<Turn>): set<LogEntry> {
    if turns == [] then {}
    else
      var n := |turns| - 1;
      var t := Run(c, maxBytes, start, turns[..n]);
      if Clears(t, turns[n]) then {} else Surviving(c, maxBytes, start, turns[..n]) + Added(t, turns[n])
  }

  ghost predicate Asked(turns: seq<Turn>, bound: nat) {
    forall i :: 0 <= i < |turns| ==> Asks(turns[i].batch, bound) && RotationsSucceed(turns[i])
  }

  /**
    Over any run from any honest writer, fresh or reopened, whose rotations succeed and whose drain
    requests stay at or below `bound`: every entry synced since the last explicit rotation and above
    `bound` is in a segment file, and a segment file holds nothing but what was there and what was synced.
  */
  lemma {:induction false} SyncedSurvives(c: Codec, maxBytes: nat, start: Task, turns: seq<Turn>, bound: nat)
    requires Honest(start.writer) && Asked(turns, bound)
    ensures Kept(Surviving(c, maxBytes, start, turns), start.writer, SyncedBy(c, maxBytes, start, turns),
                 Run(c, maxBytes, start, turns).writer, bound)
  {
    hide Kept, Honest, Handle, Asks, Added, Clears;
    if turns == [] {
      NothingYet(start.writer, bound);
    } else {
      var n := |turns| - 1;
      var front, turn := turns[..n], turns[n];
      SyncedSurvives(c, maxBytes, start, front, bound);
      HandleKept(c, maxBytes, Run(c, maxBytes, start, front), turn, Surviving(c, maxBytes, start, front), start.writer,
                 SyncedBy(c, maxBytes, start, front), bound);
    }
  }

  lemma NothingYet(w: Writer, bound: nat)
    requires Honest(w)
    ensures Kept({}, w, {}, w, bound)
  {
  }

  // ----- Runs from a fresh writer -----

  /** A turn keeps segments and tags in order. */
  lemma HandleOk(c: Codec, maxBytes: nat, t: Task, turn: Turn)
    requires WriterOk(t.writer) && RotationsSucceed(turn)
    ensures WriterOk(Handle(c, maxBytes, t, turn.batch, turn.io).writer)
  {
    hide WriterOk, Gather, Wrote, Rotated, Drained;
    var g := Gather(t.writer.currentSeq, turn.batch);
    GatherShape(t.writer.currentSeq, turn.batch);
    var t0 := Begun(t, g);
    NumbersGrow(t.writer, |g.entries|);
    if Commits(t, turn) {
      TagsBelow(t.writer);
      WroteOk(c, t0.writer, g.entries);
      var t1 := Committed(c, t0, g);
      RotateExact(t1.writer, true);
      var t2 := SizeRotated(maxBytes, t1, turn.io);
      var _ := DrainConserves(t2.writer, MaxBound(g.drains));
      var t3 := DrainServed(t2, g);
      RotateExact(t3.writer, true);
      var _ := DrainConserves(Rotated(t3.writer, true), U64_MAX);
    }
  }

  lemma TagsBelow(w: Writer)
    requires WriterOk(w)
    ensures forall i :: 0 <= i < |w.completed| ==> w.completed[i].maxSeq <= w.currentSeq
  {
  }

  lemma {:induction false} RunOk(c: Codec, maxBytes: nat, turns: seq<Turn>)
    requires forall i :: 0 <= i < |turns| ==> RotationsSucceed(turns[i])
    ensures WriterOk(Run(c, maxBytes, Start(), turns).writer)
  {
    if turns == [] {
      FreshOk();
    } else {
      var n := |turns| - 1;
      RunOk(c, maxBytes, turns[..n]);
      HandleOk(c, maxBytes, Run(c, maxBytes, Start(), turns[..n]), turns[n]);
    }
  }

  /**
    Over any run from a fresh writer whose rotations succeed: segment numbers and tags stay in order, every
    tag bounds its segment, and every entry synced since the last explicit rotation and above every
    requested bound is still in a segment file.
  */
  lemma DeletionConservesLog(c: Codec, maxBytes: nat, turns: seq<Turn>, bound: nat)
    requires Asked(turns, bound)
    ensures WriterOk(Run(c, maxBytes, Start(), turns).writer)
    ensures Kept(Surviving(c, maxBytes, Start(), turns), Fresh(), SyncedBy(c, maxBytes, Start(), turns),
                 Run(c, maxBytes, Start(), turns).writer, bound)
  {
    hide WriterOk, Kept, Run, Surviving, SyncedBy;
    RunOk(c, maxBytes, turns);
    FreshOk();
    WriterOkIsHonest(Fresh());
    SyncedSurvives(c, maxBytes, Start(), turns, bound);
  }

  /** What the run synced is what an observer of its trace saw synced. */
  lemma {:induction false} SyncedIsObserved(c: Codec, maxBytes: nat, turns: seq<Turn>)
    ensures SyncedBy(c, maxBytes, Start(), turns) == Watch(Received(turns), Run(c, maxBytes, Start(), turns)).synced
  {
    if turns != [] {
      var n := |turns| - 1;
      var t := Run(c, maxBytes, Start(), turns[..n]);
      SyncedIsObserved(c, maxBytes, turns[..n]);
      AcknowledgedIsDurable(c, maxBytes, turns[..n]);
      HandleWatch(c, maxBytes, Received(turns[..n]), t, turns[n].batch, turns[n].io);
      hide Handle, Watch;
      assert Added(t, turns[n]) == if turns[n].io.writeOk then set e | e in NewEntries(t, turns[n].batch) else {};
    }
  }
}
