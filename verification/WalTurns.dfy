/** What one turn of the group-commit task does, said of its requests: rotation, replies and deleted segments. */
module WalTurns {
  import opened Types
  import opened WalFrames
  import opened WalSegments
  import opened GroupCommit
  import opened GroupCommitTheorems
  import opened WalRuns

  // ----- What a batch asks for -----

  /** The points of the appends, in order. */
  ghost function Batches(batch: seq<Request>): seq<seq<DataPoint>> {
    if batch == [] then []
    else
      var n := |batch| - 1;
      if batch[n].message.Append? then Batches(batch[..n]) + [batch[n].message.points] else Batches(batch[..n])
  }

  /** There is nothing to write, or the write and the sync succeed. */
  ghost predicate Succeeds(batch: seq<Request>, io: Io) {
    Batches(batch) == [] || io.writeOk
  }

  ghost predicate AsksRotation(batch: seq<Request>) {
    exists i :: 0 <= i < |batch| && batch[i].message.Rotate?
  }

  /** No drain request of the batch reaches sequence `q`. */
  ghost predicate Spares(batch: seq<Request>, q: nat) {
    forall i :: 0 <= i < |batch| && batch[i].message.DrainBefore? ==> batch[i].message.bound < q
  }

  /** Entries get consecutive sequences in the order of the appends. */
  lemma {:induction false} GatheredEntries(current: nat, batch: seq<Request>)
    ensures Gather(current, batch).entries == Numbered(current, Batches(batch))
  {
    if batch != [] {
      GatheredEntries(current, batch[..|batch| - 1]);
    }
  }

  lemma {:induction false} GatheredRotate(current: nat, batch: seq<Request>)
    ensures Gather(current, batch).rotate.Some? <==> AsksRotation(batch)
  {
    if batch != [] {
      var n := |batch| - 1;
      GatheredRotate(current, batch[..n]);
      if i :| 0 <= i < n && batch[i].message.Rotate? {
        assert batch[..n][i].message.Rotate?;
      }
      if i :| 0 <= i < n && batch[..n][i].message.Rotate? {
        assert batch[i].message.Rotate?;
      }
    }
  }

  /** The drains kept are those asked for. */
  lemma {:induction false} GatheredDrains(current: nat, batch: seq<Request>, d: (nat, nat))
    ensures d in Gather(current, batch).drains <==> Request(d.1, DrainBefore(d.0)) in batch
  {
    if batch != [] {
      var n := |batch| - 1;
      GatheredDrains(current, batch[..n], d);
      assert batch == batch[..n] + [batch[n]];
    }
  }

  lemma SparedExact(current: nat, batch: seq<Request>, q: nat)
    ensures var g := Gather(current, batch);
      Spares(batch, q) <==> g.drains == [] || MaxBound(g.drains) < q
  {
    hide Gather;
    var g := Gather(current, batch);
    forall i | 0 <= i < |batch| && batch[i].message.DrainBefore? ensures (batch[i].message.bound, batch[i].id) in g.drains {
      GatheredDrains(current, batch, (batch[i].message.bound, batch[i].id));
      assert batch[i] == Request(batch[i].id, DrainBefore(batch[i].message.bound));
    }
    forall d | d in g.drains ensures Spares(batch, q) ==> d.0 < q {
      GatheredDrains(current, batch, d);
    }
    if g.drains != [] && MaxBound(g.drains) == 0 {
      assert g.drains[0] in g.drains;
    }
  }

  // ----- Rotation -----

  /** The size the open segment has when the batch is written to it. */
  ghost function SizeWith(c: Codec, w: Writer, batch: seq<Request>): nat {
    w.currentSize + |Frames(c, Numbered(w.currentSeq, Batches(batch)))|
  }

  lemma CommittedWriter(c: Codec, t: Task, batch: seq<Request>)
    ensures var g := Gather(t.writer.currentSeq, batch);
      && |g.appends| == |g.entries| == |Batches(batch)|
      && var w := Committed(c, Begun(t, g), g).writer;
         && w.currentSize == SizeWith(c, t.writer, batch) && w.currentSeq == t.writer.currentSeq + |Batches(batch)|
         && w.currentSegment == t.writer.currentSegment && w.handle == t.writer.handle && w.completed == t.writer.completed
  {
    GatherShape(t.writer.currentSeq, batch);
    GatheredEntries(t.writer.currentSeq, batch);
    hide Gather;
    assert Frames(c, []) == [];
  }

  /** After a turn that commits and can open new files the open segment is below the threshold. */
  lemma FullSegmentRotates(c: Codec, maxBytes: nat, t: Task, batch: seq<Request>, io: Io)
    requires maxBytes > 0 && Succeeds(batch, io) && io.sizeRotateOk
    ensures Handle(c, maxBytes, t, batch, io).writer.currentSize < maxBytes
  {
    GatherShape(t.writer.currentSeq, batch);
    GatheredEntries(t.writer.currentSeq, batch);
    hide Gather, Expired, Retained;
  }

  /** The writer after the size rotation and the drains: left exactly when full, recorded with the last sequence, drained as asked. */
  ghost predicate Moved(c: Codec, maxBytes: nat, w: Writer, batch: seq<Request>, io: Io, w': Writer) {
    var full, last := SizeWith(c, w, batch) >= maxBytes, w.currentSeq + |Batches(batch)|;
    && w'.currentSegment == (if full then w.currentSegment + 1 else w.currentSegment)
    && w'.handle == (if full && io.sizeRotateOk then w.currentSegment + 1 else w.handle)
    && w'.currentSize == (if full && io.sizeRotateOk then 0 else SizeWith(c, w, batch))
    && w'.currentSeq == last
    && forall tag :: tag in w'.completed <==>
         (tag in w.completed || (full && tag == Tag(w.currentSegment, last))) && Spares(batch, tag.maxSeq)
  }

  lemma BeforeRequest(c: Codec, maxBytes: nat, t: Task, batch: seq<Request>, io: Io)
    ensures var g := Gather(t.writer.currentSeq, batch);
      && |g.appends| == |g.entries|
      && Moved(c, maxBytes, t.writer, batch, io, DrainServed(SizeRotated(maxBytes, Committed(c, Begun(t, g), g), io), g).writer)
  {
    CommittedWriter(c, t, batch);
    hide Gather, Committed, Expired, Retained, SizeWith;
    var g := Gather(t.writer.currentSeq, batch);
    var t2 := SizeRotated(maxBytes, Committed(c, Begun(t, g), g), io);
    forall tag ensures tag in DrainServed(t2, g).writer.completed <==> tag in t2.writer.completed && Spares(batch, tag.maxSeq) {
      SparedExact(t.writer.currentSeq, batch, tag.maxSeq);
      RetainedExact(t2.writer.completed, MaxBound(g.drains), tag);
    }
  }

  /**
    Without an explicit rotation: the segment is left exactly when the batch fills it, it is then recorded with the
    last sequence handed out, and of all completed segments those stay that no drain request reaches.
  */
  lemma RotatesExactly(c: Codec, maxBytes: nat, t: Task, batch: seq<Request>, io: Io)
    requires Succeeds(batch, io) && !AsksRotation(batch)
    ensures Moved(c, maxBytes, t.writer, batch, io, Handle(c, maxBytes, t, batch, io).writer)
  {
    hide Moved, Gather, Begun, Committed, SizeRotated, DrainServed;
    GatheredEntries(t.writer.currentSeq, batch);
    GatheredRotate(t.writer.currentSeq, batch);
    BeforeRequest(c, maxBytes, t, batch, io);
  }

  /**
    With an explicit rotation the segment is left as well, after the size rotation and the drains. If its new file can be
    opened, every completed segment is dropped but those whose tag is beyond 64 bits; if not, the handle stays.
  */
  lemma RotatesOnRequest(c: Codec, maxBytes: nat, t: Task, batch: seq<Request>, io: Io) returns (mid: Writer)
    requires Succeeds(batch, io) && AsksRotation(batch)
    ensures Moved(c, maxBytes, t.writer, batch, io, mid)
    ensures var w' := Handle(c, maxBytes, t, batch, io).writer;
      && w'.currentSegment == mid.currentSegment + 1 && w'.currentSeq == mid.currentSeq
      && w'.handle == (if io.rotateOk then mid.currentSegment + 1 else mid.handle)
      && w'.currentSize == (if io.rotateOk then 0 else mid.currentSize)
      && forall tag :: tag in w'.completed <==>
           (tag in mid.completed || tag == Tag(mid.currentSegment, mid.currentSeq)) && (io.rotateOk ==> tag.maxSeq > U64_MAX)
  {
    hide Moved, Gather, Begun, Committed, SizeRotated, DrainServed, Expired, Retained;
    GatheredEntries(t.writer.currentSeq, batch);
    GatheredRotate(t.writer.currentSeq, batch);
    BeforeRequest(c, maxBytes, t, batch, io);
    var g := Gather(t.writer.currentSeq, batch);
    mid := DrainServed(SizeRotated(maxBytes, Committed(c, Begun(t, g), g), io), g).writer;
    var tags := Rotated(mid, io.rotateOk).completed;
    forall tag ensures tag in Retained(tags, U64_MAX) <==> tag in tags && tag.maxSeq > U64_MAX {
      RetainedExact(tags, U64_MAX, tag);
    }
  }

  lemma {:induction false} RetainedExact(tags: seq<Tag>, bound: nat, tag: Tag)
    ensures tag in Retained(tags, bound) <==> tag in tags && tag.maxSeq > bound
  {
    if tags != [] {
      var n := |tags| - 1;
      RetainedExact(tags[..n], bound, tag);
      assert tags == tags[..n] + [tags[n]];
    }
  }

  // ----- Sizes over whole runs -----

  /** The size counter is the length of the open file. */
  ghost predicate Sized(c: Codec, w: Writer) {
    w.handle in w.files && w.currentSize == |Frames(c, w.files[w.handle])|
  }

  lemma SizedRotated(c: Codec, w: Writer)
    requires Honest(w)
    ensures Sized(c, Rotated(w, true))
  {
    assert w.currentSegment + 1 !in w.files;
    assert Frames(c, []) == [];
  }

  lemma SizedDrained(c: Codec, w: Writer, bound: nat)
    requires Honest(w) && Sized(c, w)
    ensures Sized(c, Drained(w, bound))
  {
    hide Expired, Retained, Frames;
    DrainedFiles(w, bound);
  }

  lemma SizedCommitted(c: Codec, t: Task, g: Gathered)
    requires Sized(c, t.writer) && |g.appends| == |g.entries|
    ensures Sized(c, Committed(c, t, g).writer)
  {
    hide Frames;
    if g.entries != [] {
      FramesConcat(c, t.writer.files[t.writer.handle], g.entries);
    }
  }

  lemma HonestCommitted(c: Codec, t: Task, batch: seq<Request>)
    requires Honest(t.writer)
    ensures var g := Gather(t.writer.currentSeq, batch); |g.appends| == |g.entries| && Honest(Committed(c, Begun(t, g), g).writer)
  {
    hide Honest, Gather, Wrote;
    var g := Gather(t.writer.currentSeq, batch);
    GatherShape(t.writer.currentSeq, batch);
    HonestBegun(t.writer, |g.entries|);
    HonestWrote(c, Begun(t, g).writer, g.entries);
  }

  lemma HandleSized(c: Codec, maxBytes: nat, t: Task, turn: Turn)
    requires Honest(t.writer) && Sized(c, t.writer) && RotationsSucceed(turn)
    ensures Honest(Handle(c, maxBytes, t, turn.batch, turn.io).writer) && Sized(c, Handle(c, maxBytes, t, turn.batch, turn.io).writer)
  {
    hide Honest, Gather, Committed, Rotated, Drained, Frames;
    var g := Gather(t.writer.currentSeq, turn.batch);
    GatherShape(t.writer.currentSeq, turn.batch);
    var t0 := Begun(t, g);
    HonestBegun(t.writer, |g.entries|);
    if Commits(t, turn) {
      HonestCommitted(c, t, turn.batch);
      SizedCommitted(c, t0, g);
      var t1 := Committed(c, t0, g);
      HonestRotated(t1.writer);
      SizedRotated(c, t1.writer);
      var t2 := SizeRotated(maxBytes, t1, turn.io);
      HonestDrained(t2.writer, MaxBound(g.drains));
      SizedDrained(c, t2.writer, MaxBound(g.drains));
      var t3 := DrainServed(t2, g);
      HonestRotated(t3.writer);
      SizedRotated(c, t3.writer);
      HonestDrained(Rotated(t3.writer, true), U64_MAX);
      SizedDrained(c, Rotated(t3.writer, true), U64_MAX);
    }
  }

  /** Over every run whose rotations succeed the counter is the length of the open file, and that is below the threshold. */
  lemma {:induction false} RunSized(c: Codec, maxBytes: nat, turns: seq<Turn>)
    requires maxBytes > 0 && forall i :: 0 <= i < |turns| ==> RotationsSucceed(turns[i])
    ensures var w := Run(c, maxBytes, Start(), turns).writer;
      Honest(w) && w.handle in w.files && w.currentSize == |Frames(c, w.files[w.handle])| < maxBytes
  {
    if turns == [] {
      FreshOk();
      WriterOkIsHonest(Fresh());
      assert Frames(c, []) == [];
    } else {
      var n := |turns| - 1;
      RunSized(c, maxBytes, turns[..n]);
      hide Honest, Handle, Frames;
      var t, turn := Run(c, maxBytes, Start(), turns[..n]), turns[n];
      HandleSized(c, maxBytes, t, turn);
      if Succeeds(turn.batch, turn.io) {
        FullSegmentRotates(c, maxBytes, t, turn.batch, turn.io);
      } else {
        FailedSize(c, maxBytes, t, turn.batch, turn.io);
      }
    }
  }

  lemma FailedSize(c: Codec, maxBytes: nat, t: Task, batch: seq<Request>, io: Io)
    requires !Succeeds(batch, io)
    ensures Handle(c, maxBytes, t, batch, io).writer == t.writer.(currentSeq := t.writer.currentSeq + |Batches(batch)|)
  {
    GatheredEntries(t.writer.currentSeq, batch);
    hide Gather;
  }

  // ----- Replies -----

  /** The events of one turn. */
  function NewEvents(t: Task, t': Task): seq<Event>
    requires t.trace <= t'.trace
  {
    t'.trace[|t.trace|..]
  }

  /** The reply that settles request `i` of a batch: by its kind, its place among the appends and the outcome of the turn. */
  ghost predicate Settles(current: nat, batch: seq<Request>, io: Io, i: nat, reply: Reply)
    requires i < |batch|
  {
    match batch[i].message
    case Append(_) => reply == if Succeeds(batch, io) then AppendOk(current + 1 + |Batches(batch[..i])|) else AppendFailed
    case DrainBefore(_) => if Succeeds(batch, io) then reply.DrainOk? else reply.DrainFailed?
    case Rotate =>
      if Succeeds(batch, io) && io.rotateOk && !AsksRotation(batch[..i]) then reply.RotateOk? else reply.RotateFailed?
  }

  /** Where the request of a batch ends up when the batch is gathered. */
  ghost predicate Sorted(current: nat, batch: seq<Request>, i: nat, g: Gathered)
    requires i < |batch|
  {
    match batch[i].message
    case Append(_) =>
      var k := |Batches(batch[..i])|;
      k < |g.entries| == |g.appends| && g.appends[k] == batch[i].id && g.entries[k].seqno == current + 1 + k
    case DrainBefore(bound) => (bound, batch[i].id) in g.drains
    case Rotate => if AsksRotation(batch[..i]) then batch[i].id in g.rejected else g.rotate == Some(batch[i].id)
  }

  lemma {:induction false} GatherSorts(current: nat, batch: seq<Request>, i: nat)
    requires i < |batch|
    ensures Sorted(current, batch, i, Gather(current, batch))
  {
    var n := |batch| - 1;
    var front := batch[..n];
    assert Gather(current, batch) == GatherOne(current, Gather(current, front), batch[n]);
    GatherShape(current, front);
    GatheredEntries(current, front);
    hide Gather, Batches;
    if i < n {
      GatherSorts(current, front, i);
      assert batch[..i] == front[..i];
    } else {
      GatheredRotate(current, front);
    }
  }

  /** The kinds of events a turn adds. */
  ghost predicate Adds(t: Task, t': Task, ev: Event) {
    t.trace <= t'.trace && ev in NewEvents(t, t')
  }

  lemma AddsStep(t: Task, mid: Task, t': Task, ev: Event)
    requires t.trace <= mid.trace <= t'.trace
    ensures Adds(t, mid, ev) || Adds(mid, t', ev) <==> Adds(t, t', ev)
  {
    assert t'.trace[|t.trace|..] == mid.trace[|t.trace|..] + t'.trace[|mid.trace|..];
  }

  lemma SentIn(ids: seq<nat>, reply: Reply, id: nat)
    requires id in ids
    ensures Replied(id, reply) in Sent(ids, reply)
  {
    var k :| 0 <= k < |ids| && ids[k] == id;
    assert Sent(ids, reply)[k] == Replied(id, reply);
  }

  lemma BegunReplies(t: Task, g: Gathered, id: nat)
    ensures t.trace <= Begun(t, g).trace
    ensures id in g.rejected ==> Adds(t, Begun(t, g), Replied(id, RotateFailed))
  {
    if id in g.rejected {
      SentIn(g.rejected, RotateFailed, id);
    }
  }

  lemma FailedReplies(t: Task, g: Gathered)
    ensures t.trace <= Failed(t, g).trace
    ensures forall id :: id in g.appends ==> Adds(t, Failed(t, g), Replied(id, AppendFailed))
    ensures forall d :: d in g.drains ==> Adds(t, Failed(t, g), Replied(d.1, DrainFailed))
    ensures g.rotate.Some? ==> Adds(t, Failed(t, g), Replied(g.rotate.value, RotateFailed))
  {
    var a, d := Sent(g.appends, AppendFailed), Sent(DrainIds(g.drains), DrainFailed);
    var r := if g.rotate.Some? then [Replied(g.rotate.value, RotateFailed)] else [];
    assert NewEvents(t, Failed(t, g)) == a + d + r;
    forall id | id in g.appends ensures Replied(id, AppendFailed) in a {
      SentIn(g.appends, AppendFailed, id);
    }
    forall x | x in g.drains ensures Replied(x.1, DrainFailed) in d {
      DrainIdIn(g.drains, x);
      SentIn(DrainIds(g.drains), DrainFailed, x.1);
    }
  }

  lemma DrainIdIn(drains: seq<(nat, nat)>, d: (nat, nat))
    requires d in drains
    ensures d.1 in DrainIds(drains)
  {
    var k :| 0 <= k < |drains| && drains[k] == d;
    assert DrainIds(drains)[k] == d.1;
  }

  lemma CommittedReplies(c: Codec, t: Task, g: Gathered)
    requires |g.appends| == |g.entries|
    ensures t.trace <= Committed(c, t, g).trace
    ensures forall k :: 0 <= k < |g.appends| ==> Adds(t, Committed(c, t, g), Replied(g.appends[k], AppendOk(g.entries[k].seqno)))
  {
    if g.entries != [] {
      var last := g.entries[|g.entries| - 1].seqno;
      var oks := SentOk(g.appends, g.entries);
      assert NewEvents(t, Committed(c, t, g)) == [Synced(g.entries), SeqPublished(last)] + oks;
      forall k | 0 <= k < |g.appends| ensures Replied(g.appends[k], AppendOk(g.entries[k].seqno)) in oks {
        assert oks[k] == Replied(g.appends[k], AppendOk(g.entries[k].seqno));
      }
    }
  }

  lemma DrainReplies(t: Task, g: Gathered)
    ensures t.trace <= DrainServed(t, g).trace
    ensures forall d :: d in g.drains ==> Adds(t, DrainServed(t, g), Replied(d.1, DrainOk(Expired(t.writer.completed, MaxBound(g.drains)))))
  {
    var reply := DrainOk(Expired(t.writer.completed, MaxBound(g.drains)));
    forall d | d in g.drains ensures Adds(t, DrainServed(t, g), Replied(d.1, reply)) {
      DrainIdIn(g.drains, d);
      SentIn(DrainIds(g.drains), reply, d.1);
    }
  }

  lemma RotateReplies(t: Task, g: Gathered, io: Io)
    ensures t.trace <= RotateServed(t, g, io).trace
    ensures g.rotate.Some? ==>
              exists reply :: Adds(t, RotateServed(t, g, io), Replied(g.rotate.value, reply)) && (if io.rotateOk then reply.RotateOk? else reply.RotateFailed?)
  {
    if g.rotate.Some? {
      var reply := if io.rotateOk then RotateOk(Expired(Rotated(t.writer, true).completed, U64_MAX)) else RotateFailed;
      assert NewEvents(t, RotateServed(t, g, io)) == [Replied(g.rotate.value, reply)];
      assert Adds(t, RotateServed(t, g, io), Replied(g.rotate.value, reply));
    }
  }

  /** The stages of a turn that commits. */
  lemma StagesGrow(c: Codec, maxBytes: nat, t: Task, batch: seq<Request>, io: Io, ev: Event)
    requires Succeeds(batch, io)
    ensures var g := Gather(t.writer.currentSeq, batch);
      && |g.appends| == |g.entries|
      && var t0, t' := Begun(t, g), Handle(c, maxBytes, t, batch, io);
         var t1 := Committed(c, t0, g);
         var t2 := SizeRotated(maxBytes, t1, io);
         var t3 := DrainServed(t2, g);
         && t' == RotateServed(t3, g, io) && t.trace <= t'.trace
         && (Adds(t, t', ev) <==> Adds(t, t0, ev) || Adds(t0, t1, ev) || Adds(t2, t3, ev) || Adds(t3, t', ev))
  {
    GatherShape(t.writer.currentSeq, batch);
    GatheredEntries(t.writer.currentSeq, batch);
    hide Gather, Adds, Begun, Committed, DrainServed, RotateServed;
    var g := Gather(t.writer.currentSeq, batch);
    var t0, t' := Begun(t, g), Handle(c, maxBytes, t, batch, io);
    var t1 := Committed(c, t0, g);
    var t2 := SizeRotated(maxBytes, t1, io);
    var t3 := DrainServed(t2, g);
    BegunReplies(t, g, 0);
    CommittedReplies(c, t0, g);
    DrainReplies(t2, g);
    RotateReplies(t3, g, io);
    SameTrace(maxBytes, t1, io, ev);
    AddsStep(t, t0, t1, ev);
    AddsStep(t, t1, t2, ev);
    AddsStep(t, t2, t3, ev);
    AddsStep(t, t3, t', ev);
  }

  lemma SameTrace(maxBytes: nat, t: Task, io: Io, ev: Event)
    ensures SizeRotated(maxBytes, t, io).trace == t.trace && !Adds(t, SizeRotated(maxBytes, t, io), ev)
  {
  }

  /** Every request of a turn gets the reply that settles it: its own sequence, success or failure. */
  lemma TurnSettles(c: Codec, maxBytes: nat, t: Task, batch: seq<Request>, io: Io, i: nat) returns (reply: Reply)
    requires i < |batch|
    ensures Adds(t, Handle(c, maxBytes, t, batch, io), Replied(batch[i].id, reply)) && Settles(t.writer.currentSeq, batch, io, i, reply)
  {
    hide Gather, Adds, Begun, Committed, DrainServed, RotateServed, Failed, Handle, Batches;
    GatherSorts(t.writer.currentSeq, batch, i);
    var g := Gather(t.writer.currentSeq, batch);
    if Succeeds(batch, io) {
      reply := SettledReply(c, maxBytes, t, batch, io, i);
    } else {
      FailedTurn(c, maxBytes, t, batch, io);
      BegunReplies(t, g, batch[i].id);
      FailedReplies(Begun(t, g), g);
      reply := match batch[i].message case Append(_) => AppendFailed case DrainBefore(_) => DrainFailed case Rotate => RotateFailed;
      AddsStep(t, Begun(t, g), Failed(Begun(t, g), g), Replied(batch[i].id, reply));
      if batch[i].message.Append? {
        assert g.appends[|Batches(batch[..i])|] in g.appends;
      }
    }
  }

  lemma FailedTurn(c: Codec, maxBytes: nat, t: Task, batch: seq<Request>, io: Io)
    requires !Succeeds(batch, io)
    ensures var g := Gather(t.writer.currentSeq, batch); Handle(c, maxBytes, t, batch, io) == Failed(Begun(t, g), g)
  {
    GatheredEntries(t.writer.currentSeq, batch);
    hide Gather;
  }

  lemma SettledReply(c: Codec, maxBytes: nat, t: Task, batch: seq<Request>, io: Io, i: nat) returns (reply: Reply)
    requires i < |batch| && Succeeds(batch, io) && Sorted(t.writer.currentSeq, batch, i, Gather(t.writer.currentSeq, batch))
    ensures Adds(t, Handle(c, maxBytes, t, batch, io), Replied(batch[i].id, reply)) && Settles(t.writer.currentSeq, batch, io, i, reply)
  {
    hide Gather, Adds, Begun, Committed, DrainServed, RotateServed, Handle, Batches, SizeRotated, Expired;
    var g := Gather(t.writer.currentSeq, batch);
    StagesGrow(c, maxBytes, t, batch, io, Replied(batch[i].id, RotateFailed));
    var t0 := Begun(t, g);
    var t1 := Committed(c, t0, g);
    var t2 := SizeRotated(maxBytes, t1, io);
    var t3 := DrainServed(t2, g);
    match batch[i].message {
      case Append(_) =>
        reply := AppendOk(t.writer.currentSeq + 1 + |Batches(batch[..i])|);
        CommittedReplies(c, t0, g);
      case DrainBefore(bound) =>
        reply := DrainOk(Expired(t2.writer.completed, MaxBound(g.drains)));
        DrainReplies(t2, g);
        assert Adds(t2, t3, Replied((bound, batch[i].id).1, reply));
      case Rotate =>
        reply := RotateFailed;
        if AsksRotation(batch[..i]) {
          BegunReplies(t, g, batch[i].id);
        } else {
          RotateReplies(t3, g, io);
          reply :| Adds(t3, RotateServed(t3, g, io), Replied(g.rotate.value, reply)) && (if io.rotateOk then reply.RotateOk? else reply.RotateFailed?);
        }
    }
    StagesGrow(c, maxBytes, t, batch, io, Replied(batch[i].id, reply));
  }

  // ----- Deleted segments -----

  /** The reply tells its receiver that segment `n` is deleted. */
  predicate Names(ev: Event, n: nat) {
    ev.Replied? && (ev.reply.DrainOk? || ev.reply.RotateOk?) && n in ev.reply.deleted
  }

  ghost predicate Named(t: Task, t': Task, n: nat) {
    exists ev :: Adds(t, t', ev) && Names(ev, n)
  }

  lemma DrainNames(t: Task, g: Gathered, ev: Event)
    requires Adds(t, DrainServed(t, g), ev)
    ensures ev.Replied? && ev.reply == DrainOk(Expired(t.writer.completed, MaxBound(g.drains)))
  {
    assert NewEvents(t, DrainServed(t, g)) == Sent(DrainIds(g.drains), DrainOk(Expired(t.writer.completed, MaxBound(g.drains))));
  }

  lemma RotateNames(t: Task, g: Gathered, io: Io, ev: Event)
    requires Adds(t, RotateServed(t, g, io), ev) && io.rotateOk
    ensures ev.Replied? && ev.reply == RotateOk(Expired(Rotated(t.writer, true).completed, U64_MAX))
  {
    assert NewEvents(t, RotateServed(t, g, io)) == [Replied(g.rotate.value, RotateOk(Expired(Rotated(t.writer, true).completed, U64_MAX)))];
  }

  /** A drain removes the files it names and no others. */
  lemma DrainServedFiles(t: Task, g: Gathered, n: nat)
    requires Honest(t.writer)
    ensures Named(t, DrainServed(t, g), n) ==> n !in DrainServed(t, g).writer.files && n < t.writer.currentSegment
    ensures n in t.writer.files && n !in DrainServed(t, g).writer.files ==> Named(t, DrainServed(t, g), n)
  {
    var bound := MaxBound(g.drains);
    if n in Expired(t.writer.completed, bound) {
      ExpiredIs(t.writer.completed, bound, n);
      var k :| 0 <= k < |t.writer.completed| && t.writer.completed[k].segment == n;
      assert TagHonest(t.writer, t.writer.completed[k]);
    }
    hide Honest, Expired, Retained, Adds;
    if ev :| Adds(t, DrainServed(t, g), ev) && Names(ev, n) {
      DrainNames(t, g, ev);
      assert g.drains != [] by { NothingAdded(t, g, ev); }
    }
    if n in t.writer.files && n !in DrainServed(t, g).writer.files {
      DrainReplies(t, g);
      var d := g.drains[0];
      var ev := Replied(d.1, DrainOk(Expired(t.writer.completed, bound)));
      assert d in g.drains && Adds(t, DrainServed(t, g), ev) && Names(ev, n);
    }
  }

  lemma NothingAdded(t: Task, g: Gathered, ev: Event)
    requires Adds(t, DrainServed(t, g), ev)
    ensures g.drains != []
  {
  }

  lemma RotateServedFiles(t: Task, g: Gathered, io: Io, n: nat)
    requires Honest(t.writer) && io.rotateOk
    ensures Named(t, RotateServed(t, g, io), n) ==> n !in RotateServed(t, g, io).writer.files
    ensures n in t.writer.files && n !in RotateServed(t, g, io).writer.files ==> Named(t, RotateServed(t, g, io), n)
    ensures n !in t.writer.files && n < t.writer.currentSegment ==> n !in RotateServed(t, g, io).writer.files
  {
    hide Honest, Expired, Retained, Adds;
    var t' := RotateServed(t, g, io);
    if ev :| Adds(t, t', ev) && Names(ev, n) {
      RotateNames(t, g, io, ev);
      assert g.rotate.Some? by { NothingRotated(t, g, io, ev); }
    }
    if g.rotate.Some? {
      var ev := Replied(g.rotate.value, RotateOk(Expired(Rotated(t.writer, true).completed, U64_MAX)));
      assert Adds(t, t', ev) by { RotateAdds(t, g, io); }
    }
  }

  lemma NothingRotated(t: Task, g: Gathered, io: Io, ev: Event)
    requires Adds(t, RotateServed(t, g, io), ev)
    ensures g.rotate.Some?
  {
  }

  lemma RotateAdds(t: Task, g: Gathered, io: Io)
    requires g.rotate.Some? && io.rotateOk
    ensures Adds(t, RotateServed(t, g, io), Replied(g.rotate.value, RotateOk(Expired(Rotated(t.writer, true).completed, U64_MAX))))
  {
    assert NewEvents(t, RotateServed(t, g, io)) == [Replied(g.rotate.value, RotateOk(Expired(Rotated(t.writer, true).completed, U64_MAX)))];
  }

  /** Committing and rotating by size delete no file. */
  lemma EarlyFiles(c: Codec, maxBytes: nat, t: Task, batch: seq<Request>, io: Io)
    requires Honest(t.writer) && io.sizeRotateOk
    ensures var g := Gather(t.writer.currentSeq, batch);
      && |g.appends| == |g.entries|
      && var w := SizeRotated(maxBytes, Committed(c, Begun(t, g), g), io).writer;
         Honest(w) && t.writer.currentSegment <= w.currentSegment && t.writer.files.Keys <= w.files.Keys
  {
    HonestCommitted(c, t, batch);
    hide Honest, Gather, Frames;
    var g := Gather(t.writer.currentSeq, batch);
    HonestRotated(Committed(c, Begun(t, g), g).writer);
  }

  /**
    The caller deletes the files a reply names, so this is what decides about them: a turn takes exactly the files
    out of the log that its replies name, and all drain requests of a turn get the same list.
  */
  lemma RepliesNameDeleted(c: Codec, maxBytes: nat, t: Task, turn: Turn)
    requires Honest(t.writer) && RotationsSucceed(turn) && Succeeds(turn.batch, turn.io)
    ensures var t' := Handle(c, maxBytes, t, turn.batch, turn.io);
      && (forall n :: Named(t, t', n) ==> n !in t'.writer.files)
      && (forall n :: n in t.writer.files && n !in t'.writer.files ==> Named(t, t', n))
      && (forall a, b :: Adds(t, t', a) && Adds(t, t', b) && a.Replied? && b.Replied? && a.reply.DrainOk? && b.reply.DrainOk? ==> a.reply == b.reply)
  {
    hide Honest, Gather, Adds, Begun, Committed, SizeRotated, DrainServed, RotateServed, Handle, Names, Named;
    var t' := Handle(c, maxBytes, t, turn.batch, turn.io);
    forall n ensures Named(t, t', n) ==> n !in t'.writer.files
             ensures n in t.writer.files && n !in t'.writer.files ==> Named(t, t', n)
    {
      SegmentNamed(c, maxBytes, t, turn, n);
    }
    forall a, b | Adds(t, t', a) && Adds(t, t', b) && a.Replied? && b.Replied? && a.reply.DrainOk? && b.reply.DrainOk? ensures a.reply == b.reply {
      DrainList(c, maxBytes, t, turn, a);
      DrainList(c, maxBytes, t, turn, b);
    }
  }

  lemma SegmentNamed(c: Codec, maxBytes: nat, t: Task, turn: Turn, n: nat)
    requires Honest(t.writer) && RotationsSucceed(turn) && Succeeds(turn.batch, turn.io)
    ensures var t' := Handle(c, maxBytes, t, turn.batch, turn.io);
      && (Named(t, t', n) ==> n !in t'.writer.files)
      && (n in t.writer.files && n !in t'.writer.files ==> Named(t, t', n))
  {
    hide Honest, Gather, Adds, Begun, Committed, SizeRotated, DrainServed, RotateServed, Handle, Names;
    var g := Gather(t.writer.currentSeq, turn.batch);
    EarlyFiles(c, maxBytes, t, turn.batch, turn.io);
    var t2 := SizeRotated(maxBytes, Committed(c, Begun(t, g), g), turn.io);
    var t3, t' := DrainServed(t2, g), Handle(c, maxBytes, t, turn.batch, turn.io);
    DrainKeepsHonest(t2, g);
    DrainServedFiles(t2, g, n);
    RotateServedFiles(t3, g, turn.io, n);
    NamedStages(c, maxBytes, t, turn, n);
  }

  lemma DrainKeepsHonest(t: Task, g: Gathered)
    requires Honest(t.writer)
    ensures Honest(DrainServed(t, g).writer) && DrainServed(t, g).writer.currentSegment == t.writer.currentSegment
  {
    hide Honest, Expired, Retained;
    HonestDrained(t.writer, MaxBound(g.drains));
  }

  lemma NamedStages(c: Codec, maxBytes: nat, t: Task, turn: Turn, n: nat)
    requires Succeeds(turn.batch, turn.io)
    ensures var g := Gather(t.writer.currentSeq, turn.batch);
      && |g.appends| == |g.entries|
      && var t2 := SizeRotated(maxBytes, Committed(c, Begun(t, g), g), turn.io);
         var t3, t' := DrainServed(t2, g), Handle(c, maxBytes, t, turn.batch, turn.io);
         && t' == RotateServed(t3, g, turn.io)
         && (Named(t, t', n) <==> Named(t2, t3, n) || Named(t3, t', n))
  {
    hide Gather, Adds, Begun, Committed, SizeRotated, DrainServed, RotateServed, Handle;
    var g := Gather(t.writer.currentSeq, turn.batch);
    GatherShape(t.writer.currentSeq, turn.batch);
    var t2 := SizeRotated(maxBytes, Committed(c, Begun(t, g), g), turn.io);
    var t3, t' := DrainServed(t2, g), Handle(c, maxBytes, t, turn.batch, turn.io);
    StagesGrow(c, maxBytes, t, turn.batch, turn.io, SeqPublished(0));
    if ev :| Adds(t, t', ev) && Names(ev, n) {
      StagesGrow(c, maxBytes, t, turn.batch, turn.io, ev);
      if Adds(t, Begun(t, g), ev) || Adds(Begun(t, g), Committed(c, Begun(t, g), g), ev) {
        EarlyKinds(c, t, g, ev);
      }
    }
    if ev :| Adds(t2, t3, ev) && Names(ev, n) {
      StagesGrow(c, maxBytes, t, turn.batch, turn.io, ev);
    }
    if ev :| Adds(t3, t', ev) && Names(ev, n) {
      StagesGrow(c, maxBytes, t, turn.batch, turn.io, ev);
    }
  }

  lemma DrainList(c: Codec, maxBytes: nat, t: Task, turn: Turn, ev: Event)
    requires Succeeds(turn.batch, turn.io) && RotationsSucceed(turn)
    requires Adds(t, Handle(c, maxBytes, t, turn.batch, turn.io), ev) && ev.Replied? && ev.reply.DrainOk?
    ensures var g := Gather(t.writer.currentSeq, turn.batch);
      && |g.appends| == |g.entries|
      && ev.reply == DrainOk(Expired(SizeRotated(maxBytes, Committed(c, Begun(t, g), g), turn.io).writer.completed, MaxBound(g.drains)))
  {
    hide Gather, Adds, Begun, Committed, SizeRotated, DrainServed, RotateServed, Handle, Expired;
    var g := Gather(t.writer.currentSeq, turn.batch);
    StagesGrow(c, maxBytes, t, turn.batch, turn.io, ev);
    var t0 := Begun(t, g);
    var t2 := SizeRotated(maxBytes, Committed(c, t0, g), turn.io);
    var t3 := DrainServed(t2, g);
    if Adds(t2, t3, ev) {
      DrainNames(t2, g, ev);
    } else if Adds(t3, RotateServed(t3, g, turn.io), ev) {
      RotateNames(t3, g, turn.io, ev);
    } else {
      EarlyKinds(c, t, g, ev);
    }
  }

  lemma EarlyKinds(c: Codec, t: Task, g: Gathered, ev: Event)
    requires |g.appends| == |g.entries| && (Adds(t, Begun(t, g), ev) || Adds(Begun(t, g), Committed(c, Begun(t, g), g), ev))
    ensures ev.Replied? ==> !ev.reply.DrainOk? && !ev.reply.RotateOk?
  {
    var t0 := Begun(t, g);
    if Adds(t, t0, ev) {
      assert NewEvents(t, t0) == Sent(g.rejected, RotateFailed);
    } else if g.entries != [] {
      var last := g.entries[|g.entries| - 1].seqno;
      assert NewEvents(t0, Committed(c, t0, g)) == [Synced(g.entries), SeqPublished(last)] + SentOk(g.appends, g.entries);
    }
  }
}
