/** Safety of the group commit over all message streams, batch splits and file failures. */
module GroupCommitTheorems {
  import opened Types
  import opened WalFrames
  import opened WalSegments
  import opened GroupCommit

  datatype Turn = Turn(batch: seq<Request>, io: Io)

  function Start(): Task {
    Task(Fresh(), 0, [])
  }

  function Run(c: Codec, maxBytes: nat, start: Task, turns: seq<Turn>): Task {
    if turns == [] then start
    else
      var last := turns[|turns| - 1];
      Handle(c, maxBytes, Run(c, maxBytes, start, turns[..|turns| - 1]), last.batch, last.io)
  }

  function Received(turns: seq<Turn>): seq<Request> {
    if turns == [] then [] else Received(turns[..|turns| - 1]) + turns[|turns| - 1].batch
  }

  // ----- Every request gets exactly one reply -----

  function Ids(rs: seq<Request>): (ids: seq<nat>)
    ensures |ids| == |rs|
  {
    seq(|rs|, i requires 0 <= i < |rs| => rs[i].id)
  }

  function RepliedIds(tr: seq<Event>): seq<nat> {
    if tr == [] then []
    else
      var ids, ev := RepliedIds(tr[..|tr| - 1]), tr[|tr| - 1];
      if ev.Replied? then ids + [ev.id] else ids
  }

  lemma {:induction false} RepliedConcat(a: seq<Event>, b: seq<Event>)
    ensures RepliedIds(a + b) == RepliedIds(a) + RepliedIds(b)
  {
    if b == [] {
      assert a + b == a;
    } else {
      var n := |b| - 1;
      assert (a + b)[..|a + b| - 1] == a + b[..n];
      RepliedConcat(a, b[..n]);
    }
  }

  lemma {:induction false} RepliedAll(evs: seq<Event>, ids: seq<nat>)
    requires |evs| == |ids| && forall i :: 0 <= i < |ids| ==> evs[i].Replied? && evs[i].id == ids[i]
    ensures RepliedIds(evs) == ids
  {
    if ids != [] {
      var n := |ids| - 1;
      RepliedAll(evs[..n], ids[..n]);
      assert ids == ids[..n] + [ids[n]];
    }
  }

  function RotateIds(g: Gathered): seq<nat> {
    if g.rotate.Some? then [g.rotate.value] else []
  }

  /** How often `x` occurs. */
  function Count(ids: seq<nat>, x: nat): nat {
    if ids == [] then 0 else Count(ids[..|ids| - 1], x) + (if ids[|ids| - 1] == x then 1 else 0)
  }

  lemma {:induction false} CountConcat(a: seq<nat>, b: seq<nat>, x: nat)
    ensures Count(a + b, x) == Count(a, x) + Count(b, x)
  {
    if b == [] {
      assert a + b == a;
    } else {
      var n := |b| - 1;
      assert (a + b)[..|a + b| - 1] == a + b[..n];
      CountConcat(a, b[..n], x);
    }
  }

  /** How often request `x` was answered. */
  function Answers(t: Task, x: nat): nat {
    Count(RepliedIds(t.trace), x)
  }

  function GatheredCount(g: Gathered, x: nat): nat {
    Count(g.rejected, x) + Count(g.appends, x) + Count(DrainIds(g.drains), x) + Count(RotateIds(g), x)
  }

  lemma GatherOneCount(current: nat, g: Gathered, r: Request, x: nat)
    ensures GatheredCount(GatherOne(current, g, r), x) == GatheredCount(g, x) + Count([r.id], x)
  {
    match r.message {
      case Append(_) =>
        CountConcat(g.appends, [r.id], x);
      case Rotate =>
        CountConcat(g.rejected, [r.id], x);
      case DrainBefore(bound) =>
        assert DrainIds(g.drains + [(bound, r.id)]) == DrainIds(g.drains) + [r.id];
        CountConcat(DrainIds(g.drains), [r.id], x);
    }
  }

  lemma NothingGathered(current: nat, x: nat)
    ensures GatheredCount(Gather(current, []), x) == Count(Ids([]), x)
  {
    assert Ids([]) == [] && DrainIds([]) == [];
  }

  /** Gathering loses no request and counts none twice. */
  lemma {:induction false} GatherCount(current: nat, batch: seq<Request>, x: nat)
    ensures GatheredCount(Gather(current, batch), x) == Count(Ids(batch), x)
  {
    hide GatherOne, GatheredCount, Count;
    if batch == [] {
      NothingGathered(current, x);
    } else {
      var n := |batch| - 1;
      GatherCount(current, batch[..n], x);
      GatherOneCount(current, Gather(current, batch[..n]), batch[n], x);
      assert Ids(batch) == Ids(batch[..n]) + [batch[n].id];
      CountConcat(Ids(batch[..n]), [batch[n].id], x);
    }
  }

  lemma AnswersGrow(t: Task, t': Task, evs: seq<Event>, ids: seq<nat>, x: nat)
    requires t'.trace == t.trace + evs && RepliedIds(evs) == ids
    ensures Answers(t', x) == Answers(t, x) + Count(ids, x)
  {
    RepliedConcat(t.trace, evs);
    CountConcat(RepliedIds(t.trace), ids, x);
  }

  lemma BegunAnswers(t: Task, g: Gathered, x: nat)
    ensures Answers(Begun(t, g), x) == Answers(t, x) + Count(g.rejected, x)
  {
    RepliedAll(Sent(g.rejected, RotateFailed), g.rejected);
    AnswersGrow(t, Begun(t, g), Sent(g.rejected, RotateFailed), g.rejected, x);
  }

  lemma CommittedAnswers(c: Codec, t: Task, g: Gathered, x: nat)
    requires |g.appends| == |g.entries|
    ensures Answers(Committed(c, t, g), x) == Answers(t, x) + Count(g.appends, x)
  {
    if g.entries != [] {
      var last := g.entries[|g.entries| - 1].seqno;
      var pre, oks := [Synced(g.entries), SeqPublished(last)], SentOk(g.appends, g.entries);
      RepliedAll(oks, g.appends);
      RepliedConcat(pre, oks);
      assert pre[..1] == [Synced(g.entries)] && RepliedIds(pre[..1]) == [] && RepliedIds(pre) == [];
      assert t.trace + pre + oks == t.trace + (pre + oks);
      AnswersGrow(t, Committed(c, t, g), pre + oks, g.appends, x);
    }
  }

  lemma FailedAnswers(t: Task, g: Gathered, x: nat)
    ensures Answers(Failed(t, g), x) ==
            Answers(t, x) + Count(g.appends, x) + Count(DrainIds(g.drains), x) + Count(RotateIds(g), x)
  {
    var a, d := Sent(g.appends, AppendFailed), Sent(DrainIds(g.drains), DrainFailed);
    var r := if g.rotate.Some? then [Replied(g.rotate.value, RotateFailed)] else [];
    RepliedAll(a, g.appends);
    RepliedAll(d, DrainIds(g.drains));
    RepliedAll(r, RotateIds(g));
    var t1 := t.(trace := t.trace + a);
    var t2 := t1.(trace := t1.trace + d);
    AnswersGrow(t, t1, a, g.appends, x);
    AnswersGrow(t1, t2, d, DrainIds(g.drains), x);
    AnswersGrow(t2, Failed(t, g), r, RotateIds(g), x);
  }

  lemma DrainAnswers(t: Task, g: Gathered, x: nat)
    ensures Answers(DrainServed(t, g), x) == Answers(t, x) + Count(DrainIds(g.drains), x)
  {
    if g.drains != [] {
      var evs := Sent(DrainIds(g.drains), DrainOk(Expired(t.writer.completed, MaxBound(g.drains))));
      RepliedAll(evs, DrainIds(g.drains));
      AnswersGrow(t, DrainServed(t, g), evs, DrainIds(g.drains), x);
    }
  }

  lemma RotateAnswers(t: Task, g: Gathered, io: Io, x: nat)
    ensures Answers(RotateServed(t, g, io), x) == Answers(t, x) + Count(RotateIds(g), x)
  {
    if g.rotate.Some? {
      var t' := RotateServed(t, g, io);
      var evs := [t'.trace[|t'.trace| - 1]];
      RepliedAll(evs, RotateIds(g));
      AnswersGrow(t, t', evs, RotateIds(g), x);
    }
  }

  lemma HandleAnswers(c: Codec, maxBytes: nat, t: Task, batch: seq<Request>, io: Io, x: nat)
    ensures Answers(Handle(c, maxBytes, t, batch, io), x) == Answers(t, x) + Count(Ids(batch), x)
  {
    var g := Gather(t.writer.currentSeq, batch);
    GatherShape(t.writer.currentSeq, batch);
    GatherCount(t.writer.currentSeq, batch, x);
    var t0 := Begun(t, g);
    BegunAnswers(t, g, x);
    if g.entries != [] && !io.writeOk {
      FailedAnswers(t0, g, x);
    } else {
      CommittedAnswers(c, t0, g, x);
      var t2 := SizeRotated(maxBytes, Committed(c, t0, g), io);
      DrainAnswers(t2, g, x);
      RotateAnswers(DrainServed(t2, g), g, io, x);
    }
  }

  /** Over any run, a request is answered exactly as often as it was received: once. */
  lemma {:induction false} OneReplyEach(c: Codec, maxBytes: nat, turns: seq<Turn>, x: nat)
    ensures Answers(Run(c, maxBytes, Start(), turns), x) == Count(Ids(Received(turns)), x)
  {
    if turns != [] {
      var n := |turns| - 1;
      OneReplyEach(c, maxBytes, turns[..n], x);
      HandleAnswers(c, maxBytes, Run(c, maxBytes, Start(), turns[..n]), turns[n].batch, turns[n].io, x);
      IdsConcat(Received(turns[..n]), turns[n].batch);
      CountConcat(Ids(Received(turns[..n])), Ids(turns[n].batch), x);
    }
  }

  lemma IdsConcat(a: seq<Request>, b: seq<Request>)
    ensures Ids(a + b) == Ids(a) + Ids(b)
  {
  }

  // ----- Acknowledged means synced and published -----

  /** An observer of the trace: what was synced, the sequence published last, and whether all was in order. */
  datatype Monitor = Monitor(synced: set<LogEntry>, published: nat, ok: bool)

  ghost predicate Increasing(es: seq<LogEntry>) {
    forall a, b :: 0 <= a < b < |es| ==> es[a].seqno < es[b].seqno
  }

  /** Every later sync continues the sequence, only synced sequences are published, and an append is
      acknowledged only when its entry is synced and a sequence at least as high is published. */
  ghost function Observe(reqs: seq<Request>, m: Monitor, ev: Event): Monitor {
    match ev
    case Synced(es) =>
      m.(synced := m.synced + (set e | e in es),
         ok := m.ok && Increasing(es) && forall e, f :: e in es && f in m.synced ==> f.seqno < e.seqno)
    case SeqPublished(n) =>
      m.(published := n, ok := m.ok && exists e :: e in m.synced && e.seqno == n)
    case Replied(id, AppendOk(n)) =>
      m.(ok := m.ok && n <= m.published
               && exists points :: Request(id, Append(points)) in reqs && LogEntry(n, points) in m.synced)
    case _ => m
  }

  ghost function ObserveAll(reqs: seq<Request>, m: Monitor, tr: seq<Event>): Monitor {
    if tr == [] then m else Observe(reqs, ObserveAll(reqs, m, tr[..|tr| - 1]), tr[|tr| - 1])
  }

  ghost function Watch(reqs: seq<Request>, t: Task): Monitor {
    ObserveAll(reqs, Monitor({}, 0, true), t.trace)
  }

  /** Nothing in the trace was out of order, and the task's counters agree with what was observed. */
  ghost predicate Agrees(m: Monitor, lastSeq: nat, currentSeq: nat) {
    && m.ok
    && m.published == lastSeq <= currentSeq
    && (forall e :: e in m.synced ==> e.seqno <= lastSeq)
    && (lastSeq == 0 || exists e :: e in m.synced && e.seqno == lastSeq)
  }

  ghost predicate TaskOk(reqs: seq<Request>, t: Task) {
    Agrees(Watch(reqs, t), t.lastSeq, t.writer.currentSeq)
  }

  lemma {:induction false} ObserveConcat(reqs: seq<Request>, m: Monitor, a: seq<Event>, b: seq<Event>)
    ensures ObserveAll(reqs, m, a + b) == ObserveAll(reqs, ObserveAll(reqs, m, a), b)
  {
    if b == [] {
      assert a + b == a;
    } else {
      var n := |b| - 1;
      assert (a + b)[..|a + b| - 1] == a + b[..n];
      ObserveConcat(reqs, m, a, b[..n]);
    }
  }

  lemma {:induction false} ObserveMoreRequests(reqs: seq<Request>, more: seq<Request>, m: Monitor, tr: seq<Event>)
    requires ObserveAll(reqs, m, tr).ok
    ensures ObserveAll(reqs + more, m, tr) == ObserveAll(reqs, m, tr)
  {
    if tr != [] {
      ObserveMoreRequests(reqs, more, m, tr[..|tr| - 1]);
    }
  }

  predicate Neutral(ev: Event) {
    ev.Replied? && !ev.reply.AppendOk?
  }

  lemma {:induction false} ObserveNeutral(reqs: seq<Request>, m: Monitor, evs: seq<Event>)
    requires forall i :: 0 <= i < |evs| ==> Neutral(evs[i])
    ensures ObserveAll(reqs, m, evs) == m
  {
    if evs != [] {
      ObserveNeutral(reqs, m, evs[..|evs| - 1]);
    }
  }

  lemma {:induction false} ObserveAcks(reqs: seq<Request>, m: Monitor, ids: seq<nat>, es: seq<LogEntry>)
    requires m.ok && |ids| == |es|
    requires forall i :: 0 <= i < |es| ==>
               es[i] in m.synced && es[i].seqno <= m.published && Request(ids[i], Append(es[i].points)) in reqs
    ensures ObserveAll(reqs, m, SentOk(ids, es)) == m
  {
    if es != [] {
      var n := |es| - 1;
      ObserveAcks(reqs, m, ids[..n], es[..n]);
      assert SentOk(ids, es)[..n] == SentOk(ids[..n], es[..n]);
      assert es[n] == LogEntry(es[n].seqno, es[n].points);
    }
  }

  lemma ObserveCommit(reqs: seq<Request>, m: Monitor, ids: seq<nat>, es: seq<LogEntry>)
    requires m.ok && |ids| == |es| && es != [] && Increasing(es)
    requires forall e, f :: e in es && f in m.synced ==> f.seqno < e.seqno
    requires forall i :: 0 <= i < |es| ==> Request(ids[i], Append(es[i].points)) in reqs
    ensures var last := es[|es| - 1].seqno;
      ObserveAll(reqs, m, [Synced(es), SeqPublished(last)] + SentOk(ids, es)) ==
      Monitor(m.synced + (set e | e in es), last, true)
  {
    var last := es[|es| - 1];
    var pre := [Synced(es), SeqPublished(last.seqno)];
    var m1 := Observe(reqs, m, Synced(es));
    assert last in m1.synced;
    var m2 := Observe(reqs, m1, SeqPublished(last.seqno));
    assert pre[..1] == [Synced(es)] && ObserveAll(reqs, m, pre[..1][..0]) == m;
    assert ObserveAll(reqs, m, pre[..1]) == m1 && ObserveAll(reqs, m, pre) == m2;
    ObserveAcks(reqs, m2, ids, es);
    ObserveConcat(reqs, m, pre, SentOk(ids, es));
  }

  lemma NeutralTurn(reqs: seq<Request>, t: Task, evs: seq<Event>, t': Task)
    requires forall i :: 0 <= i < |evs| ==> Neutral(evs[i])
    requires t'.trace == t.trace + evs
    ensures Watch(reqs, t') == Watch(reqs, t)
  {
    ObserveConcat(reqs, Monitor({}, 0, true), t.trace, evs);
    ObserveNeutral(reqs, Watch(reqs, t), evs);
  }

  lemma CommittedWatch(c: Codec, reqs: seq<Request>, t: Task, g: Gathered)
    requires Watch(reqs, t).ok && |g.appends| == |g.entries| && g.entries != [] && Increasing(g.entries)
    requires forall e, f :: e in g.entries && f in Watch(reqs, t).synced ==> f.seqno < e.seqno
    requires forall i :: 0 <= i < |g.entries| ==> Request(g.appends[i], Append(g.entries[i].points)) in reqs
    ensures Watch(reqs, Committed(c, t, g)) ==
            Monitor(Watch(reqs, t).synced + (set e | e in g.entries), g.entries[|g.entries| - 1].seqno, true)
  {
    var last := g.entries[|g.entries| - 1].seqno;
    var pre, oks := [Synced(g.entries), SeqPublished(last)], SentOk(g.appends, g.entries);
    assert t.trace + pre + oks == t.trace + (pre + oks);
    ObserveConcat(reqs, Monitor({}, 0, true), t.trace, pre + oks);
    ObserveCommit(reqs, Watch(reqs, t), g.appends, g.entries);
  }

  lemma ServedWatch(reqs: seq<Request>, t: Task, g: Gathered, io: Io)
    ensures Watch(reqs, DrainServed(t, g)) == Watch(reqs, t)
    ensures Watch(reqs, RotateServed(t, g, io)) == Watch(reqs, t)
  {
    if g.drains != [] {
      var evs := Sent(DrainIds(g.drains), DrainOk(Expired(t.writer.completed, MaxBound(g.drains))));
      NeutralTurn(reqs, t, evs, DrainServed(t, g));
    }
    if g.rotate.Some? {
      var t' := RotateServed(t, g, io);
      NeutralTurn(reqs, t, [t'.trace[|t'.trace| - 1]], t');
    }
  }

  lemma FailedWatch(reqs: seq<Request>, t: Task, g: Gathered)
    ensures Watch(reqs, Failed(t, g)) == Watch(reqs, t)
  {
    var a, d := Sent(g.appends, AppendFailed), Sent(DrainIds(g.drains), DrainFailed);
    var r := if g.rotate.Some? then [Replied(g.rotate.value, RotateFailed)] else [];
    var t1 := t.(trace := t.trace + a);
    var t2 := t1.(trace := t1.trace + d);
    NeutralTurn(reqs, t, a, t1);
    NeutralTurn(reqs, t1, d, t2);
    NeutralTurn(reqs, t2, r, Failed(t, g));
  }

  /** The entries a turn numbers. */
  function NewEntries(t: Task, batch: seq<Request>): seq<LogEntry> {
    Gather(t.writer.currentSeq, batch).entries
  }

  lemma CommittedOk(c: Codec, reqs: seq<Request>, t: Task, g: Gathered, current: nat)
    requires Agrees(Watch(reqs, t), t.lastSeq, current) && t.writer.currentSeq == current + |g.entries|
    requires |g.appends| == |g.entries|
    requires forall i :: 0 <= i < |g.entries| ==> g.entries[i].seqno == current + 1 + i
    requires forall i :: 0 <= i < |g.entries| ==> Request(g.appends[i], Append(g.entries[i].points)) in reqs
    ensures TaskOk(reqs, Committed(c, t, g))
    ensures Watch(reqs, Committed(c, t, g)).synced == Watch(reqs, t).synced + (set e | e in g.entries)
  {
    if g.entries != [] {
      CommittedWatch(c, reqs, t, g);
      assert g.entries[|g.entries| - 1] in g.entries;
    }
  }

  lemma BegunWatch(reqs: seq<Request>, t: Task, batch: seq<Request>, g: Gathered)
    requires TaskOk(reqs, t)
    ensures Watch(reqs + batch, Begun(t, g)) == Watch(reqs, t)
  {
    ObserveMoreRequests(reqs, batch, Monitor({}, 0, true), t.trace);
    NeutralTurn(reqs + batch, t, Sent(g.rejected, RotateFailed), Begun(t, g));
  }

  /** Rotation and segment deletion are not observed. */
  lemma FinishedWatch(maxBytes: nat, reqs: seq<Request>, t: Task, g: Gathered, io: Io)
    requires TaskOk(reqs, t)
    ensures var t' := RotateServed(DrainServed(SizeRotated(maxBytes, t, io), g), g, io);
      TaskOk(reqs, t') && Watch(reqs, t') == Watch(reqs, t)
  {
    var t2 := SizeRotated(maxBytes, t, io);
    assert t2.trace == t.trace;
    ServedWatch(reqs, t2, g, io);
    ServedWatch(reqs, DrainServed(t2, g), g, io);
  }

  /** What one turn adds to the observation: its entries if the write succeeded, and nothing else. */
  lemma HandleWatch(c: Codec, maxBytes: nat, reqs: seq<Request>, t: Task, batch: seq<Request>, io: Io)
    requires TaskOk(reqs, t)
    ensures TaskOk(reqs + batch, Handle(c, maxBytes, t, batch, io))
    ensures Watch(reqs + batch, Handle(c, maxBytes, t, batch, io)).synced ==
            Watch(reqs, t).synced + (if io.writeOk then set e | e in NewEntries(t, batch) else {})
  {
    var g, all := Gather(t.writer.currentSeq, batch), reqs + batch;
    GatherShape(t.writer.currentSeq, batch);
    var t0 := Begun(t, g);
    BegunWatch(reqs, t, batch, g);
    if g.entries != [] && !io.writeOk {
      FailedWatch(all, t0, g);
    } else {
      CommittedOk(c, all, t0, g, t.writer.currentSeq);
      FinishedWatch(maxBytes, all, Committed(c, t0, g), g, io);
    }
  }

  /**
    Over any run: assigned sequences strictly increase, an append is acknowledged only after its
    frame was synced and a sequence at least as high was published, and the published sequence is
    always the highest synced one.
  */
  lemma {:induction false} AcknowledgedIsDurable(c: Codec, maxBytes: nat, turns: seq<Turn>)
    ensures TaskOk(Received(turns), Run(c, maxBytes, Start(), turns))
  {
    if turns != [] {
      var n := |turns| - 1;
      AcknowledgedIsDurable(c, maxBytes, turns[..n]);
      HandleWatch(c, maxBytes, Received(turns[..n]), Run(c, maxBytes, Start(), turns[..n]), turns[n].batch, turns[n].io);
    }
  }
}
