/** The group-commit task of one shard: batches of messages, one write and one sync per batch. */
module GroupCommit {
  import opened Types
  import opened WalFrames
  import opened WalSegments

  datatype Message = Append(points: seq<DataPoint>) | Rotate | DrainBefore(bound: nat)

  /** A message with the identity of its reply channel. */
  datatype Request = Request(id: nat, message: Message)

  datatype Reply =
    | AppendOk(seqno: nat)
    | AppendFailed
    | RotateOk(deleted: seq<nat>)
    | RotateFailed
    | DrainOk(deleted: seq<nat>)
    | DrainFailed

  /** What the outside world can observe, in order. */
  datatype Event =
    | Synced(entries: seq<LogEntry>)
    | SeqPublished(seqno: nat)
    | Replied(id: nat, reply: Reply)

  /** Outcomes of the file operations of one batch. */
  datatype Io = Io(writeOk: bool, sizeRotateOk: bool, rotateOk: bool)

  /** A batch sorted by message kind; at most one rotate request is kept. */
  datatype Gathered = Gathered(
    entries: seq<LogEntry>,
    appends: seq<nat>,
    rotate: Option<nat>,
    rejected: seq<nat>,
    drains: seq<(nat, nat)>)

  datatype Task = Task(writer: Writer, lastSeq: nat, trace: seq<Event>)

  function GatherOne(current: nat, g: Gathered, r: Request): Gathered {
    match r.message
    case Append(points) =>
      g.(entries := g.entries + [LogEntry(current + |g.entries| + 1, points)], appends := g.appends + [r.id])
    case Rotate =>
      if g.rotate.None? then g.(rotate := Some(r.id)) else g.(rejected := g.rejected + [r.id])
    case DrainBefore(bound) => g.(drains := g.drains + [(bound, r.id)])
  }

  function Gather(current: nat, batch: seq<Request>): Gathered {
    if batch == [] then Gathered([], [], None, [], [])
    else GatherOne(current, Gather(current, batch[..|batch| - 1]), batch[|batch| - 1])
  }

  function Sent(ids: seq<nat>, reply: Reply): (evs: seq<Event>)
    ensures |evs| == |ids|
  {
    seq(|ids|, i requires 0 <= i < |ids| => Replied(ids[i], reply))
  }

  function SentOk(ids: seq<nat>, es: seq<LogEntry>): (evs: seq<Event>)
    requires |ids| == |es|
    ensures |evs| == |ids|
  {
    seq(|ids|, i requires 0 <= i < |ids| => Replied(ids[i], AppendOk(es[i].seqno)))
  }

  function DrainIds(drains: seq<(nat, nat)>): (ids: seq<nat>)
    ensures |ids| == |drains|
  {
    seq(|drains|, i requires 0 <= i < |drains| => drains[i].1)
  }

  function MaxBound(drains: seq<(nat, nat)>): (m: nat)
    ensures forall i :: 0 <= i < |drains| ==> drains[i].0 <= m
    ensures m == 0 || exists i :: 0 <= i < |drains| && drains[i].0 == m
  {
    if drains == [] then 0
    else
      var m, d := MaxBound(drains[..|drains| - 1]), drains[|drains| - 1].0;
      if m < d then d else m
  }

  /** Sequences are handed out and surplus rotate requests answered while the batch is gathered. */
  function Begun(t: Task, g: Gathered): Task {
    t.(writer := t.writer.(currentSeq := t.writer.currentSeq + |g.entries|),
       trace := t.trace + Sent(g.rejected, RotateFailed))
  }

  /** The write or sync failed: every request of the batch is told so. */
  function Failed(t: Task, g: Gathered): Task {
    t.(trace := t.trace + Sent(g.appends, AppendFailed) + Sent(DrainIds(g.drains), DrainFailed)
                + (if g.rotate.Some? then [Replied(g.rotate.value, RotateFailed)] else []))
  }

  /** Sync first, then publish the last committed sequence, then reply. */
  function Committed(c: Codec, t: Task, g: Gathered): Task
    requires |g.appends| == |g.entries|
  {
    if g.entries == [] then t
    else
      var last := g.entries[|g.entries| - 1].seqno;
      Task(Wrote(c, t.writer, g.entries), last,
           t.trace + [Synced(g.entries), SeqPublished(last)] + SentOk(g.appends, g.entries))
  }

  function SizeRotated(maxBytes: nat, t: Task, io: Io): Task {
    if t.writer.currentSize >= maxBytes then t.(writer := Rotated(t.writer, io.sizeRotateOk)) else t
  }

  /** All drain requests of a batch are served with their maximum. */
  function DrainServed(t: Task, g: Gathered): Task {
    if g.drains == [] then t
    else
      var bound := MaxBound(g.drains);
      t.(writer := Drained(t.writer, bound),
         trace := t.trace + Sent(DrainIds(g.drains), DrainOk(Expired(t.writer.completed, bound))))
  }

  function RotateServed(t: Task, g: Gathered, io: Io): Task {
    if g.rotate.None? then t
    else
      var w := Rotated(t.writer, io.rotateOk);
      if io.rotateOk then
        t.(writer := Drained(w, U64_MAX), trace := t.trace + [Replied(g.rotate.value, RotateOk(Expired(w.completed, U64_MAX)))])
      else
        t.(writer := w, trace := t.trace + [Replied(g.rotate.value, RotateFailed)])
  }

  /** One turn of the task loop. */
  function Handle(c: Codec, maxBytes: nat, t: Task, batch: seq<Request>, io: Io): Task {
    var g := Gather(t.writer.currentSeq, batch);
    GatherShape(t.writer.currentSeq, batch);
    var t0 := Begun(t, g);
    if g.entries != [] && !io.writeOk then Failed(t0, g)
    else RotateServed(DrainServed(SizeRotated(maxBytes, Committed(c, t0, g), io), g), g, io)
  }

  lemma {:induction false} GatherShape(current: nat, batch: seq<Request>)
    ensures var g := Gather(current, batch);
      && |g.appends| == |g.entries|
      && (forall i :: 0 <= i < |g.entries| ==> g.entries[i].seqno == current + 1 + i)
      && (forall i :: 0 <= i < |g.entries| ==> Request(g.appends[i], Append(g.entries[i].points)) in batch)
  {
    if batch != [] {
      GatherShape(current, batch[..|batch| - 1]);
      assert forall r :: r in batch[..|batch| - 1] ==> r in batch;
    }
  }

  class WalTask {
    const writer: WalWriter
    var lastSeq: nat
    ghost var trace: seq<Event>

    ghost function View(): Task
      reads this, writer
    {
      Task(writer.View(), lastSeq, trace)
    }

    constructor (writer: WalWriter)
      ensures this.writer == writer && View() == Task(writer.View(), writer.currentSeq, [])
    {
      this.writer := writer;
      lastSeq := writer.currentSeq;
      trace := [];
    }

    /** Sorts a batch by message kind, handing out sequence numbers on the way. */
    method GatherBatch(batch: seq<Request>) returns (g: Gathered)
      modifies this, writer
      ensures g == Gather(old(writer.currentSeq), batch)
      ensures View() == Begun(old(View()), g)
    {
      g := Gathered([], [], None, [], []);
      ghost var current := writer.currentSeq;
      for i := 0 to |batch|
        invariant g == Gather(current, batch[..i])
        invariant View() == Begun(old(View()), g)
      {
        assert batch[..i + 1][..i] == batch[..i];
        match batch[i].message {
          case Append(points) =>
            writer.currentSeq := writer.currentSeq + 1;
            g := g.(entries := g.entries + [LogEntry(writer.currentSeq, points)], appends := g.appends + [batch[i].id]);
          case Rotate =>
            if g.rotate.None? {
              g := g.(rotate := Some(batch[i].id));
            } else {
              g := g.(rejected := g.rejected + [batch[i].id]);
              trace := trace + [Replied(batch[i].id, RotateFailed)];
              assert old(trace) + Sent(g.rejected, RotateFailed) == trace;
            }
          case DrainBefore(bound) =>
            g := g.(drains := g.drains + [(bound, batch[i].id)]);
        }
      }
      assert batch[..|batch|] == batch;
    }

    method CommitBatch(g: Gathered)
      requires |g.appends| == |g.entries|
      modifies this, writer
      ensures View() == Committed(writer.codec, old(View()), g)
    {
      if g.entries != [] {
        writer.Write(g.entries);
        lastSeq := g.entries[|g.entries| - 1].seqno;
        trace := trace + [Synced(g.entries), SeqPublished(lastSeq)] + SentOk(g.appends, g.entries);
      }
    }

    method RotateWhenFull(io: Io)
      modifies this, writer
      ensures View() == SizeRotated(writer.maxSegmentBytes, old(View()), io)
      ensures old(writer.currentSize) < writer.maxSegmentBytes ==> View() == old(View())
      ensures old(writer.currentSize) >= writer.maxSegmentBytes ==>
        && writer.currentSegment == old(writer.currentSegment) + 1
        && writer.completed == old(writer.completed) + [Tag(old(writer.currentSegment), writer.currentSeq)]
        && (io.sizeRotateOk ==> writer.handle == writer.currentSegment && writer.currentSize == 0)
    {
      if writer.currentSize >= writer.maxSegmentBytes {
        writer.Rotate(io.sizeRotateOk);
      }
    }

    method ServeDrains(g: Gathered)
      modifies this, writer
      ensures View() == DrainServed(old(View()), g)
    {
      if g.drains != [] {
        var deleted := writer.DrainCompletedBefore(MaxBound(g.drains));
        trace := trace + Sent(DrainIds(g.drains), DrainOk(deleted));
      }
    }

    method ServeRotate(g: Gathered, io: Io)
      modifies this, writer
      ensures View() == RotateServed(old(View()), g, io)
    {
      if g.rotate.Some? {
        writer.Rotate(io.rotateOk);
        if io.rotateOk {
          var deleted := writer.DrainCompletedBefore(U64_MAX);
          trace := trace + [Replied(g.rotate.value, RotateOk(deleted))];
        } else {
          trace := trace + [Replied(g.rotate.value, RotateFailed)];
        }
      }
    }

    /** One turn of the loop: gather, write and sync once, publish, reply, rotate, drain. */
    method HandleBatch(batch: seq<Request>, io: Io)
      modifies this, writer
      ensures View() == Handle(writer.codec, writer.maxSegmentBytes, old(View()), batch, io)
      ensures io.writeOk && io.sizeRotateOk && writer.maxSegmentBytes > 0 ==> writer.currentSize < writer.maxSegmentBytes
    {
      var g := GatherBatch(batch);
      GatherShape(old(writer.currentSeq), batch);
      if g.entries != [] && !io.writeOk {
        trace := Failed(View(), g).trace;
      } else {
        CommitBatch(g);
        RotateWhenFull(io);
        ServeDrains(g);
        ServeRotate(g, io);
      }
    }
  }
}
