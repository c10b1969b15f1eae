/** The segment writer: appending frames, rotation, and deletion of completed segments. */
module WalSegments {
  import opened Types
  import opened WalFrames

  /** A completed segment with the highest sequence it may hold. */
  datatype Tag = Tag(segment: nat, maxSeq: nat)

  type Files = map<nat, seq<LogEntry>>

  /** Writer fields, and the segment files on disk as the entries they hold. */
  datatype Writer = Writer(
    currentSeq: nat,
    currentSize: nat,
    currentSegment: nat,
    handle: nat,                       // segment the open file handle writes to
    completed: seq<Tag>,
    files: Files)

  /** A writer opened on an empty directory. */
  function Fresh(): Writer {
    Writer(0, 0, 1, 1, [], map[1 := []])
  }

  const U64_MAX: nat := 0xFFFF_FFFF_FFFF_FFFF

  /** The tags given to the segments before segment `n` when a log is reopened. */
  function Older(n: nat): (tags: seq<Tag>)
    ensures |tags| == (if n == 0 then 0 else n - 1)
    ensures forall i :: 0 <= i < |tags| ==> tags[i] == Tag(i + 1, U64_MAX)
  {
    seq(if n == 0 then 0 else n - 1, (i: nat) => Tag(i + 1, U64_MAX))
  }

  /** A writer that resumes segment `n`; all earlier numbers are recorded with the maximal tag. */
  function Resumed(files: Files, n: nat, resume: nat, size: nat): Writer {
    Writer(resume, size, n, n, Older(n), files[n := if n in files then files[n] else []])
  }

  function Segment(w: Writer, n: nat): seq<LogEntry> {
    if n in w.files then w.files[n] else []
  }

  /** Numbers the batches of a group commit after the current sequence. */
  function Numbered(current: nat, batches: seq<seq<DataPoint>>): (es: seq<LogEntry>)
    ensures |es| == |batches|
    ensures forall k :: 0 <= k < |es| ==> es[k] == LogEntry(current + 1 + k, batches[k])
  {
    seq(|batches|, k requires 0 <= k < |batches| => LogEntry(current + 1 + k, batches[k]))
  }

  /** A write and sync of `es` to the open file. */
  function Wrote(c: Codec, w: Writer, es: seq<LogEntry>): Writer {
    w.(currentSize := w.currentSize + |Frames(c, es)|, files := w.files[w.handle := Segment(w, w.handle) + es])
  }

  /** The old segment is recorded before the new file is opened; a failed open keeps the old handle. */
  function Rotated(w: Writer, openOk: bool): Writer {
    var next := w.currentSegment + 1;
    var w' := w.(completed := w.completed + [Tag(w.currentSegment, w.currentSeq)], currentSegment := next);
    if openOk then w'.(handle := next, currentSize := 0, files := w.files[next := Segment(w, next)]) else w'
  }

  function Expired(tags: seq<Tag>, bound: nat): seq<nat>
  {
    if tags == [] then []
    else if tags[|tags| - 1].maxSeq <= bound then Expired(tags[..|tags| - 1], bound) + [tags[|tags| - 1].segment]
    else Expired(tags[..|tags| - 1], bound)
  }

  function Retained(tags: seq<Tag>, bound: nat): seq<Tag>
  {
    if tags == [] then []
    else if tags[|tags| - 1].maxSeq <= bound then Retained(tags[..|tags| - 1], bound)
    else Retained(tags[..|tags| - 1], bound) + [tags[|tags| - 1]]
  }

  /** Completed segments at or below the bound leave the writer, and their files are deleted. */
  function Drained(w: Writer, bound: nat): Writer {
    w.(completed := Retained(w.completed, bound), files := w.files - (set n | n in Expired(w.completed, bound)))
  }

  class WalWriter {
    var currentSeq: nat
    var currentSize: nat
    var currentSegment: nat
    var handle: nat
    var completed: seq<Tag>
    var files: Files
    const codec: Codec
    const maxSegmentBytes: nat

    function View(): Writer
      reads this
    {
      Writer(currentSeq, currentSize, currentSegment, handle, completed, files)
    }

    constructor (codec: Codec, maxSegmentBytes: nat)
      ensures View() == Fresh() && this.codec == codec && this.maxSegmentBytes == maxSegmentBytes
    {
      currentSeq, currentSize, currentSegment, handle := 0, 0, 1, 1;
      completed, files := [], map[1 := []];
      this.codec, this.maxSegmentBytes := codec, maxSegmentBytes;
    }

    constructor Resume(codec: Codec, maxSegmentBytes: nat, onDisk: Files, segment: nat, resume: nat, size: nat)
      ensures View() == Resumed(onDisk, segment, resume, size)
      ensures this.codec == codec && this.maxSegmentBytes == maxSegmentBytes
    {
      currentSeq, currentSize, currentSegment, handle := resume, size, segment, segment;
      completed := [];
      files := onDisk[segment := if segment in onDisk then onDisk[segment] else []];
      this.codec, this.maxSegmentBytes := codec, maxSegmentBytes;
      new;
      var n := 1;
      while n < segment
        invariant n == 1 || 1 <= n <= segment
        invariant completed == Older(n)
        invariant View() == Writer(resume, size, segment, segment, completed, onDisk[segment := if segment in onDisk then onDisk[segment] else []])
      {
        completed := completed + [Tag(n, U64_MAX)];
        n := n + 1;
      }
      assert n == segment || (segment == 0 && Older(0) == [] == Older(1));
    }

    method Write(es: seq<LogEntry>)
      modifies this
      ensures View() == Wrote(codec, old(View()), es)
    {
      files := files[handle := (if handle in files then files[handle] else []) + es];
      currentSize := currentSize + |Frames(codec, es)|;
    }

    method Rotate(openOk: bool)
      modifies this
      ensures View() == Rotated(old(View()), openOk)
    {
      completed := completed + [Tag(currentSegment, currentSeq)];
      currentSegment := currentSegment + 1;
      if openOk {
        handle := currentSegment;
        files := files[handle := if handle in files then files[handle] else []];
        currentSize := 0;
      }
    }

    /** One batch written, synced and, past the size threshold, followed by a rotation. */
    method Append(points: seq<DataPoint>, writeOk: bool, openOk: bool) returns (r: Option<nat>)
      modifies this
      ensures var w := old(View()).(currentSeq := old(currentSeq) + 1);
        var w' := Wrote(codec, w, [LogEntry(w.currentSeq, points)]);
        if !writeOk then View() == w && r == None
        else if w'.currentSize < maxSegmentBytes then View() == w' && r == Some(w.currentSeq)
        else View() == Rotated(w', openOk) && r == (if openOk then Some(w.currentSeq) else None)
    {
      currentSeq := currentSeq + 1;
      if !writeOk {
        return None;
      }
      Write([LogEntry(currentSeq, points)]);
      if currentSize >= maxSegmentBytes {
        Rotate(openOk);
        if !openOk {
          return None;
        }
      }
      r := Some(currentSeq);
    }

    /** Splits the completed segments into those to delete and those to keep, and deletes the former. */
    method DrainCompletedBefore(bound: nat) returns (deleted: seq<nat>)
      modifies this
      ensures deleted == Expired(old(completed), bound)
      ensures View() == Drained(old(View()), bound)
    {
      var kept: seq<Tag> := [];
      deleted := [];
      for i := 0 to |completed|
        invariant completed == old(completed) && View() == old(View())
        invariant deleted == Expired(completed[..i], bound) && kept == Retained(completed[..i], bound)
      {
        assert completed[..i + 1][..i] == completed[..i];
        if completed[i].maxSeq <= bound {
          deleted := deleted + [completed[i].segment];
        } else {
          kept := kept + [completed[i]];
        }
      }
      assert completed[..|completed|] == completed;
      completed := kept;
      files := files - (set n | n in deleted);
    }
  }

  // ----- What every operation keeps -----

  predicate SortedTags(tags: seq<Tag>) {
    forall i, j :: 0 <= i < j < |tags| ==> tags[i].segment < tags[j].segment && tags[i].maxSeq <= tags[j].maxSeq
  }

  ghost predicate Tagged(tags: seq<Tag>, n: nat) {
    exists i :: 0 <= i < |tags| && tags[i].segment == n
  }

  /** The files are the completed segments and the open one, in increasing order with non-decreasing tags. */
  ghost predicate Ordered(w: Writer) {
    && w.handle == w.currentSegment && w.currentSegment in w.files
    && (forall n :: n in w.files ==> n == w.currentSegment || Tagged(w.completed, n))
    && SortedTags(w.completed)
    && (forall i :: 0 <= i < |w.completed| ==>
          && w.completed[i].segment in w.files
          && w.completed[i].segment < w.currentSegment
          && w.completed[i].maxSeq <= w.currentSeq)
  }

  /** No sequence was handed out beyond the current one. */
  ghost predicate Numbers(w: Writer) {
    forall n, e :: n in w.files && e in w.files[n] ==> e.seqno <= w.currentSeq
  }

  /** A tag bounds the entries of its segment, and all later entries are above it. */
  ghost predicate TagBounds(w: Writer, t: Tag) {
    && (forall e :: e in Segment(w, t.segment) ==> e.seqno <= t.maxSeq)
    && (forall n, e :: n in w.files && t.segment < n && e in w.files[n] ==> t.maxSeq < e.seqno)
  }

  ghost predicate WriterOk(w: Writer) {
    Ordered(w) && Numbers(w) && forall i :: 0 <= i < |w.completed| ==> TagBounds(w, w.completed[i])
  }

  ghost predicate Holds(w: Writer, e: LogEntry) {
    exists n :: n in w.files && e in w.files[n]
  }

  lemma FreshOk()
    ensures WriterOk(Fresh())
  {
  }

  lemma HoldsSame(w: Writer, w': Writer)
    requires forall n :: n in w.files ==> n in w'.files && w.files[n] == w'.files[n]
    requires forall n :: n in w'.files && n !in w.files ==> w'.files[n] == []
    ensures forall e :: Holds(w', e) <==> Holds(w, e)
  {
    forall e | Holds(w, e) ensures Holds(w', e) {
      var n :| n in w.files && e in w.files[n];
      assert e in w'.files[n];
    }
  }

  /** Sequences may be handed out without being written. */
  lemma NumbersGrow(w: Writer, n: nat)
    requires WriterOk(w)
    ensures WriterOk(w.(currentSeq := w.currentSeq + n)) && forall e :: Holds(w.(currentSeq := w.currentSeq + n), e) <==> Holds(w, e)
  {
    var w' := w.(currentSeq := w.currentSeq + n);
    forall i | 0 <= i < |w'.completed| ensures TagBounds(w', w'.completed[i]) {
      assert TagBounds(w, w.completed[i]);
    }
  }

  /** Entries numbered after everything handed out before can be written. */
  lemma WroteOk(c: Codec, w: Writer, es: seq<LogEntry>)
    requires WriterOk(w)
    requires forall i, e :: 0 <= i < |w.completed| && e in es ==> w.completed[i].maxSeq < e.seqno
    requires forall e :: e in es ==> e.seqno <= w.currentSeq
    ensures WriterOk(Wrote(c, w, es))
    ensures forall e :: Holds(Wrote(c, w, es), e) <==> Holds(w, e) || e in es
  {
    var w' := Wrote(c, w, es);
    assert w'.files.Keys == w.files.Keys;
    forall i | 0 <= i < |w'.completed| ensures TagBounds(w', w'.completed[i]) {
      assert TagBounds(w, w.completed[i]);
    }
    forall e ensures Holds(w', e) <==> Holds(w, e) || e in es {
      if n :| n in w.files && e in w.files[n] {
        assert n in w'.files && e in w'.files[n];
      } else if e in es {
        assert e in w'.files[w.handle];
      }
    }
  }

  lemma RotateOrdered(w: Writer)
    requires Ordered(w)
    ensures Ordered(Rotated(w, true))
  {
    var w' := Rotated(w, true);
    forall n | n in w'.files ensures n == w'.currentSegment || Tagged(w'.completed, n) {
      if n == w.currentSegment {
        assert w'.completed[|w.completed|].segment == n;
      } else if n != w'.currentSegment {
        var i :| 0 <= i < |w.completed| && w.completed[i].segment == n;
        assert w'.completed[i].segment == n;
      }
    }
  }

  lemma RotateTags(w: Writer, i: nat)
    requires WriterOk(w) && i <= |w.completed|
    ensures TagBounds(Rotated(w, true), Rotated(w, true).completed[i])
  {
    assert w.currentSegment + 1 !in w.files;
    if i < |w.completed| {
      assert TagBounds(w, w.completed[i]);
    }
  }

  lemma RotateKeeps(w: Writer)
    requires WriterOk(w)
    ensures WriterOk(Rotated(w, true))
  {
    var w' := Rotated(w, true);
    RotateOrdered(w);
    forall i | 0 <= i < |w'.completed| ensures TagBounds(w', w'.completed[i]) {
      RotateTags(w, i);
    }
    assert w.currentSegment + 1 !in w.files;
    assert Numbers(w');
  }

  /** A rotation keeps the invariant exactly when the new file can be opened. */
  lemma RotateExact(w: Writer, openOk: bool)
    requires WriterOk(w)
    ensures WriterOk(Rotated(w, openOk)) <==> openOk
    ensures forall e :: Holds(Rotated(w, openOk), e) <==> Holds(w, e)
  {
    if openOk {
      RotateKeeps(w);
    }
    assert w.currentSegment + 1 !in w.files;
    HoldsSame(w, Rotated(w, openOk));
  }

  lemma {:induction false} ExpiredIs(tags: seq<Tag>, bound: nat, n: nat)
    ensures n in Expired(tags, bound) <==> exists i :: 0 <= i < |tags| && tags[i].segment == n && tags[i].maxSeq <= bound
  {
    if tags != [] {
      var last := |tags| - 1;
      ExpiredIs(tags[..last], bound, n);
      if i :| 0 <= i < |tags| && tags[i].segment == n && tags[i].maxSeq <= bound && i < last {
        assert tags[..last][i].segment == n;
      }
    }
  }

  /** `k` is where the tags rise above the bound. */
  predicate Cut(tags: seq<Tag>, bound: nat, k: nat) {
    k <= |tags| && forall i :: 0 <= i < |tags| ==> (tags[i].maxSeq <= bound <==> i < k)
  }

  lemma FindCut(tags: seq<Tag>, bound: nat) returns (k: nat)
    requires SortedTags(tags)
    ensures Cut(tags, bound, k)
  {
    k := 0;
    while k < |tags| && tags[k].maxSeq <= bound
      invariant k <= |tags| && forall i :: 0 <= i < k ==> tags[i].maxSeq <= bound
    {
      k := k + 1;
    }
  }

  lemma {:induction false} RetainedSuffix(tags: seq<Tag>, bound: nat, k: nat)
    requires Cut(tags, bound, k)
    ensures Retained(tags, bound) == tags[k..]
  {
    if tags != [] {
      var n := |tags| - 1;
      RetainedSuffix(tags[..n], bound, if k <= n then k else n);
      if k <= n {
        assert tags[k..] == tags[..n][k..] + [tags[n]];
      }
    }
  }

  /** Exactly the segments behind the cut lose their files. */
  lemma DrainFiles(w: Writer, bound: nat, k: nat, n: nat)
    requires Ordered(w) && Cut(w.completed, bound, k)
    ensures n in Drained(w, bound).files <==> n in w.files && !exists i :: 0 <= i < k && w.completed[i].segment == n
  {
    ExpiredIs(w.completed, bound, n);
  }

  lemma DrainOrdered(w: Writer, bound: nat, k: nat)
    requires Ordered(w) && Cut(w.completed, bound, k)
    ensures Ordered(Drained(w, bound))
  {
    var w' := Drained(w, bound);
    RetainedSuffix(w.completed, bound, k);
    DrainFiles(w, bound, k, w.currentSegment);
    forall n | n in w'.files ensures n == w'.currentSegment || Tagged(w'.completed, n) {
      DrainFiles(w, bound, k, n);
      if n != w'.currentSegment {
        var i :| 0 <= i < |w.completed| && w.completed[i].segment == n;
        assert w'.completed[i - k].segment == n;
      }
    }
    forall i | 0 <= i < |w'.completed| ensures w'.completed[i].segment in w'.files {
      assert w'.completed[i] == w.completed[i + k];
      DrainFiles(w, bound, k, w'.completed[i].segment);
    }
  }

  /** A drain removes a prefix of the completed segments, never the open one, and no frame above its bound. */
  lemma DrainConserves(w: Writer, bound: nat) returns (k: nat)
    requires WriterOk(w)
    ensures WriterOk(Drained(w, bound))
    ensures k <= |w.completed| && Drained(w, bound).completed == w.completed[k..]
    ensures w.currentSegment in Drained(w, bound).files
    ensures forall e :: Holds(w, e) && e.seqno > bound ==> Holds(Drained(w, bound), e)
    ensures forall e :: Holds(Drained(w, bound), e) ==> Holds(w, e)
  {
    var w' := Drained(w, bound);
    k := FindCut(w.completed, bound);
    RetainedSuffix(w.completed, bound, k);
    DrainOrdered(w, bound, k);
    forall i | 0 <= i < |w'.completed| ensures TagBounds(w', w'.completed[i]) {
      assert w'.completed[i] == w.completed[i + k];
      assert TagBounds(w, w.completed[i + k]);
    }
    forall e | Holds(w, e) && e.seqno > bound ensures Holds(w', e) {
      DrainKeeps(w, bound, e);
    }
  }

  lemma DrainKeeps(w: Writer, bound: nat, e: LogEntry)
    requires WriterOk(w) && Holds(w, e) && e.seqno > bound
    ensures Holds(Drained(w, bound), e)
  {
    var n :| n in w.files && e in w.files[n];
    ExpiredIs(w.completed, bound, n);
    forall i | 0 <= i < |w.completed| && w.completed[i].segment == n ensures w.completed[i].maxSeq > bound {
      assert TagBounds(w, w.completed[i]);
    }
    assert n in Drained(w, bound).files && e in Drained(w, bound).files[n];
  }

  /** What a failed rotation leads to: the next frame lands in a completed segment and is deleted with it. */
  lemma FailedRotateLoses(c: Codec, w: Writer, e: LogEntry)
    requires WriterOk(w) && !Holds(w, e) && w.currentSeq < e.seqno
    ensures var w' := Wrote(c, Rotated(w, false), [e]);
      Holds(w', e) && !Holds(Drained(w', w.currentSeq), e)
  {
    var r := Rotated(w, false);
    var w' := Wrote(c, r, [e]);
    assert e in w'.files[w.handle];
    assert w'.completed[|w.completed|] == Tag(w.handle, w.currentSeq);
    ExpiredIs(w'.completed, w.currentSeq, w.handle);
    var d := Drained(w', w.currentSeq);
    forall n | n in d.files ensures e !in d.files[n] {
      assert n in w.files && n != w.handle && d.files[n] == w.files[n];
    }
  }
}
