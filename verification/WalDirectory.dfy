/** Log directories as bytes: what recovery reads after any crash, also when an earlier restart left a torn segment. */
module WalDirectory {
  import opened Types
  import opened WalFrames
  import opened WalSegments
  import opened WalRestart
  import opened GroupCommit
  import opened GroupCommitTheorems
  import opened WalRuns

  type Directory = map<nat, seq<byte>>

  // ----- Reading a directory -----

  /** The segment files in the order recovery visits them. */
  function Buffers(dir: Directory): seq<seq<byte>>
    decreases |dir|
  {
    if dir == map[] then []
    else
      var m := HighestSegment(dir);
      var rest := dir - {m};
      assert |rest| < |dir| by {
        assert rest.Keys == dir.Keys - {m};
      }
      Buffers(rest) + [dir[m]]
  }

  /** The segment reads as `es`, torn or not. */
  ghost predicate Reads(c: Codec, buf: seq<byte>, es: seq<LogEntry>) {
    exists torn :: ScanSegment(c, buf) == Scan(es, torn)
  }

  ghost predicate Decodes(c: Codec, dir: Directory, files: Files) {
    dir.Keys == files.Keys && forall n :: n in dir ==> Reads(c, dir[n], files[n])
  }

  lemma {:induction false} ScanAllConcat(c: Codec, a: seq<seq<byte>>, b: seq<seq<byte>>)
    ensures ScanAll(c, a + b) == Join(ScanAll(c, a), ScanAll(c, b))
  {
    hide ScanSegment;
    if a == [] {
      assert a + b == b;
      JoinUnit(ScanAll(c, b));
    } else {
      assert (a + b)[1..] == a[1..] + b;
      ScanAllConcat(c, a[1..], b);
      JoinAssoc(ScanSegment(c, a[0]), ScanAll(c, a[1..]), ScanAll(c, b));
    }
  }

  lemma ScanOne(c: Codec, buf: seq<byte>)
    ensures ScanAll(c, [buf]) == ScanSegment(c, buf)
  {
    hide ScanSegment;
    assert [buf][1..] == [];
    JoinUnit(ScanSegment(c, buf));
  }

  /** A torn segment anywhere hides nothing of the segments after it. */
  lemma {:induction false} DirectoryScan(c: Codec, dir: Directory, files: Files) returns (torn: bool)
    requires Decodes(c, dir, files)
    ensures ScanAll(c, Buffers(dir)) == Scan(Entries(files), torn)
    decreases |dir|
  {
    hide ScanSegment;
    if dir == map[] {
      assert files == map[] by {
        assert files.Keys == {};
      }
      torn := false;
    } else {
      var m := HighestSegment(dir);
      assert m in dir && dir != map[] && files != map[];
      assert HighestSegment(files) == m;
      assert |dir - {m}| < |dir| by {
        assert (dir - {m}).Keys == dir.Keys - {m};
      }
      assert (dir - {m}).Keys == (files - {m}).Keys;
      var front := DirectoryScan(c, dir - {m}, files - {m});
      var last :| ScanSegment(c, dir[m]) == Scan(files[m], last);
      ScanAllConcat(c, Buffers(dir - {m}), [dir[m]]);
      ScanOne(c, dir[m]);
      torn := front || last;
    }
  }

  /** Recovery returns, in segment order, the points above the watermark of every entry that reads. */
  lemma RecoverDirectory(c: Codec, dir: Directory, files: Files, watermark: nat) returns (torn: bool)
    requires Decodes(c, dir, files)
    ensures RecoverFrom(c, EmptyRecovery(), Buffers(dir), watermark) ==
            Some(Report(Entries(files), |Buffers(dir)|, torn, watermark))
  {
    hide *;
    torn := DirectoryScan(c, dir, files);
    RecoverScanned(c, Buffers(dir), Entries(files), torn, watermark);
  }

  // ----- What a crash leaves -----

  /** A segment with synced entries `es` that goes on with frames written but never synced, cut at any byte. */
  ghost predicate OpenSegment(c: Codec, es: seq<LogEntry>, unsynced: seq<LogEntry>, cut: nat, buf: seq<byte>) {
    && AllFit(c, es + unsynced)
    && |Frames(c, es)| <= cut <= |Frames(c, es + unsynced)|
    && buf == Frames(c, es + unsynced)[..cut]
  }

  lemma {:induction false} CompleteAtLeast(c: Codec, es: seq<LogEntry>, more: seq<LogEntry>, cut: nat)
    requires |Frames(c, es)| <= cut
    ensures Complete(c, es + more, cut) >= |es|
  {
    if es != [] {
      assert (es + more)[1..] == es[1..] + more;
      CompleteAtLeast(c, es[1..], more, cut - |Frame(c, es[0])|);
    }
  }

  lemma OpenSegmentReads(c: Codec, es: seq<LogEntry>, unsynced: seq<LogEntry>, cut: nat, buf: seq<byte>) returns (extra: seq<LogEntry>)
    requires Lawful(c) && OpenSegment(c, es, unsynced, cut, buf)
    ensures Reads(c, buf, es + extra) && extra <= unsynced
  {
    hide Lawful, Frames, Frame, AllFit, ScanSegment, Complete;
    var all := es + unsynced;
    ScanTruncated(c, all, cut);
    CompleteAtLeast(c, es, unsynced, cut);
    var n := Complete(c, all, cut);
    extra := unsynced[..n - |es|];
    assert all[..n] == es + extra;
  }

  ghost predicate FilesFit(c: Codec, files: Files) {
    forall n :: n in files ==> AllFit(c, files[n])
  }

  /**
    The log directory at a crash of a writer: segments below `limit` are as they were `before` it was opened,
    the others hold complete frames, and the open one may go on with unsynced frames.
  */
  ghost predicate CrashFiles(c: Codec, before: Directory, limit: nat, w: Writer, dir: Directory) {
    && dir.Keys == w.files.Keys && w.handle in dir
    && (forall n :: n in dir && n < limit ==> n in before && dir[n] == before[n])
    && (forall n :: n in dir && limit <= n && n != w.handle ==> dir[n] == Frames(c, w.files[n]))
    && (exists unsynced, cut :: OpenSegment(c, w.files[w.handle], unsynced, cut, dir[w.handle]))
  }

  /** Such a directory reads as the writer's files, with some of the unsynced entries at the end. */
  lemma CrashDecodes(c: Codec, before: Directory, earlier: Files, limit: nat, w: Writer, dir: Directory) returns (extra: seq<LogEntry>)
    requires Lawful(c) && FilesFit(c, w.files) && CrashFiles(c, before, limit, w, dir) && limit <= w.handle
    requires forall n :: n in w.files && n < limit ==> n in earlier && w.files[n] == earlier[n] && n in before && Reads(c, before[n], earlier[n])
    ensures w.handle in w.files && Decodes(c, dir, w.files[w.handle := w.files[w.handle] + extra])
  {
    hide Lawful, Frames, AllFit, ScanSegment, Reads, OpenSegment;
    var unsynced, cut :| OpenSegment(c, w.files[w.handle], unsynced, cut, dir[w.handle]);
    extra := OpenSegmentReads(c, w.files[w.handle], unsynced, cut, dir[w.handle]);
    var files := w.files[w.handle := w.files[w.handle] + extra];
    assert dir.Keys == files.Keys;
    forall n | n in dir ensures Reads(c, dir[n], files[n]) {
      if limit <= n && n != w.handle {
        WholeReads(c, w.files[n]);
      }
    }
  }

  lemma WholeReads(c: Codec, es: seq<LogEntry>)
    requires Lawful(c) && AllFit(c, es)
    ensures Reads(c, Frames(c, es), es)
  {
    hide Lawful, AllFit, ScanSegment, Frames;
    ScanWhole(c, es);
  }

  // ----- Writing after a restart -----

  /** Segments below `limit` are left as they were, apart from deletion. */
  ghost predicate Frozen(files: Files, limit: nat, w: Writer) {
    && limit <= w.handle == w.currentSegment
    && forall n :: n in w.files && n < limit ==> n in files && w.files[n] == files[n]
  }

  lemma DrainedFrozen(files: Files, limit: nat, w: Writer, bound: nat)
    requires Frozen(files, limit, w)
    ensures Frozen(files, limit, Drained(w, bound))
  {
    hide Retained, Expired;
  }

  lemma HandleFrozen(c: Codec, maxBytes: nat, t: Task, turn: Turn, files: Files, limit: nat)
    requires Frozen(files, limit, t.writer) && RotationsSucceed(turn)
    ensures Frozen(files, limit, Handle(c, maxBytes, t, turn.batch, turn.io).writer)
  {
    hide Gather, Drained, Frames, Frozen;
    var g := Gather(t.writer.currentSeq, turn.batch);
    GatherShape(t.writer.currentSeq, turn.batch);
    var t0 := Begun(t, g);
    WroteFrozen(c, t.writer, t0.writer, g.entries, files, limit);
    if Commits(t, turn) {
      var t1 := Committed(c, t0, g);
      RotatedFrozen(t1.writer, files, limit);
      var t2 := SizeRotated(maxBytes, t1, turn.io);
      DrainedFrozen(files, limit, t2.writer, MaxBound(g.drains));
      var t3 := DrainServed(t2, g);
      RotatedFrozen(t3.writer, files, limit);
      DrainedFrozen(files, limit, Rotated(t3.writer, true), U64_MAX);
    }
  }

  lemma WroteFrozen(c: Codec, w: Writer, w0: Writer, es: seq<LogEntry>, files: Files, limit: nat)
    requires Frozen(files, limit, w) && w0 == w.(currentSeq := w0.currentSeq)
    ensures Frozen(files, limit, w0) && Frozen(files, limit, Wrote(c, w0, es))
  {
  }

  lemma RotatedFrozen(w: Writer, files: Files, limit: nat)
    requires Frozen(files, limit, w)
    ensures Frozen(files, limit, Rotated(w, true))
  {
  }

  lemma {:induction false} RunFrozen(c: Codec, maxBytes: nat, start: Task, turns: seq<Turn>, files: Files, limit: nat)
    requires Frozen(files, limit, start.writer) && forall i :: 0 <= i < |turns| ==> RotationsSucceed(turns[i])
    ensures Frozen(files, limit, Run(c, maxBytes, start, turns).writer)
  {
    hide Frozen, Handle;
    if turns != [] {
      var n := |turns| - 1;
      RunFrozen(c, maxBytes, start, turns[..n], files, limit);
      HandleFrozen(c, maxBytes, Run(c, maxBytes, start, turns[..n]), turns[n], files, limit);
    }
  }

  /** The first segment number a restart writes to. */
  function FirstNew(files: Files): nat {
    if files == map[] then 1 else HighestSegment(files) + 1
  }

  /** Sequences are below the largest number. */
  ghost predicate Bounded(files: Files, watermark: nat) {
    watermark < U64_MAX && forall n, e :: n in files && e in files[n] ==> e.seqno < U64_MAX
  }

  lemma {:induction false} EntriesFrom(files: Files, e: LogEntry)
    ensures e in Entries(files) <==> exists n :: n in files && e in files[n]
    decreases |files|
  {
    if files != map[] {
      var m := HighestSegment(files);
      assert |files - {m}| < |files| by {
        assert (files - {m}).Keys == files.Keys - {m};
      }
      EntriesFrom(files - {m}, e);
      EntriesWithout(files);
      if n :| n in files && e in files[n] {
        if n != m {
          assert n in files - {m} && e in (files - {m})[n];
        }
      }
      if n :| n in files - {m} && e in (files - {m})[n] {
        assert n in files && e in files[n];
      }
    }
  }

  lemma HighestBounded(files: Files, watermark: nat)
    requires Bounded(files, watermark)
    ensures Highest(Above(Entries(files), watermark)) < U64_MAX
  {
    var above := Above(Entries(files), watermark);
    AboveIsAbove(Entries(files), watermark);
    hide Above, Entries;
    if Highest(above) != 0 {
      var e :| e in above && e.seqno == Highest(above);
      EntriesFrom(files, e);
    }
  }

  lemma OpenedEmpty(watermark: nat, size: nat)
    ensures Opened(map[], watermark, size) == Writer(0, size, 1, 1, [], map[1 := []])
  {
    assert Entries(map[]) == [] && Above([], watermark) == [];
    assert Older(1) == [];
  }

  /** After a restart old segments are untouched, and their tags and that of the segment rotated out are honest. */
  lemma OpenedHonest(files: Files, watermark: nat, size: nat)
    requires Bounded(files, watermark)
    ensures Honest(Opened(files, watermark, size)) && Frozen(files, FirstNew(files), Opened(files, watermark, size))
    ensures Opened(files, watermark, size).currentSeq == Highest(Above(Entries(files), watermark))
  {
    if files == map[] {
      OpenedEmpty(watermark, size);
      assert Entries(map[]) == [] && Above([], watermark) == [];
    } else {
      HighestBounded(files, watermark);
      OpenDeletesHighest(files, watermark, size);
      OpenedTags(files, watermark, size);
    }
  }

  /** The tags after a restart: maximal ones for older segments, and that of the highest one if it was kept. */
  lemma OpenedTags(files: Files, watermark: nat, size: nat)
    requires files != map[] && Bounded(files, watermark)
    ensures var w := Opened(files, watermark, size); forall t :: t in w.completed ==> TagHonest(w, t)
  {
    HighestBounded(files, watermark);
    OpenDeletesHighest(files, watermark, size);
    var w, n, above := Opened(files, watermark, size), HighestSegment(files), Above(Entries(files), watermark);
    var last := Highest(above);
    var tags := Older(n) + [Tag(n, last)];
    assert files[n := files[n]] == files;
    RetainedFrom(tags, if Recoverable(files, watermark) then last else watermark);
    forall t | t in w.completed ensures TagHonest(w, t) {
      assert t in tags;
      forall e | e in Segment(w, t.segment) ensures e.seqno <= t.maxSeq {
        if t == Tag(n, last) {
          EntriesFrom(files, e);
          KeptEntry(files, watermark, e);
        }
      }
    }
  }

  lemma KeptEntry(files: Files, watermark: nat, e: LogEntry)
    requires e in Entries(files) && Above(Entries(files), watermark) != []
    ensures e.seqno <= Highest(Above(Entries(files), watermark))
  {
    AboveIsAbove(Entries(files), watermark);
    AboveHas(Entries(files), watermark, e);
  }

  lemma {:induction false} AboveHas(es: seq<LogEntry>, watermark: nat, e: LogEntry)
    requires e in es
    ensures e in Above(es, watermark) <==> watermark < e.seqno
  {
    AboveIsAbove(es, watermark);
    if es[0] != e {
      assert e in es[1..];
      AboveHas(es[1..], watermark, e);
    }
  }

  lemma {:induction false} PointsHave(es: seq<LogEntry>, e: LogEntry, p: DataPoint)
    requires e in es && p in e.points
    ensures p in PointsOf(es)
  {
    if es[0] != e {
      assert e in es[1..];
      PointsHave(es[1..], e, p);
    }
  }

  /**
    A restart on any directory that recovery can read, torn segments included, then any run of the group-commit
    task with rotations and drains, then a crash that cuts the open segment at any byte: the next recovery
    returns exactly the entries of the segments that are left, with some unsynced ones at the end, and among them
    every point that was synced since the restart with a sequence above the drained bound and the watermark.
  */
  lemma CommittedAfterRestart(c: Codec, maxBytes: nat, before: Directory, earlier: Files, watermark: nat, size: nat,
                              turns: seq<Turn>, bound: nat, dir: Directory, next: nat)
    returns (extra: seq<LogEntry>, torn: bool)
    requires Lawful(c) && Decodes(c, before, earlier) && Bounded(earlier, watermark) && Asked(turns, bound)
    requires var w := Restarted(c, maxBytes, earlier, watermark, size, turns).writer;
             FilesFit(c, w.files) && CrashFiles(c, before, FirstNew(earlier), w, dir)
    ensures var w := Restarted(c, maxBytes, earlier, watermark, size, turns).writer;
            && w.handle in w.files
            && RecoverFrom(c, EmptyRecovery(), Buffers(dir), next) ==
               Some(Report(Entries(w.files[w.handle := w.files[w.handle] + extra]), |Buffers(dir)|, torn, next))
            && Returns(Surviving(c, maxBytes, Reopening(earlier, watermark, size), turns), bound, next,
                       Report(Entries(w.files[w.handle := w.files[w.handle] + extra]), |Buffers(dir)|, torn, next))
  {
    hide Lawful, Decodes, Bounded, Asked, Restarted, Reopening, FilesFit, CrashFiles, FirstNew, Surviving, Entries, Report, RecoverFrom, Buffers;
    var start := Reopening(earlier, watermark, size);
    var w := Restarted(c, maxBytes, earlier, watermark, size, turns).writer;
    extra := RestartDecodes(c, maxBytes, before, earlier, watermark, size, turns, bound, dir);
    var files := w.files[w.handle := w.files[w.handle] + extra];
    torn := RecoverDirectory(c, dir, files, next);
    forall e, p | e in Surviving(c, maxBytes, start, turns) && e.seqno > bound && e.seqno > next && p in e.points
      ensures p in Report(Entries(files), |Buffers(dir)|, torn, next).points
    {
      SurvivorHeld(c, maxBytes, earlier, watermark, size, turns, bound, e);
      HeldRecovered(w, extra, |Buffers(dir)|, torn, next, e, p);
    }
  }

  /** The recovery has every point of the entries above both numbers. */
  ghost predicate Returns(es: set<LogEntry>, bound: nat, watermark: nat, r: Recovery) {
    forall e, p :: e in es && p in e.points && e.seqno > bound && e.seqno > watermark ==> p in r.points
  }

  /** The task a restart starts. */
  function Reopening(earlier: Files, watermark: nat, size: nat): Task {
    Task(Opened(earlier, watermark, size), Opened(earlier, watermark, size).currentSeq, [])
  }

  function Restarted(c: Codec, maxBytes: nat, earlier: Files, watermark: nat, size: nat, turns: seq<Turn>): Task {
    Run(c, maxBytes, Reopening(earlier, watermark, size), turns)
  }

  lemma SurvivorHeld(c: Codec, maxBytes: nat, earlier: Files, watermark: nat, size: nat, turns: seq<Turn>, bound: nat, e: LogEntry)
    requires Bounded(earlier, watermark) && Asked(turns, bound)
    requires e in Surviving(c, maxBytes, Reopening(earlier, watermark, size), turns) && e.seqno > bound
    ensures Holds(Restarted(c, maxBytes, earlier, watermark, size, turns).writer, e)
  {
    hide Honest, Frozen, Opened, Run, Surviving, SyncedBy, Holds;
    OpenedHonest(earlier, watermark, size);
    SyncedSurvives(c, maxBytes, Reopening(earlier, watermark, size), turns, bound);
  }

  lemma RestartDecodes(c: Codec, maxBytes: nat, before: Directory, earlier: Files, watermark: nat, size: nat,
                       turns: seq<Turn>, bound: nat, dir: Directory) returns (extra: seq<LogEntry>)
    requires Lawful(c) && Decodes(c, before, earlier) && Bounded(earlier, watermark) && Asked(turns, bound)
    requires var w := Restarted(c, maxBytes, earlier, watermark, size, turns).writer;
             FilesFit(c, w.files) && CrashFiles(c, before, FirstNew(earlier), w, dir)
    ensures var w := Restarted(c, maxBytes, earlier, watermark, size, turns).writer;
            w.handle in w.files && Decodes(c, dir, w.files[w.handle := w.files[w.handle] + extra])
  {
    hide Lawful, Honest, Opened, Run, FilesFit, CrashFiles, Reads, FirstNew, Bounded, Asks;
    var start := Reopening(earlier, watermark, size);
    OpenedHonest(earlier, watermark, size);
    RunFrozen(c, maxBytes, start, turns, earlier, FirstNew(earlier));
    extra := CrashDecodes(c, before, earlier, FirstNew(earlier), Run(c, maxBytes, start, turns).writer, dir);
  }

  lemma HeldRecovered(w: Writer, extra: seq<LogEntry>, n: nat, torn: bool, next: nat, e: LogEntry, p: DataPoint)
    requires w.handle in w.files && Holds(w, e) && e.seqno > next && p in e.points
    ensures p in Report(Entries(w.files[w.handle := w.files[w.handle] + extra]), n, torn, next).points
  {
    hide Entries, Above, PointsOf, Highest;
    var files := w.files[w.handle := w.files[w.handle] + extra];
    var k :| k in w.files && e in w.files[k];
    assert e in files[k];
    EntriesFrom(files, e);
    AboveHas(Entries(files), next, e);
    PointsHave(Above(Entries(files), next), e, p);
  }
}
