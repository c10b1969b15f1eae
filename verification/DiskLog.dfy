/** One shard's log on disk, byte by byte: each operation of the segment writer is a step of the durability protocol. */
module DiskLog {
  import opened Types
  import P = Durability
  import F = WalFrames
  import W = WalSegments
  import R = WalRestart
  import B = WalDirectory

  // ----- The log as entries -----

  function Logged(e: P.Entry): F.LogEntry {
    F.LogEntry(e.seqno, e.points)
  }

  function LoggedAll(log: seq<P.Entry>): (es: seq<F.LogEntry>)
    ensures |es| == |log| && forall i :: 0 <= i < |log| ==> es[i] == Logged(log[i])
  {
    seq(|log|, i requires 0 <= i < |log| => Logged(log[i]))
  }

  function Kept(es: seq<F.LogEntry>, gone: set<nat>): (kept: seq<F.LogEntry>)
    ensures forall e :: e in kept ==> e in es
  {
    if es == [] then []
    else if es[0].seqno in gone then Kept(es[1..], gone)
    else [es[0]] + Kept(es[1..], gone)
  }

  lemma {:induction false} KeptConcat(a: seq<F.LogEntry>, b: seq<F.LogEntry>, gone: set<nat>)
    ensures Kept(a + b, gone) == Kept(a, gone) + Kept(b, gone)
  {
    if a == [] {
      assert a + b == b;
    } else {
      assert (a + b)[1..] == a[1..] + b;
      KeptConcat(a[1..], b, gone);
    }
  }

  lemma {:induction false} KeptAll(es: seq<F.LogEntry>, gone: set<nat>)
    requires forall i :: 0 <= i < |es| ==> es[i].seqno !in gone
    ensures Kept(es, gone) == es
  {
    if es != [] {
      assert es == [es[0]] + es[1..];
      KeptAll(es[1..], gone);
    }
  }

  lemma {:induction false} KeptNone(es: seq<F.LogEntry>, gone: set<nat>)
    requires forall i :: 0 <= i < |es| ==> es[i].seqno in gone
    ensures Kept(es, gone) == []
  {
    if es != [] {
      KeptNone(es[1..], gone);
    }
  }

  lemma {:induction false} WithoutLogged(log: seq<P.Entry>, gone: set<nat>)
    ensures LoggedAll(P.Without(log, gone)) == Kept(LoggedAll(log), gone)
  {
    if log != [] {
      WithoutLogged(log[1..], gone);
      assert LoggedAll(log)[1..] == LoggedAll(log[1..]);
    }
  }

  /** The segments that are left, by whether the highest one is. */
  lemma MinusHighest(files: W.Files, dead: set<nat>)
    requires files != map[]
    ensures var m := R.HighestSegment(files);
      var rest := files - {m};
      && |rest| < |files| && rest.Keys <= files.Keys && (forall n :: n in rest ==> n < m && rest[n] == files[n])
      && files - dead == if m in dead then rest - dead else (rest - dead)[m := files[m]]
  {
    var m := R.HighestSegment(files);
    assert (files - {m}).Keys == files.Keys - {m};
  }

  /** Deleting whole segments keeps the rest of the log in order. */
  lemma {:induction false} EntriesKept(files: W.Files, dead: set<nat>, gone: set<nat>)
    requires forall n, i :: n in files && 0 <= i < |files[n]| ==> (files[n][i].seqno in gone <==> n in dead)
    ensures R.Entries(files - dead) == Kept(R.Entries(files), gone)
    decreases |files|
  {
    if files == map[] {
      assert files - dead == map[];
    } else {
      MinusHighest(files, dead);
      EntriesKept(files - {R.HighestSegment(files)}, dead, gone);
      HighestKept(files, dead, gone);
    }
  }

  lemma HighestKept(files: W.Files, dead: set<nat>, gone: set<nat>)
    requires files != map[] && forall n, i :: n in files && 0 <= i < |files[n]| ==> (files[n][i].seqno in gone <==> n in dead)
    requires var rest := files - {R.HighestSegment(files)}; R.Entries(rest - dead) == Kept(R.Entries(rest), gone)
    ensures R.Entries(files - dead) == Kept(R.Entries(files), gone)
  {
    hide R.Entries, Kept;
    var m := R.HighestSegment(files);
    var rest := files - {m};
    MinusHighest(files, dead);
    R.EntriesWithout(files);
    KeptConcat(R.Entries(rest), files[m], gone);
    if m in dead {
      KeptNone(files[m], gone);
      assert Kept(R.Entries(rest), gone) + [] == Kept(R.Entries(rest), gone);
    } else {
      KeptAll(files[m], gone);
      R.EntriesNew(rest - dead, m, files[m]);
    }
  }

  ghost predicate Ascending(es: seq<F.LogEntry>) {
    forall i, j :: 0 <= i < j < |es| ==> es[i].seqno < es[j].seqno
  }

  /** In an ascending log no sequence is in two segments. */
  lemma {:induction false} SegmentsApart(files: W.Files, n: nat, m: nat, i: nat, j: nat)
    requires Ascending(R.Entries(files)) && n in files && m in files && n < m && i < |files[n]| && j < |files[m]|
    ensures files[n][i].seqno < files[m][j].seqno
    decreases |files|
  {
    var h := R.HighestSegment(files);
    var rest := files - {h};
    assert |rest| < |files| by {
      assert rest.Keys == files.Keys - {h};
    }
    R.EntriesWithout(files);
    var es, front := R.Entries(files), R.Entries(rest);
    assert m <= h;
    if m == h {
      B.EntriesFrom(rest, files[n][i]);
      assert n in rest && files[n][i] in rest[n];
      var a :| 0 <= a < |front| && front[a] == files[n][i];
      assert es[a] == files[n][i] && es[|front| + j] == files[m][j];
    } else {
      assert forall a :: 0 <= a < |front| ==> front[a] == es[a];
      SegmentsApart(rest, n, m, i, j);
    }
  }

  // ----- One shard's log -----

  /** The segment writer of a shard and the bytes of its segment files. */
  datatype Log = Log(writer: W.Writer, dir: B.Directory)

  function FileOf(log: Log, n: nat): seq<byte> {
    if n in log.dir then log.dir[n] else []
  }

  /** The writer after a group commit that succeeded. */
  function Committed(c: F.Codec, w: W.Writer, batches: seq<seq<DataPoint>>): W.Writer {
    W.Wrote(c, w.(currentSeq := w.currentSeq + |batches|), W.Numbered(w.currentSeq, batches))
  }

  /** A group commit: the frames of the batches are appended to the open file. */
  function CommitLog(c: F.Codec, log: Log, batches: seq<seq<DataPoint>>): Log {
    var w := log.writer;
    Log(Committed(c, w, batches), log.dir[w.handle := FileOf(log, w.handle) + F.Frames(c, W.Numbered(w.currentSeq, batches))])
  }

  /** A failed write that left nothing in the file has used up its sequences. */
  function FailLog(log: Log, count: nat): Log {
    log.(writer := log.writer.(currentSeq := log.writer.currentSeq + count))
  }

  function RotateLog(log: Log): Log {
    var next := log.writer.currentSegment + 1;
    Log(W.Rotated(log.writer, true), log.dir[next := FileOf(log, next)])
  }

  function Dead(w: W.Writer, bound: nat): set<nat> {
    set n | n in W.Expired(w.completed, bound)
  }

  function DrainLog(log: Log, bound: nat): Log {
    Log(W.Drained(log.writer, bound), log.dir - Dead(log.writer, bound))
  }

  /** The sequences in the segments a drain deletes. */
  ghost function Gone(w: W.Writer, bound: nat): set<nat> {
    set n, e | n in w.files && n in Dead(w, bound) && e in w.files[n] :: e.seqno
  }

  /** Every file is the frames of its entries, complete. */
  ghost predicate BytesOk(c: F.Codec, log: Log) {
    && log.dir.Keys == log.writer.files.Keys
    && B.FilesFit(c, log.writer.files)
    && forall n :: n in log.dir ==> log.dir[n] == F.Frames(c, log.writer.files[n])
  }

  /** The files hold the protocol's log of the shard, in its order. */
  ghost predicate LogOk(c: F.Codec, h: P.Shard, log: Log) {
    && W.WriterOk(log.writer)
    && log.writer.currentSeq == h.current
    && R.Entries(log.writer.files) == LoggedAll(h.wal)
    && Ascending(LoggedAll(h.wal))
    && BytesOk(c, log)
  }

  lemma OpenIsHighest(w: W.Writer)
    requires W.WriterOk(w)
    ensures w.files != map[] && w.handle in w.files && R.HighestSegment(w.files) == w.handle
  {
  }

  /** Entries written to the open file come last. */
  lemma EntriesWrote(files: W.Files, m: nat, es: seq<F.LogEntry>)
    requires files != map[] && R.HighestSegment(files) == m
    ensures R.Entries(files[m := files[m] + es]) == R.Entries(files) + es
  {
    hide R.Entries;
    R.EntriesWithout(files);
    R.EntriesNew(files - {m}, m, files[m] + es);
    assert files[m := files[m] + es] == (files - {m})[m := files[m] + es];
    assert R.Entries(files - {m}) + (files[m] + es) == R.Entries(files - {m}) + files[m] + es;
  }

  lemma BelowCurrent(w: W.Writer)
    requires W.WriterOk(w)
    ensures forall e :: e in R.Entries(w.files) ==> e.seqno <= w.currentSeq
  {
    hide R.Entries;
    forall e | e in R.Entries(w.files) ensures e.seqno <= w.currentSeq {
      B.EntriesFrom(w.files, e);
    }
  }

  lemma AscendingAppend(a: seq<F.LogEntry>, current: nat, batches: seq<seq<DataPoint>>)
    requires Ascending(a) && forall e :: e in a ==> e.seqno <= current
    ensures Ascending(a + W.Numbered(current, batches))
  {
    var es := W.Numbered(current, batches);
    forall i, j | 0 <= i < j < |a + es| ensures (a + es)[i].seqno < (a + es)[j].seqno {
      if i < |a| {
        assert a[i] in a;
      }
    }
  }

  lemma CommittedOk(c: F.Codec, w: W.Writer, batches: seq<seq<DataPoint>>)
    requires W.WriterOk(w)
    ensures W.WriterOk(Committed(c, w, batches)) && Committed(c, w, batches).currentSeq == w.currentSeq + |batches|
  {
    hide W.TagBounds, W.Numbers, W.SortedTags, W.Tagged;
    W.NumbersGrow(w, |batches|);
    W.WroteOk(c, w.(currentSeq := w.currentSeq + |batches|), W.Numbered(w.currentSeq, batches));
  }

  lemma CommitBytes(c: F.Codec, log: Log, batches: seq<seq<DataPoint>>)
    requires BytesOk(c, log) && log.writer.handle in log.writer.files && F.AllFit(c, W.Numbered(log.writer.currentSeq, batches))
    ensures BytesOk(c, CommitLog(c, log, batches))
  {
    hide F.Frames, W.Numbered;
    var w := log.writer;
    F.FramesConcat(c, w.files[w.handle], W.Numbered(w.currentSeq, batches));
  }

  /** A group commit on disk is the protocol's sync. */
  lemma SyncRefines(c: F.Codec, h: P.Shard, log: Log, i: nat, batches: seq<seq<DataPoint>>)
    requires LogOk(c, h, log) && P.Ready(h, P.Sync(i, batches)) && F.AllFit(c, W.Numbered(h.current, batches))
    ensures LogOk(c, P.AfterShard(h, P.Sync(i, batches)), CommitLog(c, log, batches))
  {
    hide W.WriterOk, BytesOk, F.AllFit, F.Frames, R.Entries, Ascending;
    var w, es := log.writer, W.Numbered(h.current, batches);
    OpenIsHighest(w);
    CommittedOk(c, w, batches);
    CommitBytes(c, log, batches);
    EntriesWrote(w.files, w.handle, es);
    BelowCurrent(w);
    AscendingAppend(LoggedAll(h.wal), h.current, batches);
    assert LoggedAll(h.wal + P.Numbered(i, h.current, batches)) == LoggedAll(h.wal) + es;
  }

  /** A failed commit that left the file as it was is the protocol's failed sync. */
  lemma FailRefines(c: F.Codec, h: P.Shard, log: Log, i: nat, count: nat)
    requires LogOk(c, h, log) && P.Ready(h, P.FailSync(i, count))
    ensures LogOk(c, P.AfterShard(h, P.FailSync(i, count)), FailLog(log, count))
  {
    hide W.WriterOk, R.Entries, Ascending;
    W.NumbersGrow(log.writer, count);
  }

  lemma NextIsNew(w: W.Writer)
    requires W.WriterOk(w)
    ensures w.currentSegment + 1 !in w.files && forall n :: n in w.files ==> n < w.currentSegment + 1
  {
  }

  lemma RotateBytes(c: F.Codec, log: Log)
    requires BytesOk(c, log) && log.writer.currentSegment + 1 !in log.writer.files
    ensures BytesOk(c, RotateLog(log))
  {
    assert F.Frames(c, []) == [];
  }

  /** A rotation that succeeds leaves the log as it is. */
  lemma RotateRefines(c: F.Codec, h: P.Shard, log: Log)
    requires LogOk(c, h, log)
    ensures LogOk(c, h, RotateLog(log))
  {
    hide W.WriterOk, BytesOk, R.Entries, Ascending;
    var w := log.writer;
    NextIsNew(w);
    W.RotateKeeps(w);
    RotateBytes(c, log);
    R.EntriesNew(w.files, w.currentSegment + 1, []);
    assert R.Entries(w.files) + [] == R.Entries(w.files);
  }

  /** The deleted sequences are those of the deleted segments. */
  lemma GoneExact(w: W.Writer, bound: nat)
    requires Ascending(R.Entries(w.files))
    ensures forall n, i :: n in w.files && 0 <= i < |w.files[n]| ==> (w.files[n][i].seqno in Gone(w, bound) <==> n in Dead(w, bound))
  {
    hide R.Entries, Ascending, Dead;
    forall n, i | n in w.files && 0 <= i < |w.files[n]| ensures w.files[n][i].seqno in Gone(w, bound) <==> n in Dead(w, bound) {
      assert w.files[n][i] in w.files[n];
      if w.files[n][i].seqno in Gone(w, bound) {
        var m, e :| m in w.files && m in Dead(w, bound) && e in w.files[m] && e.seqno == w.files[n][i].seqno;
        var j :| 0 <= j < |w.files[m]| && w.files[m][j] == e;
        if n < m {
          SegmentsApart(w.files, n, m, i, j);
        } else if m < n {
          SegmentsApart(w.files, m, n, j, i);
        }
      }
    }
  }

  lemma GoneBounded(w: W.Writer, bound: nat)
    requires W.WriterOk(w)
    ensures forall q :: q in Gone(w, bound) ==> q <= bound
  {
    forall q | q in Gone(w, bound) ensures q <= bound {
      var n, e :| n in w.files && n in Dead(w, bound) && e in w.files[n] && e.seqno == q;
      W.ExpiredIs(w.completed, bound, n);
      var i :| 0 <= i < |w.completed| && w.completed[i].segment == n && w.completed[i].maxSeq <= bound;
      assert W.TagBounds(w, w.completed[i]);
    }
  }

  lemma {:induction false} KeptAscending(es: seq<F.LogEntry>, gone: set<nat>)
    requires Ascending(es)
    ensures Ascending(Kept(es, gone))
  {
    if es != [] {
      KeptAscending(es[1..], gone);
      var rest := Kept(es[1..], gone);
      forall j | 0 <= j < |rest| ensures es[0].seqno < rest[j].seqno {
        assert rest[j] in es[1..];
      }
    }
  }

  lemma DrainBytes(c: F.Codec, log: Log, bound: nat)
    requires BytesOk(c, log)
    ensures BytesOk(c, DrainLog(log, bound))
  {
    hide W.Expired, W.Retained;
  }

  /** Deleting the segments behind the bound is the protocol's deletion, and within the bound the protocol demands. */
  lemma DrainRefines(c: F.Codec, h: P.Shard, log: Log, i: nat)
    requires LogOk(c, h, log) && h.flush.Collecting?
    ensures var step := P.DeleteSegments(i, Gone(log.writer, h.flush.bound));
      P.Ready(h, step) && LogOk(c, P.AfterShard(h, step), DrainLog(log, h.flush.bound))
  {
    hide W.WriterOk, R.Entries, Ascending, BytesOk, Gone, Dead, W.Expired, W.Retained;
    var w, bound := log.writer, h.flush.bound;
    var gone := Gone(w, bound);
    var k := W.DrainConserves(w, bound);
    GoneBounded(w, bound);
    GoneExact(w, bound);
    EntriesKept(w.files, Dead(w, bound), gone);
    DeadFiles(w, bound);
    WithoutLogged(h.wal, gone);
    KeptAscending(LoggedAll(h.wal), gone);
    DrainBytes(c, log, bound);
  }

  lemma DeadFiles(w: W.Writer, bound: nat)
    ensures W.Drained(w, bound).files == w.files - Dead(w, bound)
    ensures W.Drained(w, bound).currentSeq == w.currentSeq
  {
  }
}
