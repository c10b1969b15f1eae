/** Reopening a shard's log after a crash: segment order, what recovery deletes, and how numbering resumes. */
module WalRestart {
  import opened Types
  import opened WalFrames
  import opened WalSegments
  import SeriesKeys

  // ----- Segment names -----

  function Pow10(w: nat): (p: nat)
    ensures p > 0
  {
    if w == 0 then 1 else 10 * Pow10(w - 1)
  }

  /** `n` in decimal, padded with zeros to `w` digits. */
  function Padded(n: nat, w: nat): (ds: Text)
    ensures |ds| == w
  {
    if w == 0 then [] else Padded(n / 10, w - 1) + [48 + n % 10]
  }

  const SUFFIX: Text := [46, 119, 97, 108]

  /** The file name of a segment: 20 digits and `.wal`. */
  function SegmentName(n: nat): Text {
    Padded(n, 20) + SUFFIX
  }

  lemma {:induction false} LexSnoc(a: Text, b: Text, x: Text, y: Text)
    requires |a| == |b|
    ensures SeriesKeys.LexLeq(a + x, b + y) <==> (if a == b then SeriesKeys.LexLeq(x, y) else SeriesKeys.LexLeq(a, b))
  {
    if a == [] {
      assert a + x == x && b + y == y;
    } else {
      assert (a + x)[1..] == a[1..] + x && (b + y)[1..] == b[1..] + y;
      assert a == [a[0]] + a[1..] && b == [b[0]] + b[1..];
      LexSnoc(a[1..], b[1..], x, y);
    }
  }

  lemma {:induction false} PaddedOrder(n: nat, m: nat, w: nat)
    requires n < Pow10(w) && m < Pow10(w)
    ensures SeriesKeys.LexLeq(Padded(n, w), Padded(m, w)) <==> n <= m
    ensures Padded(n, w) == Padded(m, w) ==> n == m
    decreases w
  {
    if w > 0 {
      PaddedOrder(n / 10, m / 10, w - 1);
      PaddedOrder(m / 10, n / 10, w - 1);
      LexSnoc(Padded(n / 10, w - 1), Padded(m / 10, w - 1), [48 + n % 10], [48 + m % 10]);
      assert Padded(n, w)[w - 1] == 48 + n % 10 && Padded(m, w)[w - 1] == 48 + m % 10;
      assert Padded(n, w)[..w - 1] == Padded(n / 10, w - 1) && Padded(m, w)[..w - 1] == Padded(m / 10, w - 1);
    }
  }

  lemma TwentyDigits()
    ensures Pow10(20) == 100_000_000_000_000_000_000
  {
    assert Pow10(5) == 100_000;
    assert Pow10(10) == 100_000 * Pow10(5);
    assert Pow10(15) == 100_000 * Pow10(10);
    assert Pow10(20) == 100_000 * Pow10(15);
  }

  /** Sorting segment files by name sorts them by number. */
  lemma NamesSortLikeNumbers(n: u64, m: u64)
    ensures SeriesKeys.LexLeq(SegmentName(n), SegmentName(m)) <==> n <= m
  {
    TwentyDigits();
    PaddedOrder(n, m, 20);
    LexSnoc(Padded(n, 20), Padded(m, 20), SUFFIX, SUFFIX);
    SeriesKeys.LexTotal(SUFFIX, SUFFIX);
  }

  /** The number a run of decimal digits stands for. */
  function Decimal(ds: Text): nat {
    if ds == [] then 0 else 10 * Decimal(ds[..|ds| - 1]) + (if 48 <= ds[|ds| - 1] < 58 then ds[|ds| - 1] - 48 else 0)
  }

  lemma {:induction false} PaddedDecimal(n: nat, w: nat)
    requires n < Pow10(w)
    ensures Decimal(Padded(n, w)) == n && forall i :: 0 <= i < w ==> 48 <= Padded(n, w)[i] < 58
  {
    if w > 0 {
      PaddedDecimal(n / 10, w - 1);
      assert Padded(n, w)[..w - 1] == Padded(n / 10, w - 1);
    }
  }

  /** A segment file is called by twenty digits and `.wal`, and its number can be read back from them. */
  lemma NameReadsBack(n: u64)
    ensures var name := SegmentName(n);
      && |name| == 24 && name[20..] == [46, 119, 97, 108]
      && (forall i :: 0 <= i < 20 ==> 48 <= name[i] < 58) && Decimal(name[..20]) == n
  {
    hide Padded, Decimal;
    TwentyDigits();
    PaddedDecimal(n, 20);
    assert SegmentName(n)[..20] == Padded(n, 20);
  }

  // ----- Opening a shard -----

  predicate IsHighest(s: set<nat>, m: nat) {
    m in s && forall x :: x in s ==> x <= m
  }

  lemma {:induction false} HighestExists(s: set<nat>)
    requires s != {}
    ensures exists m :: IsHighest(s, m)
  {
    var x :| x in s;
    if s == {x} {
      assert IsHighest(s, x);
    } else {
      HighestExists(s - {x});
      var m :| IsHighest(s - {x}, m);
      assert s == (s - {x}) + {x};
      if x < m {
        assert IsHighest(s, m);
      } else {
        assert IsHighest(s, x);
      }
    }
  }

  function HighestSegment<T>(files: map<nat, T>): (m: nat)
    requires files != map[]
    ensures IsHighest(files.Keys, m)
  {
    assert files.Keys != {} by {
      var n :| n in files;
    }
    HighestExists(files.Keys);
    assert forall m, m' :: IsHighest(files.Keys, m) && IsHighest(files.Keys, m') ==> m == m';
    var m :| IsHighest(files.Keys, m);
    m
  }

  /** The entries recovery reads from a directory, in segment order. */
  function Entries(files: Files): seq<LogEntry>
    decreases |files|
  {
    if files == map[] then []
    else
      var m := HighestSegment(files);
      var rest := files - {m};
      assert |rest| < |files| by {
        assert rest.Keys == files.Keys - {m};
      }
      Entries(rest) + files[m]
  }

  /** The writer resumes the highest segment, or starts with segment 1. */
  function Reopened(files: Files, resume: nat, size: nat): Writer {
    Resumed(files, if files == map[] then 1 else HighestSegment(files), resume, size)
  }

  /** Points above the watermark were replayed into a recovery chunk. */
  function Recoverable(files: Files, watermark: nat): bool {
    PointsOf(Above(Entries(files), watermark)) != []
  }

  /** Reopening, rotation past the replayed segments, and deletion, as the server does on start. */
  function Opened(files: Files, watermark: nat, size: nat): Writer {
    var last := Highest(Above(Entries(files), watermark));
    var w := Reopened(files, last, size);
    Drained(if files == map[] then w else Rotated(w, true), if Recoverable(files, watermark) then last else watermark)
  }

  method OpenShard(codec: Codec, maxBytes: nat, files: Files, watermark: nat, size: nat) returns (w: WalWriter)
    ensures fresh(w) && w.View() == Opened(files, watermark, size)
  {
    var above := Above(Entries(files), watermark);
    var last := Highest(above);
    w := new WalWriter.Resume(codec, maxBytes, files, if files == map[] then 1 else HighestSegment(files), last, size);
    if files != map[] {
      w.Rotate(true);
    }
    var threshold := if PointsOf(above) != [] then last else watermark;
    var deleted := w.DrainCompletedBefore(threshold);
  }

  // ----- What survives a second crash -----

  lemma EntriesWithout(files: Files)
    requires files != map[]
    ensures Entries(files) == Entries(files - {HighestSegment(files)}) + files[HighestSegment(files)]
  {
  }

  /** A new highest segment is read last. */
  lemma EntriesNew(files: Files, n: nat, es: seq<LogEntry>)
    requires forall m :: m in files ==> m < n
    ensures Entries(files[n := es]) == Entries(files) + es
  {
    var more := files[n := es];
    assert n in more;
    assert HighestSegment(more) == n by {
      assert IsHighest(more.Keys, n);
    }
    assert more - {n} == files;
  }

  lemma ExpiredOnOpen(n: nat, last: nat, threshold: nat, k: nat)
    requires threshold < U64_MAX
    ensures k in Expired(Older(n) + [Tag(n, last)], threshold) <==> k == n && last <= threshold
  {
    var tags := Older(n) + [Tag(n, last)];
    ExpiredIs(tags, threshold, k);
    assert tags[|tags| - 1] == Tag(n, last);
  }

  /** The deleted files when segment `n` is rotated out with tag `last` and drained at `threshold`. */
  lemma RotatedAndDrained(files: Files, n: nat, last: nat, threshold: nat, size: nat)
    requires n in files && n + 1 !in files && threshold < U64_MAX
    ensures var w := Drained(Rotated(Resumed(files, n, last, size), true), threshold);
      && w.currentSegment == w.handle == n + 1 && w.currentSeq == last
      && w.files == (if last <= threshold then files - {n} else files)[n + 1 := []]
  {
    var w := Rotated(Resumed(files, n, last, size), true);
    assert files[n := files[n]] == files;
    assert w.completed == Older(n) + [Tag(n, last)] && w.files == files[n + 1 := []];
    forall k ensures k in Expired(w.completed, threshold) <==> k == n && last <= threshold {
      ExpiredOnOpen(n, last, threshold, k);
    }
  }

  /** Deletion on start removes exactly the highest segment: earlier ones carry the maximal tag. */
  lemma OpenDeletesHighest(files: Files, watermark: nat, size: nat)
    requires files != map[]
    requires watermark < U64_MAX && Highest(Above(Entries(files), watermark)) < U64_MAX
    ensures var n, w, above := HighestSegment(files), Opened(files, watermark, size), Above(Entries(files), watermark);
      && w.currentSegment == w.handle == n + 1
      && w.currentSeq == Highest(above)
      && w.files == (if PointsOf(above) == [] && above != [] then files else files - {n})[n + 1 := []]
  {
    var above := Above(Entries(files), watermark);
    AboveIsAbove(Entries(files), watermark);
    RotatedAndDrained(files, HighestSegment(files), Highest(above),
                      if Recoverable(files, watermark) then Highest(above) else watermark, size);
  }

  lemma {:induction false} AboveIsAbove(es: seq<LogEntry>, watermark: nat)
    ensures forall e :: e in Above(es, watermark) ==> e in es && e.seqno > watermark
    ensures Above(es, watermark) != [] ==> Highest(Above(es, watermark)) > watermark
  {
    if es != [] {
      AboveIsAbove(es[1..], watermark);
    }
  }

  /**
    A second crash before any snapshot replays the same entries exactly when the deleted segment
    held none above the watermark: the recovery chunk is not yet named by the snapshot on disk.
  */
  lemma SecondCrashExact(files: Files, watermark: nat, size: nat)
    requires files != map[]
    requires watermark < U64_MAX && Highest(Above(Entries(files), watermark)) < U64_MAX
    requires Recoverable(files, watermark)
    ensures Above(Entries(Opened(files, watermark, size).files), watermark) == Above(Entries(files), watermark)
            <==> Above(files[HighestSegment(files)], watermark) == []
  {
    var n := HighestSegment(files);
    OpenDeletesHighest(files, watermark, size);
    ReplayWithout(files, n, watermark);
  }

  lemma ReplayWithout(files: Files, n: nat, watermark: nat)
    requires files != map[] && n == HighestSegment(files)
    ensures Above(Entries((files - {n})[n + 1 := []]), watermark) == Above(Entries(files), watermark)
            <==> Above(files[n], watermark) == []
  {
    var left := files - {n};
    EntriesNew(left, n + 1, []);
    assert Entries(left) + [] == Entries(left);
    EntriesWithout(files);
    AboveConcat(Entries(left), files[n], watermark);
  }

  /** The first batch after a restart is numbered above the watermark exactly when something was replayed or nothing was covered. */
  lemma ResumedNumberExact(files: Files, watermark: nat, size: nat)
    requires files != map[]
    requires watermark < U64_MAX && Highest(Above(Entries(files), watermark)) < U64_MAX
    ensures Opened(files, watermark, size).currentSeq + 1 > watermark <==>
            Above(Entries(files), watermark) != [] || watermark == 0
  {
    OpenDeletesHighest(files, watermark, size);
    AboveIsAbove(Entries(files), watermark);
  }
}
