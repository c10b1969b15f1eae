/** The write-ahead log on disk: frames, segments, and recovery from a truncated tail. */
module WalFrames {
  import opened Types
  import opened Bytes

  /** One batch of points with its sequence number. */
  datatype LogEntry = LogEntry(seqno: nat, points: seq<DataPoint>)

  /** Payload serialisation and checksum. */
  datatype Codec = Codec(encode: LogEntry -> seq<byte>, decode: seq<byte> -> Option<LogEntry>, crc: seq<byte> -> u32)

  ghost predicate Lawful(c: Codec) {
    forall e :: c.decode(c.encode(e)) == Some(e)
  }

  const HEADER: nat := 8

  /** `[length: u32][crc32: u32][payload]`; the length is truncated to 32 bits. */
  function Frame(c: Codec, e: LogEntry): (bs: seq<byte>)
    ensures |bs| == HEADER + |c.encode(e)|
  {
    var payload := c.encode(e);
    U32(|payload|) + U32(c.crc(payload)) + payload
  }

  /** The length field can hold the payload length. */
  predicate Fits(c: Codec, e: LogEntry) {
    |c.encode(e)| < 0x1_0000_0000
  }

  function Frames(c: Codec, es: seq<LogEntry>): seq<byte> {
    if es == [] then [] else Frame(c, es[0]) + Frames(c, es[1..])
  }

  /** What reading one segment yields; a frame with a good checksum that does not decode is an error. */
  datatype Scan = Scan(entries: seq<LogEntry>, torn: bool) | BadPayload

  function ScanSegment(c: Codec, buf: seq<byte>): Scan
    decreases |buf|
  {
    if |buf| < HEADER then Scan([], false)
    else
      var len := FromLittleEndian(buf[..4]);
      if HEADER + len > |buf| then Scan([], true)
      else
        var payload := buf[HEADER..HEADER + len];
        if FromLittleEndian(buf[4..8]) != c.crc(payload) then Scan([], true)
        else
          match c.decode(payload)
          case None => BadPayload
          case Some(e) =>
            match ScanSegment(c, buf[HEADER + len..])
            case BadPayload => BadPayload
            case Scan(es, torn) => Scan([e] + es, torn)
  }

  lemma {:induction false} FramesConcat(c: Codec, a: seq<LogEntry>, b: seq<LogEntry>)
    ensures Frames(c, a + b) == Frames(c, a) + Frames(c, b)
  {
    hide Frame;
    if a == [] {
      assert a + b == b;
    } else {
      assert (a + b)[1..] == a[1..] + b;
      FramesConcat(c, a[1..], b);
      Assoc(Frame(c, a[0]), Frames(c, a[1..]), Frames(c, b));
    }
  }

  // ----- Recovery -----

  datatype Recovery = Recovery(
    points: seq<DataPoint>,
    lastSequence: nat,
    segmentsReplayed: nat,
    entriesReplayed: nat,
    torn: bool)

  function EmptyRecovery(): Recovery {
    Recovery([], 0, 0, 0, false)
  }

  function Max(a: nat, b: nat): nat {
    if a < b then b else a
  }

  /** One decoded entry: skipped at or below the watermark, collected above it. */
  function Collect(r: Recovery, e: LogEntry, watermark: nat): Recovery {
    if e.seqno <= watermark then r
    else r.(points := r.points + e.points,
            lastSequence := Max(r.lastSequence, e.seqno),
            entriesReplayed := r.entriesReplayed + 1)
  }

  function CollectAll(r: Recovery, es: seq<LogEntry>, watermark: nat): Recovery
    decreases |es|
  {
    if es == [] then r else CollectAll(Collect(r, es[0], watermark), es[1..], watermark)
  }

  function RecoverSegment(c: Codec, r: Recovery, buf: seq<byte>, watermark: nat): Option<Recovery> {
    match ScanSegment(c, buf)
    case BadPayload => None
    case Scan(es, torn) =>
      var r' := CollectAll(r, es, watermark);
      Some(r'.(torn := r'.torn || torn))
  }

  function RecoverFrom(c: Codec, r: Recovery, segments: seq<seq<byte>>, watermark: nat): Option<Recovery>
    decreases |segments|
  {
    if segments == [] then Some(r)
    else
      match RecoverSegment(c, r, segments[0], watermark)
      case None => None
      case Some(r') => RecoverFrom(c, r'.(segmentsReplayed := r'.segmentsReplayed + 1), segments[1..], watermark)
  }

  lemma RecoverSegmentStep(c: Codec, r: Recovery, buf: seq<byte>, watermark: nat, e: LogEntry, len: nat)
    requires |buf| >= HEADER && len == FromLittleEndian(buf[..4]) && HEADER + len <= |buf|
    requires FromLittleEndian(buf[4..8]) == c.crc(buf[HEADER..HEADER + len])
    requires c.decode(buf[HEADER..HEADER + len]) == Some(e)
    ensures RecoverSegment(c, r, buf, watermark) == RecoverSegment(c, Collect(r, e, watermark), buf[HEADER + len..], watermark)
  {
    match ScanSegment(c, buf[HEADER + len..]) {
      case BadPayload =>
      case Scan(es, torn) =>
        assert ([e] + es)[1..] == es;
    }
  }

  /** Replays one segment with a cursor over its buffer. */
  method RecoverBuffer(c: Codec, before: Recovery, buf: seq<byte>, watermark: nat) returns (result: Option<Recovery>)
    ensures result == RecoverSegment(c, before, buf, watermark)
  {
    var r, cursor := before, 0;
    assert buf[0..] == buf;
    while cursor + HEADER <= |buf|
      invariant 0 <= cursor <= |buf|
      invariant RecoverSegment(c, before, buf, watermark) == RecoverSegment(c, r, buf[cursor..], watermark)
    {
      ghost var rest := buf[cursor..];
      var len := FromLittleEndian(buf[cursor..cursor + 4]);
      assert rest[..4] == buf[cursor..cursor + 4];
      if cursor + len + HEADER > |buf| {
        return Some(r.(torn := true));
      }
      var stored := FromLittleEndian(buf[cursor + 4..cursor + 8]);
      assert rest[4..8] == buf[cursor + 4..cursor + 8];
      cursor := cursor + HEADER;
      var payload := buf[cursor..cursor + len];
      assert rest[HEADER..HEADER + len] == payload;
      cursor := cursor + len;
      assert rest[HEADER + len..] == buf[cursor..];
      if stored != c.crc(payload) {
        return Some(r.(torn := true));
      }
      match c.decode(payload) {
        case None =>
          return None;
        case Some(e) =>
          RecoverSegmentStep(c, r, rest, watermark, e, len);
          r := Collect(r, e, watermark);
      }
    }
    result := Some(r);
  }

  /** Replays all segments in order. */
  method Recover(c: Codec, segments: seq<seq<byte>>, watermark: nat) returns (result: Option<Recovery>)
    ensures result == RecoverFrom(c, EmptyRecovery(), segments, watermark)
  {
    var r := EmptyRecovery();
    for i := 0 to |segments|
      invariant RecoverFrom(c, EmptyRecovery(), segments, watermark) == RecoverFrom(c, r, segments[i..], watermark)
    {
      var one := RecoverBuffer(c, r, segments[i], watermark);
      if one.None? {
        return None;
      }
      r := one.value.(segmentsReplayed := one.value.segmentsReplayed + 1);
    }
    result := Some(r);
  }

  // ----- Truncated tails -----

  ghost predicate AllFit(c: Codec, es: seq<LogEntry>) {
    forall i :: 0 <= i < |es| ==> Fits(c, es[i])
  }

  /** Number of frames that lie completely within the first `k` bytes. */
  function Complete(c: Codec, es: seq<LogEntry>, k: nat): (n: nat)
    ensures n <= |es|
  {
    if es == [] || k < |Frame(c, es[0])| then 0 else 1 + Complete(c, es[1..], k - |Frame(c, es[0])|)
  }

  lemma {:induction false} CompleteIsMaximal(c: Codec, es: seq<LogEntry>, k: nat)
    ensures |Frames(c, es[..Complete(c, es, k)])| <= k
    ensures Complete(c, es, k) < |es| ==> k < |Frames(c, es[..Complete(c, es, k) + 1])|
  {
    if es != [] && |Frame(c, es[0])| <= k {
      var m := Complete(c, es[1..], k - |Frame(c, es[0])|);
      CompleteIsMaximal(c, es[1..], k - |Frame(c, es[0])|);
      assert es[..m + 1][1..] == es[1..][..m];
      if m < |es[1..]| {
        assert es[..m + 2][1..] == es[1..][..m + 1];
      }
    } else if es != [] {
      assert es[..1] == [es[0]];
      assert Frames(c, [es[0]]) == Frame(c, es[0]) + [];
    }
  }

  /** A complete frame at the front of a buffer is read back, and the scan goes on after it. */
  lemma ScanFrame(c: Codec, e: LogEntry, rest: seq<byte>)
    requires Lawful(c) && Fits(c, e)
    ensures ScanSegment(c, Frame(c, e) + rest) == Join(Scan([e], false), ScanSegment(c, rest))
  {
    var payload, buf := c.encode(e), Frame(c, e) + rest;
    U32RoundTrip(|payload|);
    U32RoundTrip(c.crc(payload));
    assert buf[..4] == U32(|payload|);
    assert buf[4..8] == U32(c.crc(payload));
    assert buf[HEADER..HEADER + |payload|] == payload;
    assert buf[HEADER + |payload|..] == rest;
  }

  /** A proper prefix of a frame ends the scan; it counts as torn once its header is complete. */
  lemma ScanPartial(c: Codec, e: LogEntry, m: nat, rest: seq<byte>)
    requires Fits(c, e) && m + |rest| < |Frame(c, e)| && (m < HEADER ==> rest == [])
    ensures ScanSegment(c, Frame(c, e)[..m] + rest) == Scan([], m >= HEADER)
  {
    var payload, buf := c.encode(e), Frame(c, e)[..m] + rest;
    if m >= HEADER {
      U32RoundTrip(|payload|);
      assert buf[..4] == U32(|payload|);
    }
  }

  lemma ScanTruncatedStep(c: Codec, es: seq<LogEntry>, k: nat)
    requires Lawful(c) && AllFit(c, es) && es != [] && |Frame(c, es[0])| <= k <= |Frames(c, es)|
    ensures var m := Complete(c, es[1..], k - |Frame(c, es[0])|);
      && ScanSegment(c, Frames(c, es)[..k]) ==
         Join(Scan([es[0]], false), ScanSegment(c, Frames(c, es[1..])[..k - |Frame(c, es[0])|]))
      && [es[0]] + es[1..][..m] == es[..m + 1]
      && Frames(c, es[..m + 1]) == Frame(c, es[0]) + Frames(c, es[1..][..m])
  {
    var f := Frame(c, es[0]);
    var m := Complete(c, es[1..], k - |f|);
    assert Frames(c, es)[..k] == f + Frames(c, es[1..])[..k - |f|];
    ScanFrame(c, es[0], Frames(c, es[1..])[..k - |f|]);
    assert es[..m + 1][1..] == es[1..][..m];
  }

  /** Reading any prefix of a written segment yields exactly its complete frames. */
  lemma {:induction false} ScanTruncated(c: Codec, es: seq<LogEntry>, k: nat)
    requires Lawful(c) && AllFit(c, es) && k <= |Frames(c, es)|
    ensures var n := Complete(c, es, k);
      |Frames(c, es[..n])| <= k && ScanSegment(c, Frames(c, es)[..k]) == Scan(es[..n], k - |Frames(c, es[..n])| >= HEADER)
    decreases |es|
  {
    hide Lawful, AllFit, ScanSegment, Frame, Frames, Complete;
    if es == [] || k < |Frame(c, es[0])| {
      ScanNone(c, es, k);
    } else {
      CompleteStep(c, es, k);
      ScanTruncated(c, es[1..], k - |Frame(c, es[0])|);
      ScanTruncatedStep(c, es, k);
    }
  }

  lemma CompleteStep(c: Codec, es: seq<LogEntry>, k: nat)
    requires AllFit(c, es) && es != [] && |Frame(c, es[0])| <= k
    ensures Complete(c, es, k) == Complete(c, es[1..], k - |Frame(c, es[0])|) + 1
    ensures AllFit(c, es[1..]) && |Frames(c, es)| == |Frame(c, es[0])| + |Frames(c, es[1..])|
  {
    hide Frame;
  }

  lemma ScanNone(c: Codec, es: seq<LogEntry>, k: nat)
    requires AllFit(c, es) && k <= |Frames(c, es)| && (es == [] || k < |Frame(c, es[0])|)
    ensures ScanSegment(c, Frames(c, es)[..k]) == Scan([], k >= HEADER) && Complete(c, es, k) == 0 && Frames(c, es[..0]) == []
  {
    if es != [] {
      assert Frames(c, es)[..k] == Frame(c, es[0])[..k] + [];
      ScanPartial(c, es[0], k, []);
    }
  }

  // ----- What recovery returns -----

  function Above(es: seq<LogEntry>, watermark: nat): seq<LogEntry> {
    if es == [] then []
    else if es[0].seqno <= watermark then Above(es[1..], watermark)
    else [es[0]] + Above(es[1..], watermark)
  }

  function PointsOf(es: seq<LogEntry>): seq<DataPoint> {
    if es == [] then [] else es[0].points + PointsOf(es[1..])
  }

  function Highest(es: seq<LogEntry>): (m: nat)
    ensures forall e :: e in es ==> e.seqno <= m
    ensures m == 0 || exists e :: e in es && e.seqno == m
  {
    if es == [] then 0
    else
      var m := Highest(es[1..]);
      if m < es[0].seqno then es[0].seqno else m
  }

  /** Collecting entries adds, in order, the points of those above the watermark. */
  function Collected(r: Recovery, es: seq<LogEntry>, watermark: nat): Recovery {
    var a := Above(es, watermark);
    r.(points := r.points + PointsOf(a),
       lastSequence := Max(r.lastSequence, Highest(a)),
       entriesReplayed := r.entriesReplayed + |a|)
  }

  lemma {:induction false} CollectAllIs(r: Recovery, es: seq<LogEntry>, watermark: nat)
    ensures CollectAll(r, es, watermark) == Collected(r, es, watermark)
    decreases |es|
  {
    if es == [] {
      assert r.points + PointsOf([]) == r.points;
    } else {
      CollectAllIs(Collect(r, es[0], watermark), es[1..], watermark);
      Assoc(r.points, es[0].points, PointsOf(Above(es[1..], watermark)));
    }
  }

  lemma {:induction false} AboveConcat(a: seq<LogEntry>, b: seq<LogEntry>, watermark: nat)
    ensures Above(a + b, watermark) == Above(a, watermark) + Above(b, watermark)
  {
    if a == [] {
      assert a + b == b;
    } else {
      assert (a + b)[1..] == a[1..] + b;
      AboveConcat(a[1..], b, watermark);
    }
  }

  lemma {:induction false} PointsConcat(a: seq<LogEntry>, b: seq<LogEntry>)
    ensures PointsOf(a + b) == PointsOf(a) + PointsOf(b)
    ensures Highest(a + b) == Max(Highest(a), Highest(b))
  {
    if a == [] {
      assert a + b == b;
    } else {
      assert (a + b)[1..] == a[1..] + b;
      PointsConcat(a[1..], b);
    }
  }

  lemma CollectedConcat(r: Recovery, a: seq<LogEntry>, b: seq<LogEntry>, watermark: nat)
    ensures Collected(Collected(r, a, watermark), b, watermark) == Collected(r, a + b, watermark)
  {
    var x, y := Above(a, watermark), Above(b, watermark);
    AboveConcat(a, b, watermark);
    PointsConcat(x, y);
    Assoc(r.points, PointsOf(x), PointsOf(y));
  }

  function Join(a: Scan, b: Scan): Scan {
    match (a, b)
    case (Scan(es, t), Scan(fs, u)) => Scan(es + fs, t || u)
    case _ => BadPayload
  }

  lemma JoinAssoc(a: Scan, b: Scan, c: Scan)
    ensures Join(Join(a, b), c) == Join(a, Join(b, c))
  {
    if a.Scan? && b.Scan? && c.Scan? {
      Assoc(a.entries, b.entries, c.entries);
    }
  }

  lemma JoinUnit(a: Scan)
    ensures Join(Scan([], false), a) == a == Join(a, Scan([], false))
  {
  }

  /** All entries of all segments in order, and whether any segment ended torn. */
  function ScanAll(c: Codec, segments: seq<seq<byte>>): Scan {
    if segments == [] then Scan([], false) else Join(ScanSegment(c, segments[0]), ScanAll(c, segments[1..]))
  }

  /** What `n` segments add to a recovery when reading them all yields `s`. */
  function Outcome(r: Recovery, s: Scan, n: nat, watermark: nat): Option<Recovery> {
    match s
    case BadPayload => None
    case Scan(es, torn) =>
      Some(Collected(r, es, watermark).(torn := r.torn || torn, segmentsReplayed := r.segmentsReplayed + n))
  }

  lemma OutcomeJoin(r: Recovery, a: Scan, b: Scan, n: nat, watermark: nat)
    requires a.Scan?
    ensures Outcome(Outcome(r, a, 1, watermark).value, b, n, watermark) == Outcome(r, Join(a, b), n + 1, watermark)
  {
    if b.Scan? {
      CollectedConcat(r, a.entries, b.entries, watermark);
    }
  }

  lemma {:induction false} RecoverIs(c: Codec, r: Recovery, segments: seq<seq<byte>>, watermark: nat)
    ensures RecoverFrom(c, r, segments, watermark) == Outcome(r, ScanAll(c, segments), |segments|, watermark)
    decreases |segments|
  {
    if segments == [] {
      assert r.points + PointsOf([]) == r.points;
    } else {
      var s := ScanSegment(c, segments[0]);
      if s.Scan? {
        CollectAllIs(r, s.entries, watermark);
        var r1 := Outcome(r, s, 1, watermark).value;
        RecoverIs(c, r1, segments[1..], watermark);
        OutcomeJoin(r, s, ScanAll(c, segments[1..]), |segments| - 1, watermark);
      }
    }
  }

  function Concat(segments: seq<seq<LogEntry>>): seq<LogEntry> {
    if segments == [] then [] else segments[0] + Concat(segments[1..])
  }

  function Written(c: Codec, segments: seq<seq<LogEntry>>): (bufs: seq<seq<byte>>)
    ensures |bufs| == |segments|
  {
    seq(|segments|, i requires 0 <= i < |segments| => Frames(c, segments[i]))
  }

  ghost predicate SegmentsFit(c: Codec, segments: seq<seq<LogEntry>>) {
    forall i :: 0 <= i < |segments| ==> AllFit(c, segments[i])
  }

  lemma ScanWhole(c: Codec, es: seq<LogEntry>)
    requires Lawful(c) && AllFit(c, es)
    ensures ScanSegment(c, Frames(c, es)) == Scan(es, false)
  {
    var k := |Frames(c, es)|;
    ScanTruncated(c, es, k);
    CompleteIsMaximal(c, es, k);
    CompleteWhole(c, es);
    assert Frames(c, es)[..k] == Frames(c, es) && es[..|es|] == es;
  }

  lemma {:induction false} CompleteWhole(c: Codec, es: seq<LogEntry>)
    ensures Complete(c, es, |Frames(c, es)|) == |es|
  {
    if es != [] {
      CompleteWhole(c, es[1..]);
    }
  }

  /** Segments that were written completely contribute all their entries, in segment order. */
  lemma {:induction false} ScanAllWritten(c: Codec, segments: seq<seq<LogEntry>>, rest: seq<seq<byte>>)
    requires Lawful(c) && SegmentsFit(c, segments)
    ensures ScanAll(c, Written(c, segments) + rest) == Join(Scan(Concat(segments), false), ScanAll(c, rest))
    decreases |segments|
  {
    var bufs := Written(c, segments) + rest;
    if segments == [] {
      assert bufs == rest;
      JoinUnit(ScanAll(c, rest));
    } else {
      ScanWhole(c, segments[0]);
      assert bufs[1..] == Written(c, segments[1..]) + rest;
      ScanAllWritten(c, segments[1..], rest);
      JoinAssoc(Scan(segments[0], false), Scan(Concat(segments[1..]), false), ScanAll(c, rest));
    }
  }

  /** One segment read as `es` between segments that were written completely. */
  lemma ScanAllBetween(c: Codec, before: seq<seq<LogEntry>>, buf: seq<byte>, es: seq<LogEntry>, torn: bool, after: seq<seq<LogEntry>>)
    requires Lawful(c) && SegmentsFit(c, before) && SegmentsFit(c, after) && ScanSegment(c, buf) == Scan(es, torn)
    ensures ScanAll(c, Written(c, before) + [buf] + Written(c, after)) == Scan(Concat(before) + es + Concat(after), torn)
  {
    var tail, rest := Written(c, after), [buf] + Written(c, after);
    assert tail == tail + [] && rest[1..] == tail && Written(c, before) + [buf] + tail == Written(c, before) + rest;
    ScanAllWritten(c, after, []);
    JoinUnit(Scan(Concat(after), false));
    ScanAllWritten(c, before, rest);
    Assoc(Concat(before), es, Concat(after));
  }

  /** What recovery reports when it has read the entries `es` from `n` segments. */
  function Report(es: seq<LogEntry>, n: nat, torn: bool, watermark: nat): Recovery {
    var kept := Above(es, watermark);
    Recovery(PointsOf(kept), Highest(kept), n, |kept|, torn)
  }

  lemma RecoverScanned(c: Codec, segments: seq<seq<byte>>, es: seq<LogEntry>, torn: bool, watermark: nat)
    requires ScanAll(c, segments) == Scan(es, torn)
    ensures RecoverFrom(c, EmptyRecovery(), segments, watermark) == Some(Report(es, |segments|, torn, watermark))
  {
    RecoverIs(c, EmptyRecovery(), segments, watermark);
    assert [] + PointsOf(Above(es, watermark)) == PointsOf(Above(es, watermark));
  }

  lemma RecoverBetween(c: Codec, before: seq<seq<LogEntry>>, buf: seq<byte>, es: seq<LogEntry>, torn: bool,
                       after: seq<seq<LogEntry>>, watermark: nat)
    requires Lawful(c) && SegmentsFit(c, before) && SegmentsFit(c, after) && ScanSegment(c, buf) == Scan(es, torn)
    ensures RecoverFrom(c, EmptyRecovery(), Written(c, before) + [buf] + Written(c, after), watermark) ==
            Some(Report(Concat(before) + es + Concat(after), |before| + 1 + |after|, torn, watermark))
  {
    ScanAllBetween(c, before, buf, es, torn, after);
    RecoverScanned(c, Written(c, before) + [buf] + Written(c, after), Concat(before) + es + Concat(after), torn, watermark);
  }

  /**
    Recovery from any crash: the segments before the last are complete, the last one was cut at
    byte `k`, and later segments were written after a restart. Recovery returns, in order, the
    points above the watermark of all complete frames, whether before or after the torn tail, and
    reports a torn write exactly when the cut leaves at least a header of a partial frame.
  */
  lemma TornTailRecovery(c: Codec, before: seq<seq<LogEntry>>, last: seq<LogEntry>, k: nat,
                         after: seq<seq<LogEntry>>, watermark: nat)
    requires Lawful(c) && SegmentsFit(c, before) && AllFit(c, last) && SegmentsFit(c, after)
    requires k <= |Frames(c, last)|
    ensures var n := Complete(c, last, k);
      && |Frames(c, last[..n])| <= k
      && RecoverFrom(c, EmptyRecovery(), Written(c, before) + [Frames(c, last)[..k]] + Written(c, after), watermark) ==
         Some(Report(Concat(before) + last[..n] + Concat(after), |before| + 1 + |after|,
                     k - |Frames(c, last[..n])| >= HEADER, watermark))
  {
    ScanTruncated(c, last, k);
    var n := Complete(c, last, k);
    RecoverBetween(c, before, Frames(c, last)[..k], last[..n], k - |Frames(c, last[..n])| >= HEADER, after, watermark);
  }
}
