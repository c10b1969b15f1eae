/** What recovery reads after a failed write left part of a frame, and later frames followed it. */
module PartialFrames {
  import opened Types
  import opened Bytes
  import opened WalFrames

  /** Complete frames at the front are read, and the scan goes on after them. */
  lemma {:induction false} ScanPrefix(c: Codec, es: seq<LogEntry>, rest: seq<byte>)
    requires Lawful(c) && AllFit(c, es)
    ensures ScanSegment(c, Frames(c, es) + rest) == Join(Scan(es, false), ScanSegment(c, rest))
  {
    hide ScanSegment, Frame;
    if es == [] {
      assert Frames(c, es) + rest == rest;
      JoinUnit(ScanSegment(c, rest));
    } else {
      var tail := Frames(c, es[1..]) + rest;
      assert Frames(c, es) + rest == Frame(c, es[0]) + tail;
      ScanFrame(c, es[0], tail);
      ScanPrefix(c, es[1..], rest);
      JoinAssoc(Scan([es[0]], false), Scan(es[1..], false), ScanSegment(c, rest));
      assert [es[0]] + es[1..] == es;
    }
  }

  /** The next frame is incomplete, or its checksum does not match. */
  predicate Caught(c: Codec, buf: seq<byte>) {
    |buf| < HEADER ||
    var len := FromLittleEndian(buf[..4]);
    HEADER + len > |buf| || FromLittleEndian(buf[4..8]) != c.crc(buf[HEADER..HEADER + len])
  }

  /** The scan stops at a place exactly when the next frame there is caught. */
  lemma CaughtExact(c: Codec, buf: seq<byte>)
    ensures Caught(c, buf) <==> ScanSegment(c, buf) == Scan([], |buf| >= HEADER)
  {
  }

  /** What is left in the segment after the complete frames: the first `m` bytes of a frame, and later frames. */
  function Leftover(c: Codec, failed: LogEntry, m: nat, later: seq<LogEntry>): seq<byte>
    requires m <= |Frame(c, failed)|
  {
    Frame(c, failed)[..m] + Frames(c, later)
  }

  /** The payload recovery sees when the missing part of the frame is filled with later bytes. */
  function Mixed(c: Codec, failed: LogEntry, m: nat, later: seq<LogEntry>): seq<byte>
    requires HEADER <= m <= |Frame(c, failed)| <= m + |Frames(c, later)|
  {
    Frame(c, failed)[HEADER..m] + Frames(c, later)[..|Frame(c, failed)| - m]
  }

  /**
    With the header of the failed frame complete: as long as later frames do not fill the missing part, or when the
    checksum of the mixed payload differs from the stored one, the scan ends there and no later frame is read.
    Otherwise, and only then, it takes the mixed payload for an entry and goes on in the middle of later frames.
  */
  lemma PartialFrameExact(c: Codec, es: seq<LogEntry>, failed: LogEntry, m: nat, later: seq<LogEntry>)
    requires Lawful(c) && AllFit(c, es) && Fits(c, failed) && HEADER <= m < |Frame(c, failed)|
    ensures var scan, filled := ScanSegment(c, Frames(c, es) + Leftover(c, failed, m, later)), |Frame(c, failed)| <= m + |Frames(c, later)|;
      && (!filled ==> scan == Scan(es, true))
      && (filled && c.crc(Mixed(c, failed, m, later)) != c.crc(c.encode(failed)) ==> scan == Scan(es, true))
      && (filled && c.crc(Mixed(c, failed, m, later)) == c.crc(c.encode(failed)) ==>
            match c.decode(Mixed(c, failed, m, later))
            case None => scan == BadPayload
            case Some(e) => scan == Join(Scan(es + [e], false), ScanSegment(c, Frames(c, later)[|Frame(c, failed)| - m..])))
  {
    var rest := Leftover(c, failed, m, later);
    ScanPrefix(c, es, rest);
    PartialNext(c, failed, m, later);
    hide ScanSegment, Frames, Frame;
    if |Frame(c, failed)| <= m + |Frames(c, later)| {
      var mixed := Mixed(c, failed, m, later);
      if c.crc(mixed) == c.crc(c.encode(failed)) && c.decode(mixed).Some? {
        var e := c.decode(mixed).value;
        JoinAssoc(Scan(es, false), Scan([e], false), ScanSegment(c, Frames(c, later)[|Frame(c, failed)| - m..]));
      } else {
        assert es + [] == es;
      }
    } else {
      assert es + [] == es;
    }
  }

  lemma PartialNext(c: Codec, failed: LogEntry, m: nat, later: seq<LogEntry>)
    requires Fits(c, failed) && HEADER <= m < |Frame(c, failed)|
    ensures var scan, filled := ScanSegment(c, Leftover(c, failed, m, later)), |Frame(c, failed)| <= m + |Frames(c, later)|;
      && (!filled ==> scan == Scan([], true))
      && (filled && c.crc(Mixed(c, failed, m, later)) != c.crc(c.encode(failed)) ==> scan == Scan([], true))
      && (filled && c.crc(Mixed(c, failed, m, later)) == c.crc(c.encode(failed)) ==>
            match c.decode(Mixed(c, failed, m, later))
            case None => scan == BadPayload
            case Some(e) => scan == Join(Scan([e], false), ScanSegment(c, Frames(c, later)[|Frame(c, failed)| - m..])))
  {
    hide Frames;
    var rest, payload := Leftover(c, failed, m, later), c.encode(failed);
    U32RoundTrip(|payload|);
    U32RoundTrip(c.crc(payload));
    var frame := Frame(c, failed);
    assert frame[..4] == U32(|payload|) && frame[4..8] == U32(c.crc(payload)) && frame[HEADER..] == payload;
    assert rest[..4] == frame[..4] && rest[4..8] == frame[4..8];
    if |Frame(c, failed)| <= m + |Frames(c, later)| {
      assert rest[HEADER..HEADER + |payload|] == Mixed(c, failed, m, later);
      assert rest[HEADER + |payload|..] == Frames(c, later)[|Frame(c, failed)| - m..];
    }
  }

  /**
    For every length of the partial frame, header or not: nothing left behind means every later frame is read;
    something left behind that the checksum catches means that none is.
  */
  lemma LaterFrames(c: Codec, es: seq<LogEntry>, failed: LogEntry, m: nat, later: seq<LogEntry>)
    requires Lawful(c) && AllFit(c, es) && AllFit(c, later) && later != [] && m < |Frame(c, failed)|
    ensures m == 0 ==> ScanSegment(c, Frames(c, es) + Leftover(c, failed, m, later)) == Scan(es + later, false)
    ensures Caught(c, Leftover(c, failed, m, later)) ==>
              ScanSegment(c, Frames(c, es) + Leftover(c, failed, m, later)) == Scan(es, true)
  {
    hide ScanSegment, Caught;
    var rest := Leftover(c, failed, m, later);
    ScanPrefix(c, es, rest);
    assert |rest| >= HEADER;
    if m == 0 {
      assert rest == Frames(c, later) + [];
      ScanPrefix(c, later, []);
      ScanNothing(c);
      assert later + [] == later;
    }
    if Caught(c, rest) {
      CaughtExact(c, rest);
      assert es + [] == es;
    }
  }

  lemma ScanNothing(c: Codec)
    ensures ScanSegment(c, []) == Scan([], false)
  {
  }

  /** When no remainder passes the checksum, all later frames are read if and only if the failed write left nothing. */
  lemma AllLaterReadExact(c: Codec, es: seq<LogEntry>, failed: LogEntry, m: nat, later: seq<LogEntry>)
    requires Lawful(c) && AllFit(c, es) && AllFit(c, later) && later != [] && m < |Frame(c, failed)|
    requires m > 0 ==> Caught(c, Leftover(c, failed, m, later))
    ensures ScanSegment(c, Frames(c, es) + Leftover(c, failed, m, later)) == Scan(es + later, false) <==> m == 0
  {
    hide ScanSegment, Frames, Frame, Caught, AllFit, Lawful;
    LaterFrames(c, es, failed, m, later);
  }

  /** The checksum condition is needed: a codec whose checksum does not tell payloads apart can read on by coincidence. */
  lemma CoincidenceReads(c: Codec, failed: LogEntry, m: nat, l: LogEntry) returns (weak: Codec)
    requires Lawful(c) && Fits(c, failed) && Fits(c, l) && HEADER <= m && m + |Frame(c, l)| == |Frame(c, failed)|
    requires forall e :: c.encode(e) != Mixed(c.(crc := _ => 0), failed, m, [l])
    ensures Lawful(weak) && weak.encode == c.encode
    ensures ScanSegment(weak, Leftover(weak, failed, m, [l])) == Scan([l], false)
  {
    var flat := c.(crc := _ => 0);
    var mixed := Mixed(flat, failed, m, [l]);
    weak := flat.(decode := p => if p == mixed then Some(l) else c.decode(p));
    assert Frames(weak, [l]) == Frame(weak, l) + [] && Frames(flat, [l]) == Frame(flat, l) + [];
    assert Frame(weak, l) == Frame(flat, l) && Frame(weak, failed) == Frame(flat, failed);
    assert Mixed(weak, failed, m, [l]) == mixed;
    PartialNext(weak, failed, m, [l]);
    assert Frames(weak, [l])[|Frame(weak, failed)| - m..] == [];
  }
}
