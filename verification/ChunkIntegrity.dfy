/** What the reader accepts among all files, and what the bytes of a written file say. */
module ChunkIntegrity {
  import opened Types
  import opened Bytes
  import opened ChunkFormat
  import opened ChunkWriter
  import opened ChunkReader
  import opened ChunkRoundTrip
  import SeriesKeys

  // ----- Refusing other files -----

  /** The file starts with the magic number, least significant byte first. */
  ghost predicate Magic(bytes: seq<byte>) {
    |bytes| >= 4 && bytes[..4] == [0x49, 0x43, 0x49, 0x4D]
  }

  /** The last four bytes are the checksum of all the others. */
  ghost predicate Intact(lib: Lib, bytes: seq<byte>) {
    |bytes| >= 4 && FromLittleEndian(bytes[|bytes| - 4..]) == lib.crc(bytes[..|bytes| - 4])
  }

  lemma MagicBytes()
    ensures U32(0x4D494349) == [0x49, 0x43, 0x49, 0x4D]
  {
    assert LittleEndian(0x4D, 1) == [0x4D] + LittleEndian(0, 0);
    assert LittleEndian(0x4D49, 2) == [0x49] + LittleEndian(0x4D, 1);
    assert LittleEndian(0x4D4943, 3) == [0x43] + LittleEndian(0x4D49, 2);
    assert LittleEndian(0x4D494349, 4) == [0x49] + LittleEndian(0x4D4943, 3);
  }

  lemma MagicExact(bytes: seq<byte>)
    ensures CheckMagic(bytes) == (if |bytes| < 4 then Err(Truncated) else if Magic(bytes) then Ok(()) else Err(BadMagic))
  {
    hide LittleEndian, FromLittleEndian;
    MagicBytes();
    U32RoundTrip(0x4D494349);
    if |bytes| >= 4 {
      assert bytes[0..4] == bytes[..4];
      LittleEndianUnique(bytes[..4]);
    }
  }

  lemma ChecksumExact(lib: Lib, bytes: seq<byte>)
    ensures CheckChecksum(lib, bytes) == (if |bytes| < 4 then Err(Truncated) else if Intact(lib, bytes) then Ok(()) else Err(BadChecksum))
  {
  }

  /** The errors of the later stages. */
  predicate Late(e: ReadError) {
    e.Truncated? || e.BadKey? || e.BadColumn? || e.ColumnMismatch?
  }

  lemma {:induction false} FindErrors(bytes: seq<byte>, count: nat, key: Text, cursor: nat)
    ensures var r := FindFrom(bytes, count, key, cursor); r.Err? ==> Late(r.error)
    decreases count
  {
    hide FromLittleEndian;
    if count > 0 {
      var keyLen := ReadU32(bytes, cursor);
      if keyLen.Ok? {
        FindErrors(bytes, count - 1, key, cursor + keyLen.value + DIR_ENTRY_FIXED_SIZE);
      }
    }
  }

  lemma RetrieveErrors(lib: Lib, bytes: seq<byte>, at: (nat, nat))
    ensures var r := RetrieveData(lib, bytes, at); r.Err? ==> Late(r.error)
  {
    hide FromLittleEndian, BytesToTimes, BytesToWords;
  }

  lemma EntryErrors(lib: Lib, bytes: seq<byte>, cursor: nat)
    ensures var r := ReadEntry(lib, bytes, cursor); r.Err? ==> Late(r.error)
  {
    hide FromLittleEndian, RetrieveData, SeriesKeys.FromBytes;
    var keyLen := ReadU32(bytes, cursor);
    if keyLen.Ok? {
      var at := ReadOffsets(bytes, cursor, keyLen.value);
      if at.Ok? {
        RetrieveErrors(lib, bytes, at.value);
      }
    }
  }

  lemma {:induction false} ReadFromErrors(lib: Lib, bytes: seq<byte>, count: nat, cursor: nat)
    ensures var r := ReadFrom(lib, bytes, count, cursor); r.Err? ==> Late(r.error)
    decreases count
  {
    hide ReadEntry;
    if count > 0 {
      EntryErrors(lib, bytes, cursor);
      var entry := ReadEntry(lib, bytes, cursor);
      if entry.Ok? {
        ReadFromErrors(lib, bytes, count - 1, entry.value.1);
      }
    }
  }

  /** What both reads say of any file before they look at its contents. */
  ghost predicate Screened<T>(lib: Lib, bytes: seq<byte>, r: Result<T, ReadError>) {
    && (r.Ok? ==> Magic(bytes) && Intact(lib, bytes) && |bytes| >= HEADER_SIZE)
    && (r == Err(BadMagic) <==> |bytes| >= 4 && !Magic(bytes))
    && (r == Err(BadChecksum) <==> Magic(bytes) && !Intact(lib, bytes))
  }

  lemma HeaderErrors(bytes: seq<byte>)
    ensures var h := ParseHeader(bytes); (h.Ok? ==> |bytes| >= HEADER_SIZE) && (h.Err? ==> h.error == Truncated)
  {
    hide FromLittleEndian;
  }

  /**
    Of all files, written by this engine or not: a read succeeds only on one that starts with the magic number and
    ends with its own checksum, and any other is refused with the error that says which of the two fails first.
  */
  lemma RefusedExact(lib: Lib, bytes: seq<byte>, key: SeriesKey, lo: i64, hi: i64)
    ensures Screened(lib, bytes, ReadSeries(lib, bytes, key, lo, hi)) && Screened(lib, bytes, ReadChunk(lib, bytes))
  {
    hide CheckMagic, CheckChecksum, ParseHeader, FindFrom, RetrieveData, ReadFrom, Magic, Intact, SeriesKeys.ToBytes, InRange;
    MagicExact(bytes);
    ChecksumExact(lib, bytes);
    HeaderErrors(bytes);
    ShortFile(lib, bytes);
    var h := ParseHeader(bytes);
    if h.Ok? {
      FindErrors(bytes, h.value.series, SeriesKeys.ToBytes(key), HEADER_SIZE);
      ReadFromErrors(lib, bytes, h.value.series, HEADER_SIZE);
      var found := FindFrom(bytes, h.value.series, SeriesKeys.ToBytes(key), HEADER_SIZE);
      if found.Ok? && found.value.Some? {
        RetrieveErrors(lib, bytes, found.value.value);
      }
    }
  }

  lemma ShortFile(lib: Lib, bytes: seq<byte>)
    ensures |bytes| < 4 ==> !Magic(bytes) && !Intact(lib, bytes)
  {
  }

  /** So a written file that was damaged in front of its checksum is read only if the damage keeps the checksum. */
  lemma DamageRefused(lib: Lib, id: ChunkId, rows: seq<Row>, damaged: seq<byte>, key: SeriesKey, lo: i64, hi: i64)
    requires var file := ChunkBytes(lib, id, rows);
      |damaged| == |file| && |file| >= 4 && damaged[|file| - 4..] == file[|file| - 4..]
    requires lib.crc(damaged[..|damaged| - 4]) != lib.crc(ChunkBytes(lib, id, rows)[..|damaged| - 4])
    ensures ReadSeries(lib, damaged, key, lo, hi).Err? && ReadChunk(lib, damaged).Err?
  {
    hide ReadSeries, ReadChunk, EncodeRows, Body, BloomBytes, FromLittleEndian;
    var file := ChunkBytes(lib, id, rows);
    SealedIntact(lib, WithFooter(lib, Body(id, EncodeRows(lib, rows)), KeysOf(EncodeRows(lib, rows))));
    RefusedExact(lib, damaged, key, lo, hi);
  }

  lemma SealedIntact(lib: Lib, file: seq<byte>)
    ensures Intact(lib, Sealed(lib, file)) && Sealed(lib, file)[..|Sealed(lib, file)| - 4] == file
  {
    hide LittleEndian, FromLittleEndian;
    U32RoundTrip(lib.crc(file));
    var bytes := Sealed(lib, file);
    assert bytes[..|file|] == file && bytes[|file|..] == U32(lib.crc(file));
  }

  // ----- What the header says -----

  ghost predicate Earliest(points: seq<DataPoint>, t: i64) {
    (exists p :: p in points && p.ts == t) && forall p :: p in points ==> t <= p.ts
  }

  ghost predicate Latest(points: seq<DataPoint>, t: i64) {
    (exists p :: p in points && p.ts == t) && forall p :: p in points ==> p.ts <= t
  }

  lemma {:induction false} RangeMet(es: seq<Encoded>) returns (i: nat, j: nat)
    requires es != []
    ensures i < |es| && MinStart(es) == es[i].start && j < |es| && MaxEnd(es) == es[j].end
  {
    var n := |es| - 1;
    i, j := n, n;
    if n == 0 {
      assert es[..0] == [];
    } else {
      var a, b := RangeMet(es[..n]);
      i := if es[n].start < MinStart(es[..n]) then n else a;
      j := if es[n].end > MaxEnd(es[..n]) then n else b;
    }
  }

  /** The time range of the header is that of all points of the file. */
  lemma RangeExact(lib: Lib, rows: seq<Row>)
    requires Live(rows) != [] && forall i :: 0 <= i < |rows| ==> SortedTimes(Times(rows[i].points))
    ensures Earliest(AllPoints(Live(rows)), MinStart(EncodeRows(lib, rows))) && Latest(AllPoints(Live(rows)), MaxEnd(EncodeRows(lib, rows)))
  {
    hide EncodeRows, EncodeRow, MinStart, MaxEnd, AllPoints, Live, SortedTimes, Times;
    var es, live := EncodeRows(lib, rows), Live(rows);
    EncodedLive(lib, rows);
    var i, j := RangeMet(es);
    var first := EndPoint(lib, rows, i, true);
    var last := EndPoint(lib, rows, j, false);
    forall p | p in AllPoints(live) ensures MinStart(es) <= p.ts <= MaxEnd(es) {
      AllPointsAre(live, p);
      var a :| 0 <= a < |live| && live[a].key == p.key && (p.ts, p.value) in live[a].points;
      var k :| 0 <= k < |live[a].points| && live[a].points[k] == (p.ts, p.value);
      RowEnds(lib, rows, a);
      RangeBounds(es, a);
    }
  }

  /** The first or last point of a row is a point of the file. */
  lemma EndPoint(lib: Lib, rows: seq<Row>, i: nat, first: bool) returns (p: DataPoint)
    requires i < |Live(rows)| && forall k :: 0 <= k < |rows| ==> SortedTimes(Times(rows[k].points))
    ensures p in AllPoints(Live(rows)) && p.ts == if first then EncodeRow(lib, Live(rows)[i]).start else EncodeRow(lib, Live(rows)[i]).end
  {
    hide EncodeRow, AllPoints, Live, SortedTimes, Times;
    RowEnds(lib, rows, i);
    var ps := Live(rows)[i].points;
    var (ts, v) := if first then ps[0] else ps[|ps| - 1];
    p := DataPoint(Live(rows)[i].key, ts, v);
    AllPointsAre(Live(rows), p);
  }

  lemma RowEnds(lib: Lib, rows: seq<Row>, i: nat)
    requires i < |Live(rows)| && forall k :: 0 <= k < |rows| ==> SortedTimes(Times(rows[k].points))
    ensures var e, ps := EncodeRow(lib, Live(rows)[i]), Live(rows)[i].points;
      && e.start == ps[0].0 && e.end == ps[|ps| - 1].0
      && forall k :: 0 <= k < |ps| ==> e.start <= ps[k].0 <= e.end
  {
    hide Live, SeriesKeys.ToBytes, TimesToBytes, WordsToBytes;
    var row := Live(rows)[i];
    assert row in rows;
    var ts := Times(row.points);
    forall k | 0 <= k < |ts| ensures ts[0] <= ts[k] <= ts[|ts| - 1] {
    }
    assert forall k :: 0 <= k < |ts| ==> ts[k] == row.points[k].0;
  }

  /** The number of points in the header is that of the file. */
  lemma {:induction false} CountExact(lib: Lib, rows: seq<Row>)
    ensures TotalEntries(EncodeRows(lib, rows)) == |AllPoints(Live(rows))|
  {
    hide EncodeRow, TotalEntries, AllPoints;
    if rows == [] {
      NothingCounted();
    } else {
      var n := |rows| - 1;
      CountExact(lib, rows[..n]);
      var es, live := EncodeRows(lib, rows[..n]), Live(rows[..n]);
      if rows[n].points == [] {
        assert es + [] == es && live + [] == live;
      } else {
        AllPointsSnoc(live, rows[n]);
        SummarySnoc(es, EncodeRow(lib, rows[n]));
        RowCount(lib, rows[n]);
      }
    }
  }

  lemma NothingCounted()
    ensures TotalEntries([]) == |AllPoints([])|
  {
  }

  lemma RowCount(lib: Lib, row: Row)
    requires row.points != []
    ensures EncodeRow(lib, row).count == |row.points|
  {
  }

  lemma {:induction false} AllPointsSnoc(rows: seq<Row>, row: Row)
    ensures |AllPoints(rows + [row])| == |AllPoints(rows)| + |row.points|
  {
    if rows == [] {
      assert [] + [row] == [row] && [row][1..] == [];
    } else {
      assert (rows + [row])[1..] == rows[1..] + [row];
      AllPointsSnoc(rows[1..], row);
    }
  }

  lemma FieldAt(bytes: seq<byte>, off: nat, part: seq<byte>)
    requires At(bytes, off, part)
    ensures off + |part| <= |bytes| && bytes[off..off + |part|] == part
  {
  }

  lemma HeaderParts(bytes: seq<byte>, id: ChunkId, start: i64, end: i64, series: u32, total: u32, columnsAt: u64)
    requires At(bytes, 0, HeaderBytes(id, start, end, series, total, columnsAt))
    ensures |bytes| >= 48 && bytes[4..8] == [1, 0, 0, 0] && FromLittleEndian(bytes[8..16]) == id
    ensures FromLittleEndian(bytes[16..24]) == ToBits(start) && FromLittleEndian(bytes[24..32]) == ToBits(end)
    ensures FromLittleEndian(bytes[32..36]) == series && FromLittleEndian(bytes[36..40]) == total
    ensures FromLittleEndian(bytes[40..48]) == columnsAt
  {
    hide LittleEndian, FromLittleEndian;
    FieldAt(bytes, 0, HeaderBytes(id, start, end, series, total, columnsAt));
    var h := bytes[0..48];
    assert h == HeaderBytes(id, start, end, series, total, columnsAt);
    assert bytes[4..8] == h[4..8] == [VERSION] + [0, 0, 0];
    assert bytes[8..16] == h[8..16] == U64(id);
    assert bytes[16..24] == h[16..24] == U64(ToBits(start));
    assert bytes[24..32] == h[24..32] == U64(ToBits(end));
    assert bytes[32..36] == h[32..36] == U32(series);
    assert bytes[36..40] == h[36..40] == U32(total);
    assert bytes[40..48] == h[40..48] == U64(columnsAt);
    U64RoundTrip(id);
    U64RoundTrip(ToBits(start));
    U64RoundTrip(ToBits(end));
    U32RoundTrip(series);
    U32RoundTrip(total);
    U64RoundTrip(columnsAt);
  }

  lemma HeaderAt(lib: Lib, id: ChunkId, rows: seq<Row>)
    ensures var es := EncodeRows(lib, rows);
      At(ChunkBytes(lib, id, rows), 0, HeaderBytes(id, MinStart(es), MaxEnd(es), |es|, TotalEntries(es), Base(es)))
  {
    hide U32, U64, HeaderBytes, BloomBytes, Columns, Directory, DirSize, EncodeRows, At;
    var es := EncodeRows(lib, rows);
    var header := HeaderBytes(id, MinStart(es), MaxEnd(es), |es|, TotalEntries(es), Base(es));
    var body, keys := Body(id, es), KeysOf(es);
    HeaderFirst(header, Directory(es, Base(es)), Columns(es));
    AtLeft(body, BloomBytes(lib.bloom(keys)), 0, header);
    AtLeft(body + BloomBytes(lib.bloom(keys)), U64(|body|), 0, header);
    AtLeft(WithFooter(lib, body, keys), U32(lib.crc(WithFooter(lib, body, keys))), 0, header);
  }

  /** The header bytes of a file with the given points of `series` series, whose columns start at `columnsAt`. */
  ghost predicate HeaderIs(file: seq<byte>, id: ChunkId, points: seq<DataPoint>, series: nat, columnsAt: nat) {
    && |file| >= 48 && file[4..8] == [1, 0, 0, 0] && FromLittleEndian(file[8..16]) == id
    && (exists t: i64 :: Earliest(points, t) && FromLittleEndian(file[16..24]) == ToBits(t))
    && (exists t: i64 :: Latest(points, t) && FromLittleEndian(file[24..32]) == ToBits(t))
    && FromLittleEndian(file[32..36]) == series && FromLittleEndian(file[36..40]) == |points|
    && FromLittleEndian(file[40..48]) == columnsAt
  }

  /** Byte by byte: version, id, time range, number of series and of points, and where the columns start. */
  lemma HeaderDescribes(lib: Lib, id: ChunkId, rows: seq<Row>)
    requires RowsOk(lib, rows) && Live(rows) != [] && |AllPoints(Live(rows))| < 0x1_0000_0000
    ensures HeaderIs(ChunkBytes(lib, id, rows), id, AllPoints(Live(rows)), |Live(rows)|, 48 + DirSize(EncodeRows(lib, rows)))
  {
    hide FromLittleEndian, EncodeRows, MinStart, MaxEnd, TotalEntries, ChunkBytes, DirSize, Columns, AllPoints, Live, Printable, At, HeaderBytes, ToBits,
      Earliest, Latest;
    var es := EncodeRows(lib, rows);
    SizesFitFacts(es);
    HeaderAt(lib, id, rows);
    RangeExact(lib, rows);
    CountExact(lib, rows);
    EncodedLive(lib, rows);
    HeaderParts(ChunkBytes(lib, id, rows), id, MinStart(es), MaxEnd(es), |es|, TotalEntries(es), Base(es));
  }

  lemma SizesFitFacts(es: seq<Encoded>)
    requires SizesFit(es)
    ensures |es| < 0x1_0000_0000 && Base(es) < 0x1_0000_0000_0000_0000
  {
  }

  // ----- What the directory says -----

  /** Entry `i` of the directory: key, number of points, where the columns are, minimum and maximum. */
  ghost predicate EntryFields(bytes: seq<byte>, cursor: nat, key: Text, count: nat, timesAt: nat, valuesAt: nat, min: F64, max: F64) {
    var at := cursor + 4 + |key|;
    && at + 36 <= |bytes|
    && FromLittleEndian(bytes[cursor..cursor + 4]) == |key| && bytes[cursor + 4..at] == key
    && FromLittleEndian(bytes[at..at + 4]) == count
    && FromLittleEndian(bytes[at + 4..at + 12]) == timesAt && FromLittleEndian(bytes[at + 12..at + 20]) == valuesAt
    && FromLittleEndian(bytes[at + 20..at + 28]) == min && FromLittleEndian(bytes[at + 28..at + 36]) == max
  }

  lemma EntryParts(bytes: seq<byte>, cursor: nat, e: Encoded, timesAt: u64, valuesAt: u64)
    requires At(bytes, cursor, DirEntry(e, timesAt, valuesAt)) && |e.keyBytes| < 0x1_0000_0000 && e.count < 0x1_0000_0000
    ensures EntryFields(bytes, cursor, e.keyBytes, e.count, timesAt, valuesAt, e.min, e.max)
  {
    hide U32, U64, FromLittleEndian, At;
    var len, count, t, v, lo, hi := U32(|e.keyBytes|), U32(e.count), U64(timesAt), U64(valuesAt), U64(e.min), U64(e.max);
    AtSplit(bytes, cursor, len + e.keyBytes + count + t + v, lo + hi);
    AtSplit(bytes, cursor, len + e.keyBytes + count + t, v);
    AtSplit(bytes, cursor, len + e.keyBytes + count, t);
    AtSplit(bytes, cursor, len + e.keyBytes, count);
    AtSplit(bytes, cursor, len, e.keyBytes);
    var at := cursor + 4 + |e.keyBytes|;
    AtSplit(bytes, at + 20, lo, hi);
    FieldAt(bytes, cursor + 4, e.keyBytes);
    NumberAt(bytes, cursor, 4, |e.keyBytes|);
    NumberAt(bytes, at, 4, e.count);
    NumberAt(bytes, at + 4, 8, timesAt);
    NumberAt(bytes, at + 12, 8, valuesAt);
    NumberAt(bytes, at + 20, 8, e.min);
    NumberAt(bytes, at + 28, 8, e.max);
  }

  lemma NumberAt(bytes: seq<byte>, off: nat, w: nat, n: nat)
    requires (w == 4 && n < 0x1_0000_0000) || (w == 8 && n < 0x1_0000_0000_0000_0000)
    requires At(bytes, off, if w == 4 then U32(n) else U64(n))
    ensures off + w <= |bytes| && FromLittleEndian(bytes[off..off + w]) == n
  {
    hide LittleEndian, FromLittleEndian;
    if w == 4 {
      U32RoundTrip(n);
    } else {
      U64RoundTrip(n);
    }
  }

  /** Every series of the file has its entry, with its own key, number of points, minimum and maximum, and its columns follow each other there. */
  lemma DirectoryDescribes(lib: Lib, id: ChunkId, rows: seq<Row>, i: nat) returns (cursor: nat, timesAt: nat, valuesAt: nat)
    requires RowsOk(lib, rows) && i < |Live(rows)| && |Live(rows)[i].points| < 0x1_0000_0000
    ensures var row := Live(rows)[i];
      var times, values := lib.compress(TimesToBytes(Times(row.points))), lib.compress(WordsToBytes(Values(row.points)));
      && EntryFields(ChunkBytes(lib, id, rows), cursor, SeriesKeys.ToBytes(row.key), |row.points|, timesAt, valuesAt,
                     lib.minOf(Values(row.points)), lib.maxOf(Values(row.points)))
      && valuesAt == timesAt + 4 + |times|
      && At(ChunkBytes(lib, id, rows), timesAt, U32(|times|) + times + (U32(|values|) + values))
  {
    hide EncodeRows, EncodeRow, EntryFields, DirSize, At, DirEntry, RowsOk, Live, ChunkBytes, Columns, TimesToBytes, WordsToBytes, U32;
    var es := EncodeRows(lib, rows);
    EncodedLive(lib, rows);
    cursor := HEADER_SIZE + DirSize(es[..i]);
    var (t, v) := ColumnsAt(es, Base(es), i);
    timesAt, valuesAt := t, v;
    WrittenEntry(lib, id, rows, i);
    RowFields(lib, Live(rows)[i]);
    EntryParts(ChunkBytes(lib, id, rows), cursor, es[i], timesAt, valuesAt);
  }

  lemma WrittenEntry(lib: Lib, id: ChunkId, rows: seq<Row>, i: nat)
    requires RowsOk(lib, rows) && i < |EncodeRows(lib, rows)|
    ensures var es := EncodeRows(lib, rows);
      && At(ChunkBytes(lib, id, rows), HEADER_SIZE + DirSize(es[..i]), EntryOf(es, Base(es), i))
      && At(ChunkBytes(lib, id, rows), Base(es) + |Columns(es[..i])|, Column(es[i]))
      && |es[i].keyBytes| < 0x1_0000_0000
      && ColumnsAt(es, Base(es), i).0 <= ColumnsAt(es, Base(es), i).1 < 0x1_0000_0000_0000_0000
  {
    hide EncodeRows, Columns, Column, DirSize, At, EntryOf, Printable, SortedTimes, CheckMagic, CheckChecksum, ParseHeader, Body, WithFooter, Sealed;
    var es := EncodeRows(lib, rows);
    WrittenIsReadable(lib, id, es, KeysOf(es));
    ColumnsPrefix(es, i);
  }

  lemma RowFields(lib: Lib, row: Row)
    requires row.points != []
    ensures var e := EncodeRow(lib, row);
      && e.keyBytes == SeriesKeys.ToBytes(row.key) && e.count == |row.points|
      && e.min == lib.minOf(Values(row.points)) && e.max == lib.maxOf(Values(row.points))
      && e.times == lib.compress(TimesToBytes(Times(row.points))) && e.values == lib.compress(WordsToBytes(Values(row.points)))
  {
  }

  /** The reported size of a series is the room its two columns take, up to where the columns of the next one start. */
  lemma ReportedSize(lib: Lib, rows: seq<Row>, base: nat, i: nat)
    requires i + 1 < |EncodeRows(lib, rows)|
    ensures var es := EncodeRows(lib, rows); ColumnsAt(es, base, i + 1).0 == ColumnsAt(es, base, i).0 + ResultsOf(es)[i].size
  {
    hide EncodeRows, EncodeRow;
    var es := EncodeRows(lib, rows);
    assert es[..i + 1][..i] == es[..i];
  }

  // ----- When a series is reported absent -----

  /** A series is reported present exactly when it is stored and the range meets that of the whole file. */
  lemma PresentExact(lib: Lib, id: ChunkId, rows: seq<Row>, key: SeriesKey, lo: i64, hi: i64)
    requires Lawful(lib) && RowsOk(lib, rows) && Printable(key)
    ensures var r, points := ReadSeries(lib, ChunkBytes(lib, id, rows), key, lo, hi), AllPoints(Live(rows));
      && r.Ok?
      && (r.value.Some? <==> Lookup(rows, key) != [] && (exists p :: p in points && lo <= p.ts) && exists p :: p in points && p.ts <= hi)
  {
    hide FindFrom, RetrieveData, EncodeRows, SeriesKeys.ToBytes, CheckMagic, CheckChecksum, ParseHeader, Printable, At, Live, AllPoints, Lookup, MinStart, MaxEnd, LaidOut, InRange;
    var es, bytes := EncodeRows(lib, rows), ChunkBytes(lib, id, rows);
    ReadSeriesRoundTrip(lib, id, rows, key, lo, hi);
    WrittenIsReadable(lib, id, es, KeysOf(es));
    hide ChunkBytes;
    var found := FoundIs(lib, rows, key, bytes, es);
    if Live(rows) != [] {
      RangeExact(lib, rows);
    } else {
      NothingLive(lib, rows, key);
    }
  }

  lemma NothingLive(lib: Lib, rows: seq<Row>, key: SeriesKey)
    requires Live(rows) == [] && forall i, j :: 0 <= i < j < |rows| ==> rows[i].key != rows[j].key
    ensures Lookup(rows, key) == [] && AllPoints(Live(rows)) == []
  {
    hide Lookup;
    LookupIs(rows, key);
  }

  // ----- Whatever a read returns is in the file -----

  /** A column: its length, then bytes that decompress to `raw`. */
  ghost predicate Unpacks(lib: Lib, bytes: seq<byte>, at: nat, raw: seq<byte>) {
    && at + 4 <= |bytes|
    && var len := FromLittleEndian(bytes[at..at + 4]);
       at + 4 + len <= |bytes| && lib.decompress(bytes[at + 4..at + 4 + len]) == Some(raw)
  }

  /** The directory entry at `cursor` has the key, and leads to two columns of equal length that decode to the points. */
  ghost predicate StoredAt(lib: Lib, bytes: seq<byte>, cursor: nat, key: Text, ps: seq<(i64, F64)>) {
    exists timesAt: nat, valuesAt: nat, times, values :: StoredVia(lib, bytes, cursor, key, ps, timesAt, valuesAt, times, values)
  }

  ghost predicate StoredVia(lib: Lib, bytes: seq<byte>, cursor: nat, key: Text, ps: seq<(i64, F64)>,
                            timesAt: nat, valuesAt: nat, times: seq<byte>, values: seq<byte>)
  {
    var at := cursor + 4 + |key|;
    && at + 20 <= |bytes|
    && FromLittleEndian(bytes[cursor..cursor + 4]) == |key| && bytes[cursor + 4..at] == key
    && FromLittleEndian(bytes[at + 4..at + 12]) == timesAt && FromLittleEndian(bytes[at + 12..at + 20]) == valuesAt
    && Unpacks(lib, bytes, timesAt, times) && Unpacks(lib, bytes, valuesAt, values)
    && |times| == |values| && |ps| == |BytesToTimes(times)| == |BytesToWords(values)|
    && forall k :: 0 <= k < |ps| ==> ps[k] == (BytesToTimes(times)[k], BytesToWords(values)[k])
  }

  lemma ColumnUnpacks(lib: Lib, bytes: seq<byte>, at: nat)
    requires ReadColumn(lib, bytes, at).Ok?
    ensures Unpacks(lib, bytes, at, ReadColumn(lib, bytes, at).value)
  {
    hide FromLittleEndian;
  }

  lemma RetrievedIsStored(lib: Lib, bytes: seq<byte>, cursor: nat, key: Text, at: (nat, nat))
    requires ReadU32(bytes, cursor) == Ok(|key|) && ReadBytes(bytes, cursor + U32_SIZE, |key|) == Ok(key)
    requires ReadOffsets(bytes, cursor, |key|) == Ok(at) && RetrieveData(lib, bytes, at).Ok?
    ensures StoredAt(lib, bytes, cursor, key, RetrieveData(lib, bytes, at).value)
  {
    hide FromLittleEndian, BytesToTimes, BytesToWords, Unpacks, ReadColumn;
    var times, values := ReadColumn(lib, bytes, at.0).value, ReadColumn(lib, bytes, at.1).value;
    ColumnUnpacks(lib, bytes, at.0);
    ColumnUnpacks(lib, bytes, at.1);
    TimeCount(times, values);
    OffsetFields(bytes, cursor, key, at);
    assert StoredVia(lib, bytes, cursor, key, RetrieveData(lib, bytes, at).value, at.0, at.1, times, values);
  }

  lemma TimeCount(times: seq<byte>, values: seq<byte>)
    requires |times| == |values|
    ensures |BytesToTimes(times)| == |BytesToWords(values)|
  {
    WordCount(times, values);
  }

  lemma OffsetFields(bytes: seq<byte>, cursor: nat, key: Text, at: (nat, nat))
    requires ReadU32(bytes, cursor) == Ok(|key|) && ReadBytes(bytes, cursor + U32_SIZE, |key|) == Ok(key)
    requires ReadOffsets(bytes, cursor, |key|) == Ok(at)
    ensures var x := cursor + 4 + |key|;
      && x + 20 <= |bytes|
      && FromLittleEndian(bytes[cursor..cursor + 4]) == |key| && bytes[cursor + 4..x] == key
      && FromLittleEndian(bytes[x + 4..x + 12]) == at.0 && FromLittleEndian(bytes[x + 12..x + 20]) == at.1
  {
    hide FromLittleEndian;
  }

  lemma {:induction false} FoundInDirectory(bytes: seq<byte>, count: nat, key: Text, cursor: nat) returns (c: nat)
    requires var r := FindFrom(bytes, count, key, cursor); r.Ok? && r.value.Some?
    ensures c >= cursor && ReadU32(bytes, c) == Ok(|key|) && ReadBytes(bytes, c + U32_SIZE, |key|) == Ok(key)
    ensures ReadOffsets(bytes, c, |key|) == Ok(FindFrom(bytes, count, key, cursor).value.value)
    decreases count
  {
    hide ReadBytes, ReadOffsets;
    var keyLen := ReadU32(bytes, cursor).value;
    if |key| == keyLen && ReadBytes(bytes, cursor + U32_SIZE, keyLen) == Ok(key) {
      c := cursor;
    } else {
      c := FoundInDirectory(bytes, count - 1, key, cursor + keyLen + DIR_ENTRY_FIXED_SIZE);
    }
  }

  /** Of any file: the points a read of a series returns are those in range of columns filed under the printed key. */
  lemma SeriesIsStored(lib: Lib, bytes: seq<byte>, key: SeriesKey, lo: i64, hi: i64) returns (cursor: nat, ps: seq<(i64, F64)>)
    requires var r := ReadSeries(lib, bytes, key, lo, hi); r.Ok? && r.value.Some?
    ensures cursor >= 48 && StoredAt(lib, bytes, cursor, SeriesKeys.ToBytes(key), ps)
    ensures var points := ReadSeries(lib, bytes, key, lo, hi).value.value;
      forall p :: p in points <==> p.key == key && (p.ts, p.value) in ps && lo <= p.ts <= hi
  {
    hide CheckMagic, CheckChecksum, ParseHeader, FindFrom, RetrieveData, SeriesKeys.ToBytes, InRange, StoredAt, ReadU32, ReadBytes, ReadOffsets;
    var h := ParseHeader(bytes).value;
    var at := FindFrom(bytes, h.series, SeriesKeys.ToBytes(key), HEADER_SIZE).value.value;
    cursor := FoundInDirectory(bytes, h.series, SeriesKeys.ToBytes(key), HEADER_SIZE);
    RetrievedIsStored(lib, bytes, cursor, SeriesKeys.ToBytes(key), at);
    ps := RetrieveData(lib, bytes, at).value;
    InRangeExact(ps, lo, hi);
    PointsForAre(key, InRange(ps, lo, hi));
  }

  lemma PointsForAre(key: SeriesKey, ps: seq<(i64, F64)>)
    ensures forall p :: p in PointsFor(key, ps) <==> p.key == key && (p.ts, p.value) in ps
  {
    forall p: DataPoint | p.key == key && (p.ts, p.value) in ps ensures p in PointsFor(key, ps) {
      var i :| 0 <= i < |ps| && ps[i] == (p.ts, p.value);
      assert PointsFor(key, ps)[i] == p;
    }
  }

  /** The directory, entry by entry: keys that parse, columns that decode, and all their points in order. */
  ghost predicate Lists(lib: Lib, bytes: seq<byte>, count: nat, cursor: nat, points: seq<DataPoint>)
    decreases count
  {
    if count == 0 then points == []
    else exists kb: Text, ps: seq<(i64, F64)> :: ListsNext(lib, bytes, count, cursor, points, kb, ps)
  }

  ghost predicate ListsNext(lib: Lib, bytes: seq<byte>, count: nat, cursor: nat, points: seq<DataPoint>, kb: Text, ps: seq<(i64, F64)>)
    requires count > 0
    decreases count, 0
  {
    && StoredAt(lib, bytes, cursor, kb, ps)
    && SeriesKeys.FromBytes(kb).Ok?
    && |ps| <= |points|
    && (forall k :: 0 <= k < |ps| ==> points[k] == DataPoint(SeriesKeys.FromBytes(kb).value, ps[k].0, ps[k].1))
    && Lists(lib, bytes, count - 1, cursor + |kb| + 40, points[|ps|..])
  }

  lemma {:induction false} ReadFromLists(lib: Lib, bytes: seq<byte>, count: nat, cursor: nat)
    requires ReadFrom(lib, bytes, count, cursor).Ok?
    ensures Lists(lib, bytes, count, cursor, ReadFrom(lib, bytes, count, cursor).value)
    decreases count
  {
    hide StoredAt, SeriesKeys.FromBytes, RetrieveData, ReadOffsets;
    if count > 0 {
      var points := ReadFrom(lib, bytes, count, cursor).value;
      var kb, ps, next := EntryIsStored(lib, bytes, cursor);
      hide ReadEntry;
      ReadFromLists(lib, bytes, count - 1, next);
      assert points[|ps|..] == ReadFrom(lib, bytes, count - 1, next).value;
      assert ListsNext(lib, bytes, count, cursor, points, kb, ps);
    }
  }

  lemma EntryIsStored(lib: Lib, bytes: seq<byte>, cursor: nat) returns (kb: Text, ps: seq<(i64, F64)>, next: nat)
    requires ReadEntry(lib, bytes, cursor).Ok?
    ensures StoredAt(lib, bytes, cursor, kb, ps) && SeriesKeys.FromBytes(kb).Ok? && next == cursor + |kb| + 40
    ensures ReadEntry(lib, bytes, cursor).value == (PointsFor(SeriesKeys.FromBytes(kb).value, ps), next)
  {
    hide StoredAt, SeriesKeys.FromBytes, RetrieveData, ReadOffsets, FromLittleEndian;
    var keyLen := ReadU32(bytes, cursor).value;
    kb := ReadBytes(bytes, cursor + U32_SIZE, keyLen).value;
    var at := ReadOffsets(bytes, cursor, keyLen).value;
    ps := RetrieveData(lib, bytes, at).value;
    next := cursor + keyLen + DIR_ENTRY_FIXED_SIZE;
    RetrievedIsStored(lib, bytes, cursor, kb, at);
  }

  /** Of any file: a read of everything returns the points of every directory entry the header counts, in order. */
  lemma ChunkIsListed(lib: Lib, bytes: seq<byte>)
    requires ReadChunk(lib, bytes).Ok?
    ensures |bytes| >= 48 && Lists(lib, bytes, FromLittleEndian(bytes[32..36]), 48, ReadChunk(lib, bytes).value)
  {
    hide CheckMagic, CheckChecksum, ReadFrom, Lists, FromLittleEndian;
    ReadFromLists(lib, bytes, FromLittleEndian(bytes[32..36]), HEADER_SIZE);
  }

  // ----- The bloom filter -----

  /** The filter as it lies in the file at `at`: bits, hash functions, four key words, and the bitmap with its length. */
  ghost predicate BloomAt(bytes: seq<byte>, at: nat, end: nat, b: Bloom) {
    && at + 48 <= end <= |bytes|
    && FromLittleEndian(bytes[at..at + 8]) == b.bits && FromLittleEndian(bytes[at + 8..at + 12]) == b.hashes
    && BytesToWords(bytes[at + 12..at + 44]) == b.sip
    && at + 48 + |b.bitmap| <= end
    && FromLittleEndian(bytes[at + 44..at + 48]) == |b.bitmap| && bytes[at + 48..at + 48 + |b.bitmap|] == b.bitmap
  }

  /** Of any file: an answer of the bloom check is that of the filter the footer points to, which lies before the checksum. */
  lemma BloomIsRead(lib: Lib, bytes: seq<byte>, key: SeriesKey) returns (b: Bloom)
    requires CheckBloom(lib, bytes, key).Ok?
    ensures |bytes| >= 12 && BloomAt(bytes, FromLittleEndian(bytes[|bytes| - 12..|bytes| - 4]), |bytes| - 4, b)
    ensures CheckBloom(lib, bytes, key).value == lib.bloomCheck(b, SeriesKeys.ToBytes(key))
  {
    hide FromLittleEndian, BytesToWords, SeriesKeys.ToBytes;
    var at := FromLittleEndian(bytes[|bytes| - 12..|bytes| - 4]);
    var buf := bytes[at..|bytes| - CHECKSUM_SIZE];
    b := ParseBloom(buf).value;
    SubSlice(bytes, at, |bytes| - CHECKSUM_SIZE, 0, 8);
    SubSlice(bytes, at, |bytes| - CHECKSUM_SIZE, 8, 12);
    SubSlice(bytes, at, |bytes| - CHECKSUM_SIZE, 12, 44);
    SubSlice(bytes, at, |bytes| - CHECKSUM_SIZE, 44, 48);
    SubSlice(bytes, at, |bytes| - CHECKSUM_SIZE, 48, 48 + |b.bitmap|);
  }

  lemma SubSlice(bytes: seq<byte>, lo: nat, hi: nat, i: nat, j: nat)
    requires lo <= hi <= |bytes| && i <= j <= hi - lo
    ensures bytes[lo..hi][i..j] == bytes[lo + i..lo + j]
  {
    var a, b := bytes[lo..hi][i..j], bytes[lo + i..lo + j];
    forall k | 0 <= k < j - i ensures a[k] == b[k] {
      assert a[k] == bytes[lo..hi][i + k] == bytes[lo + i + k];
    }
  }

  /** A file too short for its footer, or whose footer points past its end, is an error and not an answer. */
  lemma BloomRefused(lib: Lib, bytes: seq<byte>, key: SeriesKey)
    requires |bytes| < 12 || FromLittleEndian(bytes[|bytes| - 12..|bytes| - 4]) + 4 > |bytes|
    ensures CheckBloom(lib, bytes, key) == Err(Truncated)
  {
  }
}
