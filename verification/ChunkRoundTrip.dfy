/** Reading a written chunk file gives back exactly what was written. */
module ChunkRoundTrip {
  import opened Types
  import opened Bytes
  import opened ChunkFormat
  import opened ChunkWriter
  import opened ChunkReader
  import SeriesKeys

  // ----- Byte strings at positions -----

  predicate At(bytes: seq<byte>, off: nat, part: seq<byte>) {
    off + |part| <= |bytes| && bytes[off..off + |part|] == part
  }

  lemma AtSplit(bytes: seq<byte>, off: nat, a: seq<byte>, b: seq<byte>)
    requires At(bytes, off, a + b)
    ensures At(bytes, off, a) && At(bytes, off + |a|, b)
  {
    assert bytes[off..off + |a|] == bytes[off..off + |a + b|][..|a|] == a;
    assert bytes[off + |a|..off + |a| + |b|] == bytes[off..off + |a + b|][|a|..] == b;
  }

  lemma AtLeft(x: seq<byte>, y: seq<byte>, off: nat, part: seq<byte>)
    requires At(x, off, part)
    ensures At(x + y, off, part)
  {
    assert (x + y)[off..off + |part|] == x[off..off + |part|];
  }

  lemma AtRight(x: seq<byte>, y: seq<byte>, off: nat, part: seq<byte>)
    requires At(y, off, part)
    ensures At(x + y, |x| + off, part)
  {
    assert (x + y)[|x| + off..|x| + off + |part|] == y[off..off + |part|];
  }

  lemma ReadU32At(bytes: seq<byte>, at: nat, n: u32)
    requires At(bytes, at, U32(n))
    ensures ReadU32(bytes, at) == Ok(n)
  {
    U32RoundTrip(n);
  }

  lemma ReadU64At(bytes: seq<byte>, at: nat, n: u64)
    requires At(bytes, at, U64(n))
    ensures ReadU64(bytes, at) == Ok(n)
  {
    U64RoundTrip(n);
  }

  // ----- Columns and directory in the file -----

  lemma {:induction false} ColumnAt(es: seq<Encoded>, i: nat)
    requires i < |es|
    ensures At(Columns(es), |Columns(es[..i])|, Column(es[i]))
  {
    hide Column, Bytes.U32;
    var n := |es| - 1;
    if i < n {
      ColumnAt(es[..n], i);
      assert es[..n][..i] == es[..i];
      AtLeft(Columns(es[..n]), Column(es[n]), |Columns(es[..i])|, Column(es[i]));
    }
  }

  lemma {:induction false} DirEntryAt(es: seq<Encoded>, base: nat, i: nat)
    requires i < |es|
    ensures At(Directory(es, base), DirSize(es[..i]), EntryOf(es, base, i))
  {
    hide DirEntry, Column;
    var n := |es| - 1;
    if i < n {
      DirEntryAt(es[..n], base, i);
      EntryOfPrefix(es, base, i, n);
      AtLeft(Directory(es[..n], base), EntryOf(es, base, n), DirSize(es[..i]), EntryOf(es, base, i));
    }
  }

  function EntryOf(es: seq<Encoded>, base: nat, i: nat): seq<byte>
    requires i < |es|
  {
    var (timesAt, valuesAt) := ColumnsAt(es, base, i);
    DirEntry(es[i], timesAt, valuesAt)
  }

  lemma EntryOfPrefix(es: seq<Encoded>, base: nat, i: nat, n: nat)
    requires i < n <= |es|
    ensures EntryOf(es[..n], base, i) == EntryOf(es, base, i) && es[..n][..i] == es[..i]
  {
    hide DirEntry;
    assert es[..n][..i] == es[..i];
  }

  /** What the bytes of one directory entry say. */
  lemma ReadEntryAt(bytes: seq<byte>, cursor: nat, e: Encoded, timesAt: u64, valuesAt: u64)
    requires At(bytes, cursor, DirEntry(e, timesAt, valuesAt)) && |e.keyBytes| < 0x1_0000_0000
    ensures ReadU32(bytes, cursor) == Ok(|e.keyBytes|)
    ensures ReadBytes(bytes, cursor + U32_SIZE, |e.keyBytes|) == Ok(e.keyBytes)
    ensures ReadOffsets(bytes, cursor, |e.keyBytes|) == Ok((timesAt, valuesAt))
  {
    hide U32, U64;
    var len, count, t, v, tail := U32(|e.keyBytes|), U32(e.count), U64(timesAt), U64(valuesAt), U64(e.min) + U64(e.max);
    AtSplit(bytes, cursor, len + e.keyBytes + count + t + v, tail);
    AtSplit(bytes, cursor, len + e.keyBytes + count + t, v);
    AtSplit(bytes, cursor, len + e.keyBytes + count, t);
    AtSplit(bytes, cursor, len + e.keyBytes, count);
    AtSplit(bytes, cursor, len, e.keyBytes);
    ReadU32At(bytes, cursor, |e.keyBytes|);
    ReadU64At(bytes, cursor + U32_SIZE + |e.keyBytes| + U32_SIZE, timesAt);
    ReadU64At(bytes, cursor + U32_SIZE + |e.keyBytes| + U32_SIZE + U64_SIZE, valuesAt);
  }

  lemma ReadColumnAt(lib: Lib, bytes: seq<byte>, at: nat, raw: seq<byte>)
    requires Lawful(lib) && |lib.compress(raw)| < 0x1_0000_0000
    requires At(bytes, at, U32(|lib.compress(raw)|) + lib.compress(raw))
    ensures ReadColumn(lib, bytes, at) == Ok(raw)
  {
    hide U32;
    var packed := lib.compress(raw);
    AtSplit(bytes, at, U32(|packed|), packed);
    ReadU32At(bytes, at, |packed|);
  }

  /** Both columns of a series are read back as its points. */
  lemma RetrieveAt(lib: Lib, bytes: seq<byte>, at: nat, row: Row)
    requires Lawful(lib) && row.points != []
    requires var e := EncodeRow(lib, row);
      |e.times| < 0x1_0000_0000 && |e.values| < 0x1_0000_0000 && At(bytes, at, Column(e))
    ensures RetrieveData(lib, bytes, (at, at + U32_SIZE + |EncodeRow(lib, row).times|)) == Ok(row.points)
  {
    hide U32, ReadColumn, TimesToBytes, BytesToTimes, WordsToBytes, BytesToWords, SeriesKeys.ToBytes;
    var ts, vs := Times(row.points), Values(row.points);
    var t, v := TimesToBytes(ts), WordsToBytes(vs);
    var tc, vc := lib.compress(t), lib.compress(v);
    AtSplit(bytes, at, U32(|tc|) + tc, U32(|vc|) + vc);
    ReadColumnAt(lib, bytes, at, t);
    ReadColumnAt(lib, bytes, at + U32_SIZE + |tc|, v);
    TimesRoundTrip(ts);
    WordsRoundTrip(vs);
    assert Zip(ts, vs) == row.points;
  }

  // ----- The whole file -----

  function Base(es: seq<Encoded>): nat {
    HEADER_SIZE + DirSize(es)
  }

  /** The length fields can hold what they describe. */
  ghost predicate SizesFit(es: seq<Encoded>) {
    && |es| < 0x1_0000_0000
    && Base(es) + |Columns(es)| < 0x1_0000_0000_0000_0000
    && forall i :: 0 <= i < |es| ==>
         |es[i].keyBytes| < 0x1_0000_0000 && |es[i].times| < 0x1_0000_0000 && |es[i].values| < 0x1_0000_0000
  }

  /** Every directory entry and every column is where the layout says. */
  ghost predicate LaidOut(bytes: seq<byte>, es: seq<Encoded>) {
    forall i :: 0 <= i < |es| ==>
      && At(bytes, HEADER_SIZE + DirSize(es[..i]), EntryOf(es, Base(es), i))
      && At(bytes, Base(es) + |Columns(es[..i])|, Column(es[i]))
  }

  lemma InMiddle(a: seq<byte>, b: seq<byte>, c: seq<byte>, off: nat, part: seq<byte>)
    requires At(b, off, part)
    ensures At(a + b + c, |a| + off, part)
  {
    AtRight(a, b, off, part);
    AtLeft(a + b, c, |a| + off, part);
  }

  lemma PartsAt(header: seq<byte>, es: seq<Encoded>, i: nat)
    requires |header| == HEADER_SIZE && i < |es|
    ensures var file := header + Directory(es, Base(es)) + Columns(es);
            && At(file, HEADER_SIZE + DirSize(es[..i]), EntryOf(es, Base(es), i))
            && At(file, Base(es) + |Columns(es[..i])|, Column(es[i]))
  {
    hide Columns, Column, EntryOf, At, Directory, DirSize;
    var dir, cols := Directory(es, Base(es)), Columns(es);
    DirEntryAt(es, Base(es), i);
    InMiddle(header, dir, cols, DirSize(es[..i]), EntryOf(es, Base(es), i));
    ColumnAt(es, i);
    AtRight(header + dir, cols, |Columns(es[..i])|, Column(es[i]));
  }

  lemma BodyParts(id: ChunkId, es: seq<Encoded>) returns (header: seq<byte>)
    ensures |header| == HEADER_SIZE && Body(id, es) == header + Directory(es, Base(es)) + Columns(es)
    ensures |Body(id, es)| == Base(es) + |Columns(es)|
  {
    hide HeaderBytes, Columns, Directory, DirSize;
    header := HeaderBytes(id, MinStart(es), MaxEnd(es), |es|, TotalEntries(es), Base(es));
  }

  /** Each precomputed offset is the real position of its column. */
  lemma BodyLaidOut(id: ChunkId, es: seq<Encoded>)
    ensures LaidOut(Body(id, es), es) && |Body(id, es)| == Base(es) + |Columns(es)|
  {
    hide Body, Columns, Column, EntryOf, At, Directory, DirSize;
    var header := BodyParts(id, es);
    forall i | 0 <= i < |es|
      ensures At(Body(id, es), HEADER_SIZE + DirSize(es[..i]), EntryOf(es, Base(es), i))
      ensures At(Body(id, es), Base(es) + |Columns(es[..i])|, Column(es[i]))
    {
      PartsAt(header, es, i);
    }
  }

  lemma LaidOutMore(x: seq<byte>, y: seq<byte>, es: seq<Encoded>)
    requires LaidOut(x, es)
    ensures LaidOut(x + y, es)
  {
    hide Columns, Column, EntryOf, DirSize;
    forall i | 0 <= i < |es|
      ensures At(x + y, HEADER_SIZE + DirSize(es[..i]), EntryOf(es, Base(es), i))
      ensures At(x + y, Base(es) + |Columns(es[..i])|, Column(es[i]))
    {
      AtLeft(x, y, HEADER_SIZE + DirSize(es[..i]), EntryOf(es, Base(es), i));
      AtLeft(x, y, Base(es) + |Columns(es[..i])|, Column(es[i]));
    }
  }

  /** Columns lie before the end of the column section, so their offsets fit. */
  lemma {:induction false} ColumnsPrefix(es: seq<Encoded>, i: nat)
    requires i < |es|
    ensures |Columns(es[..i])| + |Column(es[i])| <= |Columns(es)|
  {
    ColumnAt(es, i);
  }

  // ----- Looking up a series -----

  /** The first series from `i` on with the given key. */
  function FirstWith(es: seq<Encoded>, key: Text, i: nat): (r: Option<nat>)
    requires i <= |es|
    ensures r.Some? ==> i <= r.value < |es| && es[r.value].keyBytes == key
    ensures r.None? ==> forall j :: i <= j < |es| ==> es[j].keyBytes != key
    decreases |es| - i
  {
    if i == |es| then None
    else if es[i].keyBytes == key then Some(i)
    else FirstWith(es, key, i + 1)
  }

  function OffsetsOf(es: seq<Encoded>, found: Option<nat>): Option<(nat, nat)>
    requires found.Some? ==> found.value < |es|
  {
    match found
    case None => None
    case Some(j) => Some(ColumnsAt(es, Base(es), j))
  }

  lemma ReadEntryOf(bytes: seq<byte>, es: seq<Encoded>, i: nat)
    requires LaidOut(bytes, es) && SizesFit(es) && i < |es|
    ensures var cursor, len := HEADER_SIZE + DirSize(es[..i]), |es[i].keyBytes|;
      && ReadU32(bytes, cursor) == Ok(len)
      && ReadBytes(bytes, cursor + U32_SIZE, len) == Ok(es[i].keyBytes)
      && ReadOffsets(bytes, cursor, len) == Ok(ColumnsAt(es, Base(es), i))
      && len < 0x1_0000_0000
  {
    hide ReadU32, ReadBytes, ReadOffsets, DirEntry, Columns, At, DirSize;
    var (timesAt, valuesAt) := ColumnsAt(es, Base(es), i);
    ColumnsPrefix(es, i);
    assert At(bytes, HEADER_SIZE + DirSize(es[..i]), EntryOf(es, Base(es), i));
    assert |es[i].keyBytes| < 0x1_0000_0000 && valuesAt < 0x1_0000_0000_0000_0000;
    hide LaidOut, SizesFit;
    ReadEntryAt(bytes, HEADER_SIZE + DirSize(es[..i]), es[i], timesAt, valuesAt);
  }

  lemma DirSizeStep(es: seq<Encoded>, i: nat)
    requires i < |es|
    ensures DirSize(es[..i + 1]) == DirSize(es[..i]) + |es[i].keyBytes| + DIR_ENTRY_FIXED_SIZE
  {
    assert es[..i + 1][..i] == es[..i];
  }

  lemma FindStep(bytes: seq<byte>, count: nat, key: Text, cursor: nat, stored: Text, at: (nat, nat))
    requires count > 0 && |stored| < 0x1_0000_0000
    requires ReadU32(bytes, cursor) == Ok(|stored|) && ReadBytes(bytes, cursor + U32_SIZE, |stored|) == Ok(stored)
    requires ReadOffsets(bytes, cursor, |stored|) == Ok(at)
    ensures FindFrom(bytes, count, key, cursor) ==
            if key == stored then Ok(Some(at)) else FindFrom(bytes, count - 1, key, cursor + |stored| + DIR_ENTRY_FIXED_SIZE)
  {
    hide ReadU32, ReadBytes, ReadOffsets;
  }

  lemma {:induction false} FindIs(bytes: seq<byte>, es: seq<Encoded>, key: Text, i: nat)
    requires LaidOut(bytes, es) && SizesFit(es) && i <= |es|
    ensures FindFrom(bytes, |es| - i, key, HEADER_SIZE + DirSize(es[..i])) == Ok(OffsetsOf(es, FirstWith(es, key, i)))
    decreases |es| - i
  {
    hide ReadU32, ReadBytes, ReadOffsets, LaidOut, DirSize, ColumnsAt;
    if i < |es| {
      assert |es[i].keyBytes| < 0x1_0000_0000;
      assert FirstWith(es, key, i) == if es[i].keyBytes == key then Some(i) else FirstWith(es, key, i + 1);
      hide SizesFit, FindFrom, FirstWith;
      var cursor, stored := HEADER_SIZE + DirSize(es[..i]), es[i].keyBytes;
      ReadEntryOf(bytes, es, i);
      FindStep(bytes, |es| - i, key, cursor, stored, ColumnsAt(es, Base(es), i));
      if key != stored {
        DirSizeStep(es, i);
        FindIs(bytes, es, key, i + 1);
      }
    }
  }

  // ----- Header and checksum -----

  lemma HeaderFields(bytes: seq<byte>, id: ChunkId, start: i64, end: i64, series: u32, total: nat, columnsAt: nat)
    requires At(bytes, 0, HeaderBytes(id, start, end, series, total, columnsAt))
    ensures CheckMagic(bytes) == Ok(()) && ParseHeader(bytes) == Ok(Header(start, end, series))
  {
    hide U32, U64, ReadU32, ReadU64, At;
    var m, v, p, i, s, e, n := U32(MAGIC), [VERSION], [0, 0, 0], U64(id), U64(ToBits(start)), U64(ToBits(end)), U32(series);
    var k, c := U32(total), U64(columnsAt);
    AtSplit(bytes, 0, m + v + p + i + s + e + n + k, c);
    AtSplit(bytes, 0, m + v + p + i + s + e + n, k);
    AtSplit(bytes, 0, m + v + p + i + s + e, n);
    AtSplit(bytes, 0, m + v + p + i + s, e);
    AtSplit(bytes, 0, m + v + p + i, s);
    AtSplit(bytes, 0, m + v + p, i);
    AtSplit(bytes, 0, m + v, p);
    AtSplit(bytes, 0, m, v);
    ReadU32At(bytes, 0, MAGIC);
    ReadU64At(bytes, 16, ToBits(start));
    ReadU64At(bytes, 24, ToBits(end));
    ReadU32At(bytes, 32, series);
    AtLength(bytes, 0, HeaderBytes(id, start, end, series, total, columnsAt));
  }

  lemma AtLength(bytes: seq<byte>, off: nat, part: seq<byte>)
    requires At(bytes, off, part)
    ensures off + |part| <= |bytes|
  {
  }

  lemma ChecksumHolds(lib: Lib, file: seq<byte>)
    ensures CheckChecksum(lib, Sealed(lib, file)) == Ok(())
  {
    hide U32;
    var bytes := Sealed(lib, file);
    U32RoundTrip(lib.crc(file));
    assert bytes[..|file|] == file && bytes[|file|..] == U32(lib.crc(file));
  }

  /** A written file: valid magic, checksum and header, with everything where the layout says. */
  ghost predicate Readable(lib: Lib, bytes: seq<byte>, es: seq<Encoded>) {
    && CheckMagic(bytes) == Ok(())
    && CheckChecksum(lib, bytes) == Ok(())
    && |es| < 0x1_0000_0000
    && ParseHeader(bytes) == Ok(Header(MinStart(es), MaxEnd(es), |es|))
    && LaidOut(bytes, es)
  }

  lemma WrittenIsReadable(lib: Lib, id: ChunkId, es: seq<Encoded>, keys: seq<Text>)
    requires |es| < 0x1_0000_0000
    ensures Readable(lib, Sealed(lib, WithFooter(lib, Body(id, es), keys)), es)
  {
    hide U32, U64, CheckMagic, CheckChecksum, ParseHeader, LaidOut, HeaderBytes, BloomBytes, Columns, Directory, DirSize;
    var header := HeaderBytes(id, MinStart(es), MaxEnd(es), |es|, TotalEntries(es), Base(es));
    var body := Body(id, es);
    var footer := BloomBytes(lib.bloom(keys)) + U64(|body|);
    var file := WithFooter(lib, body, keys);
    var crc := U32(lib.crc(file));
    BodyLaidOut(id, es);
    LaidOutMore(body, footer, es);
    Assoc(body, BloomBytes(lib.bloom(keys)), U64(|body|));
    LaidOutMore(file, crc, es);
    HeaderFirst(header, Directory(es, Base(es)), Columns(es));
    AtLeft(body, footer, 0, header);
    AtLeft(file, crc, 0, header);
    HeaderFields(file + crc, id, MinStart(es), MaxEnd(es), |es|, TotalEntries(es), Base(es));
    ChecksumHolds(lib, file);
  }

  lemma HeaderFirst(header: seq<byte>, b: seq<byte>, c: seq<byte>)
    ensures At(header + b + c, 0, header)
  {
    assert (header + b + c)[0..|header|] == header;
  }

  // ----- Rows -----

  /** The series that have points. */
  function Live(rows: seq<Row>): (live: seq<Row>)
    ensures forall i :: 0 <= i < |live| ==> live[i].points != []
    ensures forall r :: r in live <==> r in rows && r.points != []
  {
    if rows == [] then []
    else
      var r := rows[|rows| - 1];
      Live(rows[..|rows| - 1]) + (if r.points == [] then [] else [r])
  }

  lemma {:induction false} EncodedLive(lib: Lib, rows: seq<Row>)
    ensures |EncodeRows(lib, rows)| == |Live(rows)|
    ensures forall i :: 0 <= i < |Live(rows)| ==> EncodeRows(lib, rows)[i] == EncodeRow(lib, Live(rows)[i])
  {
    hide EncodeRow;
    if rows != [] {
      EncodedLive(lib, rows[..|rows| - 1]);
    }
  }

  predicate Printable(key: SeriesKey) {
    SeriesKeys.WellEncoded(key) && SeriesKeys.Clean(key)
  }

  /** What a drained memtable guarantees, within the limits of the format. */
  ghost predicate RowsOk(lib: Lib, rows: seq<Row>) {
    && (forall i :: 0 <= i < |rows| ==> Printable(rows[i].key) && SortedTimes(Times(rows[i].points)))
    && (forall i, j :: 0 <= i < j < |rows| ==> rows[i].key != rows[j].key)
    && SizesFit(EncodeRows(lib, rows))
  }

  /** The points stored for a series. */
  function Lookup(rows: seq<Row>, key: SeriesKey): seq<(i64, F64)> {
    if rows == [] then []
    else if rows[|rows| - 1].key == key then rows[|rows| - 1].points
    else Lookup(rows[..|rows| - 1], key)
  }

  lemma {:induction false} LookupIs(rows: seq<Row>, key: SeriesKey)
    requires forall i, j :: 0 <= i < j < |rows| ==> rows[i].key != rows[j].key
    ensures forall r :: r in rows && r.key == key ==> Lookup(rows, key) == r.points
    ensures Lookup(rows, key) != [] ==> exists r :: r in Live(rows) && r.key == key
  {
    if rows != [] {
      var n := |rows| - 1;
      LookupIs(rows[..n], key);
      assert rows == rows[..n] + [rows[n]];
      if rows[n].key == key {
        assert rows[n].points != [] ==> rows[n] in Live(rows);
      } else if Lookup(rows, key) != [] {
        var r :| r in Live(rows[..n]) && r.key == key;
        assert r in Live(rows);
      }
    }
  }

  lemma {:induction false} RangeBounds(es: seq<Encoded>, i: nat)
    requires i < |es|
    ensures MinStart(es) <= es[i].start && es[i].end <= MaxEnd(es)
  {
    var n := |es| - 1;
    if i < n {
      RangeBounds(es[..n], i);
    }
  }

  lemma {:induction false} OutOfRange(ps: seq<(i64, F64)>, lo: i64, hi: i64)
    requires forall i :: 0 <= i < |ps| ==> !(lo <= ps[i].0 <= hi)
    ensures InRange(ps, lo, hi) == []
  {
    if ps != [] {
      OutOfRange(ps[1..], lo, hi);
    }
  }

  /** A query outside the header's range cannot miss a point. */
  lemma NoOverlapNoPoint(lib: Lib, es: seq<Encoded>, i: nat, row: Row, lo: i64, hi: i64)
    requires i < |es| && row.points != [] && es[i] == EncodeRow(lib, row) && SortedTimes(Times(row.points))
    requires lo > MaxEnd(es) || hi < MinStart(es)
    ensures InRange(row.points, lo, hi) == []
  {
    RangeBounds(es, i);
    var ts := Times(row.points);
    forall k | 0 <= k < |row.points| ensures !(lo <= row.points[k].0 <= hi) {
      assert row.points[k].0 == ts[k];
      assert ts[0] <= ts[k] <= ts[|ts| - 1];
    }
    OutOfRange(row.points, lo, hi);
  }

  lemma AbsentKey(lib: Lib, rows: seq<Row>, key: SeriesKey)
    requires RowsOk(lib, rows)
    requires FirstWith(EncodeRows(lib, rows), SeriesKeys.ToBytes(key), 0).None?
    ensures Lookup(rows, key) == []
  {
    hide EncodeRows, SeriesKeys.ToBytes, Printable, SizesFit;
    EncodedLive(lib, rows);
    LookupIs(rows, key);
    assert forall i :: 0 <= i < |Live(rows)| ==> Live(rows)[i].key != key;
  }

  /** What the checks on all rows say of one that was encoded. */
  lemma LiveRow(lib: Lib, rows: seq<Row>, j: nat)
    requires RowsOk(lib, rows) && j < |Live(rows)|
    ensures Printable(Live(rows)[j].key) && Lookup(rows, Live(rows)[j].key) == Live(rows)[j].points
    ensures j < |EncodeRows(lib, rows)| && EncodeRows(lib, rows)[j] == EncodeRow(lib, Live(rows)[j])
    ensures |EncodeRow(lib, Live(rows)[j]).times| < 0x1_0000_0000 && |EncodeRow(lib, Live(rows)[j]).values| < 0x1_0000_0000
  {
    hide EncodeRows, EncodeRow, Printable;
    EncodedLive(lib, rows);
    LookupIs(rows, Live(rows)[j].key);
    assert Live(rows)[j] in Live(rows) && Live(rows)[j] in rows;
  }

  lemma EncodedKey(lib: Lib, row: Row)
    requires row.points != []
    ensures EncodeRow(lib, row).keyBytes == SeriesKeys.ToBytes(row.key)
  {
  }

  lemma PresentKey(lib: Lib, rows: seq<Row>, key: SeriesKey, j: nat, bytes: seq<byte>)
    requires Lawful(lib) && RowsOk(lib, rows) && Printable(key) && LaidOut(bytes, EncodeRows(lib, rows))
    requires j < |EncodeRows(lib, rows)| && EncodeRows(lib, rows)[j].keyBytes == SeriesKeys.ToBytes(key)
    ensures Lookup(rows, key) != []
    ensures RetrieveData(lib, bytes, ColumnsAt(EncodeRows(lib, rows), Base(EncodeRows(lib, rows)), j)) == Ok(Lookup(rows, key))
  {
    hide *;
    EncodedLive(lib, rows);
    var row := Live(rows)[j];
    SizesOf(lib, rows);
    LiveRow(lib, rows, j);
    EncodedKey(lib, row);
    SameBytesSameKey(row.key, key);
    RetrieveOf(lib, bytes, EncodeRows(lib, rows), j, row);
  }

  lemma SameBytesSameKey(a: SeriesKey, b: SeriesKey)
    requires Printable(a) && Printable(b) && SeriesKeys.ToBytes(a) == SeriesKeys.ToBytes(b)
    ensures a == b
  {
    hide SeriesKeys.ToBytes, SeriesKeys.Clean, SeriesKeys.WellEncoded;
    SeriesKeys.PrintInjective(a, b);
  }

  /** The outcome of a directory search is right for the series. */
  ghost predicate FoundRight(lib: Lib, rows: seq<Row>, key: SeriesKey, bytes: seq<byte>, found: Option<(nat, nat)>) {
    match found
    case None => Lookup(rows, key) == []
    case Some(at) => Lookup(rows, key) != [] && RetrieveData(lib, bytes, at) == Ok(Lookup(rows, key))
  }

  lemma DirStart(es: seq<Encoded>)
    ensures DirSize(es[..0]) == 0
  {
  }

  lemma FindAtStart(bytes: seq<byte>, es: seq<Encoded>, key: Text)
    requires LaidOut(bytes, es) && SizesFit(es)
    ensures FindFrom(bytes, |es|, key, HEADER_SIZE) == Ok(OffsetsOf(es, FirstWith(es, key, 0)))
  {
    hide *;
    FindIs(bytes, es, key, 0);
    DirStart(es);
  }

  lemma FirstIsRight(lib: Lib, rows: seq<Row>, key: SeriesKey, bytes: seq<byte>, es: seq<Encoded>, first: Option<nat>)
    requires Lawful(lib) && RowsOk(lib, rows) && Printable(key) && es == EncodeRows(lib, rows) && LaidOut(bytes, es)
    requires first == FirstWith(es, SeriesKeys.ToBytes(key), 0)
    ensures FoundRight(lib, rows, key, bytes, OffsetsOf(es, first))
  {
    hide RetrieveData, EncodeRows, SeriesKeys.ToBytes, ColumnsAt, LaidOut, RowsOk, Lookup, Printable, Lawful, Base;
    if first.None? {
      AbsentKey(lib, rows, key);
    } else {
      PresentKey(lib, rows, key, first.value, bytes);
    }
  }

  /** Where `FindFrom` looks, and what is stored there. */
  lemma FoundIs(lib: Lib, rows: seq<Row>, key: SeriesKey, bytes: seq<byte>, es: seq<Encoded>) returns (found: Option<(nat, nat)>)
    requires Lawful(lib) && RowsOk(lib, rows) && Printable(key) && es == EncodeRows(lib, rows) && LaidOut(bytes, es)
    ensures FindFrom(bytes, |es|, SeriesKeys.ToBytes(key), HEADER_SIZE) == Ok(found)
    ensures FoundRight(lib, rows, key, bytes, found)
  {
    hide *;
    SizesOf(lib, rows);
    FindAtStart(bytes, es, SeriesKeys.ToBytes(key));
    var first := FirstWith(es, SeriesKeys.ToBytes(key), 0);
    found := OffsetsOf(es, first);
    FirstIsRight(lib, rows, key, bytes, es, first);
  }

  /** On a written file, `ReadSeries` returns exactly the points of the series in the range. */
  lemma ReadSeriesRoundTrip(lib: Lib, id: ChunkId, rows: seq<Row>, key: SeriesKey, lo: i64, hi: i64)
    requires Lawful(lib) && RowsOk(lib, rows) && Printable(key)
    ensures var stored, r := Lookup(rows, key), ReadSeries(lib, ChunkBytes(lib, id, rows), key, lo, hi);
      && r.Ok?
      && (r.value.Some? ==> stored != [] && r.value.value == PointsFor(key, InRange(stored, lo, hi)))
      && (r.value.None? ==> InRange(stored, lo, hi) == [])
      && (stored == [] ==> r.value.None?)
  {
    hide FindFrom, RetrieveData, EncodeRows, SeriesKeys.ToBytes, CheckMagic, CheckChecksum, ParseHeader, SeriesKeys.Clean, SeriesKeys.WellEncoded, At;
    var es, bytes := EncodeRows(lib, rows), ChunkBytes(lib, id, rows);
    WrittenIsReadable(lib, id, es, KeysOf(es));
    hide ChunkBytes;
    var found := FoundIs(lib, rows, key, bytes, es);
    if lo > MaxEnd(es) || hi < MinStart(es) {
      LookupOutOfRange(lib, rows, key, lo, hi);
    }
  }

  lemma LookupOutOfRange(lib: Lib, rows: seq<Row>, key: SeriesKey, lo: i64, hi: i64)
    requires RowsOk(lib, rows)
    requires lo > MaxEnd(EncodeRows(lib, rows)) || hi < MinStart(EncodeRows(lib, rows))
    ensures InRange(Lookup(rows, key), lo, hi) == []
  {
    hide EncodeRows, EncodeRow, Printable;
    EncodedLive(lib, rows);
    LookupIs(rows, key);
    if Lookup(rows, key) != [] {
      var r :| r in Live(rows) && r.key == key;
      var i :| 0 <= i < |Live(rows)| && Live(rows)[i] == r;
      NoOverlapNoPoint(lib, EncodeRows(lib, rows), i, r, lo, hi);
    }
  }

  // ----- Reading everything -----

  /** All points, in the order of the rows. */
  function AllPoints(rows: seq<Row>): seq<DataPoint> {
    if rows == [] then [] else PointsFor(rows[0].key, rows[0].points) + AllPoints(rows[1..])
  }

  lemma {:induction false} AllPointsAre(rows: seq<Row>, p: DataPoint)
    ensures p in AllPoints(rows) <==> exists i :: 0 <= i < |rows| && rows[i].key == p.key && (p.ts, p.value) in rows[i].points
  {
    if rows != [] {
      AllPointsAre(rows[1..], p);
      var ps := PointsFor(rows[0].key, rows[0].points);
      assert p in ps <==> rows[0].key == p.key && (p.ts, p.value) in rows[0].points by {
        if rows[0].key == p.key && (p.ts, p.value) in rows[0].points {
          var k :| 0 <= k < |rows[0].points| && rows[0].points[k] == (p.ts, p.value);
          assert ps[k] == p;
        }
      }
      if i :| 0 <= i < |rows[1..]| && rows[1..][i].key == p.key && (p.ts, p.value) in rows[1..][i].points {
        assert rows[i + 1] == rows[1..][i];
      }
      if i :| 0 < i < |rows| && rows[i].key == p.key && (p.ts, p.value) in rows[i].points {
        assert rows[1..][i - 1] == rows[i];
      }
    }
  }

  lemma SizesOf(lib: Lib, rows: seq<Row>)
    requires RowsOk(lib, rows)
    ensures SizesFit(EncodeRows(lib, rows)) && |EncodeRows(lib, rows)| < 0x1_0000_0000
  {
  }

  lemma ReadEntryIs(lib: Lib, rows: seq<Row>, bytes: seq<byte>, es: seq<Encoded>, i: nat)
    requires Lawful(lib) && RowsOk(lib, rows) && es == EncodeRows(lib, rows) && LaidOut(bytes, es)
    requires i < |es| == |Live(rows)|
    ensures var row := Live(rows)[i];
      ReadEntry(lib, bytes, HEADER_SIZE + DirSize(es[..i])) ==
      Ok((PointsFor(row.key, row.points), HEADER_SIZE + DirSize(es[..i + 1])))
  {
    hide *;
    var row := Live(rows)[i];
    SizesOf(lib, rows);
    LiveRow(lib, rows, i);
    EncodedKey(lib, row);
    ReadEntryOf(bytes, es, i);
    DirSizeStep(es, i);
    CleanParses(row.key);
    RetrieveOf(lib, bytes, es, i, row);
    ReadEntryStep(lib, bytes, HEADER_SIZE + DirSize(es[..i]), es[i].keyBytes, row.key, ColumnsAt(es, Base(es), i), row.points);
  }

  lemma CleanParses(key: SeriesKey)
    requires Printable(key)
    ensures SeriesKeys.FromBytes(SeriesKeys.ToBytes(key)) == Ok(key)
  {
    hide SeriesKeys.FromBytes, SeriesKeys.ToBytes, SeriesKeys.Clean, SeriesKeys.WellEncoded;
    SeriesKeys.PrintParse(key);
  }

  lemma ReadEntryStep(lib: Lib, bytes: seq<byte>, cursor: nat, kb: Text, key: SeriesKey, at: (nat, nat), ps: seq<(i64, F64)>)
    requires |kb| < 0x1_0000_0000
    requires ReadU32(bytes, cursor) == Ok(|kb|) && ReadBytes(bytes, cursor + U32_SIZE, |kb|) == Ok(kb)
    requires SeriesKeys.FromBytes(kb) == Ok(key)
    requires ReadOffsets(bytes, cursor, |kb|) == Ok(at) && RetrieveData(lib, bytes, at) == Ok(ps)
    ensures ReadEntry(lib, bytes, cursor) == Ok((PointsFor(key, ps), cursor + |kb| + DIR_ENTRY_FIXED_SIZE))
  {
    hide ReadU32, ReadBytes, ReadOffsets, RetrieveData, PointsFor, SeriesKeys.FromBytes;
  }

  lemma RetrieveOf(lib: Lib, bytes: seq<byte>, es: seq<Encoded>, i: nat, row: Row)
    requires Lawful(lib) && LaidOut(bytes, es) && SizesFit(es) && i < |es| && row.points != [] && es[i] == EncodeRow(lib, row)
    ensures RetrieveData(lib, bytes, ColumnsAt(es, Base(es), i)) == Ok(row.points)
  {
    hide EncodeRow, RetrieveData, Column, Columns, At, EntryOf, DirSize, Lawful;
    assert At(bytes, Base(es) + |Columns(es[..i])|, Column(es[i]));
    RetrieveAt(lib, bytes, Base(es) + |Columns(es[..i])|, row);
  }

  lemma ReadFromStep(lib: Lib, bytes: seq<byte>, count: nat, cursor: nat, points: seq<DataPoint>, next: nat)
    requires count > 0 && ReadEntry(lib, bytes, cursor) == Ok((points, next))
    ensures ReadFrom(lib, bytes, count, cursor) == Prepend(points, ReadFrom(lib, bytes, count - 1, next))
  {
    hide ReadEntry;
  }

  lemma {:induction false} ReadFromIs(lib: Lib, rows: seq<Row>, bytes: seq<byte>, es: seq<Encoded>, i: nat)
    requires Lawful(lib) && RowsOk(lib, rows) && es == EncodeRows(lib, rows) && LaidOut(bytes, es)
    requires i <= |es| == |Live(rows)|
    ensures ReadFrom(lib, bytes, |es| - i, HEADER_SIZE + DirSize(es[..i])) == Ok(AllPoints(Live(rows)[i..]))
    decreases |es| - i
  {
    hide *;
    if i == |es| {
      ReadFromEnd(lib, bytes, HEADER_SIZE + DirSize(es[..i]), Live(rows));
    } else {
      var row := Live(rows)[i];
      AllPointsStep(Live(rows), i);
      ReadEntryIs(lib, rows, bytes, es, i);
      ReadFromStep(lib, bytes, |es| - i, HEADER_SIZE + DirSize(es[..i]), PointsFor(row.key, row.points), HEADER_SIZE + DirSize(es[..i + 1]));
      ReadFromIs(lib, rows, bytes, es, i + 1);
      PrependOk(PointsFor(row.key, row.points), AllPoints(Live(rows)[i + 1..]));
    }
  }

  lemma ReadFromEnd(lib: Lib, bytes: seq<byte>, cursor: nat, rows: seq<Row>)
    ensures ReadFrom(lib, bytes, 0, cursor) == Ok(AllPoints(rows[|rows|..]))
  {
  }

  lemma AllPointsStep(rows: seq<Row>, i: nat)
    requires i < |rows|
    ensures AllPoints(rows[i..]) == PointsFor(rows[i].key, rows[i].points) + AllPoints(rows[i + 1..])
  {
    assert rows[i..][1..] == rows[i + 1..];
  }

  lemma PrependOk(a: seq<DataPoint>, b: seq<DataPoint>)
    ensures Prepend(a, Ok(b)) == Ok(a + b)
  {
  }

  lemma ReadFromStart(lib: Lib, rows: seq<Row>, bytes: seq<byte>, es: seq<Encoded>)
    requires Lawful(lib) && RowsOk(lib, rows) && es == EncodeRows(lib, rows) && LaidOut(bytes, es)
    ensures ReadFrom(lib, bytes, |es|, HEADER_SIZE) == Ok(AllPoints(Live(rows)))
  {
    hide *;
    EncodedLive(lib, rows);
    DirStart(es);
    assert Live(rows)[0..] == Live(rows);
    ReadFromIs(lib, rows, bytes, es, 0);
  }

  /** On a written file, `ReadChunk` returns all points of all series, in the order written. */
  lemma ReadChunkRoundTrip(lib: Lib, id: ChunkId, rows: seq<Row>)
    requires Lawful(lib) && RowsOk(lib, rows)
    ensures ReadChunk(lib, ChunkBytes(lib, id, rows)) == Ok(AllPoints(Live(rows)))
  {
    var es, bytes := EncodeRows(lib, rows), ChunkBytes(lib, id, rows);
    SizesOf(lib, rows);
    hide EncodeRows, CheckMagic, CheckChecksum, ParseHeader, LaidOut, RowsOk, ReadFrom, Lawful, AllPoints;
    WrittenIsReadable(lib, id, es, KeysOf(es));
    ReadFromStart(lib, rows, bytes, es);
  }

  // ----- The bloom filter in the footer -----

  lemma ParseBloomIs(b: Bloom, tail: seq<byte>)
    requires |b.sip| == 4 && |b.bitmap| < 0x1_0000_0000
    ensures ParseBloom(BloomBytes(b) + tail) == Ok(b)
  {
    hide U32, U64, WordsToBytes, BytesToWords;
    var buf := BloomBytes(b) + tail;
    var bits, hashes, sip, len := U64(b.bits), U32(b.hashes), WordsToBytes(b.sip), U32(|b.bitmap|);
    assert At(buf, 0, BloomBytes(b));
    AtSplit(buf, 0, bits + hashes + sip + len, b.bitmap);
    AtSplit(buf, 0, bits + hashes + sip, len);
    AtSplit(buf, 0, bits + hashes, sip);
    AtSplit(buf, 0, bits, hashes);
    hide At;
    ReadU64At(buf, 0, b.bits);
    ReadU32At(buf, 8, b.hashes);
    ReadU32At(buf, 44, |b.bitmap|);
    WordsRoundTrip(b.sip);
    ReadBytesAt(buf, 12, sip);
    ReadBytesAt(buf, BLOOM_HEADER_SIZE, b.bitmap);
  }

  lemma ReadBytesAt(bytes: seq<byte>, at: nat, part: seq<byte>)
    requires At(bytes, at, part)
    ensures ReadBytes(bytes, at, |part|) == Ok(part)
  {
  }

  /** The bloom check never rejects a series that is in the file. */
  lemma BloomNeverRejects(lib: Lib, id: ChunkId, rows: seq<Row>, row: Row)
    requires BloomLawful(lib, KeysOf(EncodeRows(lib, rows))) && row in Live(rows)
    requires |lib.bloom(KeysOf(EncodeRows(lib, rows))).bitmap| < 0x1_0000_0000
    requires |Body(id, EncodeRows(lib, rows))| < 0x1_0000_0000_0000_0000
    ensures CheckBloom(lib, ChunkBytes(lib, id, rows), row.key) == Ok(true)
  {
    hide EncodeRow, Body, SeriesKeys.ToBytes;
    var es := EncodeRows(lib, rows);
    var keys := KeysOf(es);
    EncodedLive(lib, rows);
    var i :| 0 <= i < |Live(rows)| && Live(rows)[i] == row;
    EncodedKey(lib, row);
    assert keys[i] == SeriesKeys.ToBytes(row.key);
    assert lib.bloomCheck(lib.bloom(keys), SeriesKeys.ToBytes(row.key));
    assert ChunkBytes(lib, id, rows) == Sealed(lib, WithFooter(lib, Body(id, es), keys));
    hide *;
    FooterBloom(lib, Body(id, es), keys, row.key);
  }

  /** The footer of any sealed file leads back to its bloom filter. */
  lemma FooterBloom(lib: Lib, body: seq<byte>, keys: seq<Text>, key: SeriesKey)
    requires |lib.bloom(keys).sip| == 4 && |lib.bloom(keys).bitmap| < 0x1_0000_0000 && |body| < 0x1_0000_0000_0000_0000
    ensures CheckBloom(lib, Sealed(lib, WithFooter(lib, body, keys)), key) ==
            Ok(lib.bloomCheck(lib.bloom(keys), SeriesKeys.ToBytes(key)))
  {
    hide U32, U64, BloomBytes, ParseBloom, ReadU64, SeriesKeys.ToBytes;
    var b := lib.bloom(keys);
    var front, tail := body + BloomBytes(b), U64(|body|);
    var file := front + tail;
    var crc := U32(lib.crc(file));
    var bytes := file + crc;
    ParseBloomIs(b, tail);
    FooterSection(body, BloomBytes(b), tail, crc);
    AtRight(front, tail, 0, tail);
    AtLeft(file, crc, |front|, tail);
    ReadU64At(bytes, |front|, |body|);
  }

  lemma FooterSection(body: seq<byte>, bloom: seq<byte>, tail: seq<byte>, crc: seq<byte>)
    ensures (body + bloom + tail + crc)[|body|..|body| + |bloom| + |tail|] == bloom + tail
  {
  }
}
