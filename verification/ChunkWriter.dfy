/** Writing a chunk file: columns are encoded first, then laid out with absolute offsets. */
module ChunkWriter {
  import opened Types
  import opened Bytes
  import opened ChunkFormat
  import SeriesKeys

  /** A bloom filter in the form it is stored. */
  datatype Bloom = Bloom(bits: u64, hashes: u32, sip: seq<u64>, bitmap: seq<byte>)

  /** Compression, checksum, bloom filter and value statistics. */
  datatype Lib = Lib(
    compress: seq<byte> -> seq<byte>,
    decompress: seq<byte> -> Option<seq<byte>>,
    crc: seq<byte> -> u32,
    bloom: seq<Text> -> Bloom,
    bloomCheck: (Bloom, Text) -> bool,
    minOf: seq<F64> -> F64,
    maxOf: seq<F64> -> F64)

  /** Decompression undoes compression. */
  ghost predicate Lawful(lib: Lib) {
    forall bs :: lib.decompress(lib.compress(bs)) == Some(bs)
  }

  /** The bloom filter of some keys has no false negatives. */
  ghost predicate BloomLawful(lib: Lib, keys: seq<Text>) {
    && |lib.bloom(keys).sip| == 4
    && forall k :: k in keys ==> lib.bloomCheck(lib.bloom(keys), k)
  }

  /** One series of a drained memtable. */
  datatype Row = Row(key: SeriesKey, points: seq<(i64, F64)>)

  datatype Encoded = Encoded(
    key: SeriesKey,
    keyBytes: Text,
    count: nat,
    start: i64,
    end: i64,
    times: seq<byte>,
    values: seq<byte>,
    min: F64,
    max: F64)

  datatype SeriesResult = SeriesResult(key: SeriesKey, start: i64, end: i64, size: nat, min: F64, max: F64)

  datatype WriteError = EmptyChunk

  datatype WriteResult = WriteResult(bytes: seq<byte>, series: seq<SeriesResult>)

  function Times(ps: seq<(i64, F64)>): (ts: seq<i64>)
    ensures |ts| == |ps|
  {
    seq(|ps|, i requires 0 <= i < |ps| => ps[i].0)
  }

  function Values(ps: seq<(i64, F64)>): (vs: seq<F64>)
    ensures |vs| == |ps|
  {
    seq(|ps|, i requires 0 <= i < |ps| => ps[i].1)
  }

  function EncodeRow(lib: Lib, row: Row): Encoded
    requires row.points != []
  {
    var ts, vs := Times(row.points), Values(row.points);
    Encoded(row.key, SeriesKeys.ToBytes(row.key), |ts|, ts[0], ts[|ts| - 1],
            lib.compress(TimesToBytes(ts)), lib.compress(WordsToBytes(vs)), lib.minOf(vs), lib.maxOf(vs))
  }

  /** Series without points are skipped. */
  function EncodeRows(lib: Lib, rows: seq<Row>): seq<Encoded> {
    if rows == [] then []
    else
      var row := rows[|rows| - 1];
      EncodeRows(lib, rows[..|rows| - 1]) + (if row.points == [] then [] else [EncodeRow(lib, row)])
  }

  function KeysOf(es: seq<Encoded>): (ks: seq<Text>)
    ensures |ks| == |es|
  {
    seq(|es|, i requires 0 <= i < |es| => es[i].keyBytes)
  }

  // ----- Layout -----

  /** Timestamp column, then value column, each with its compressed length. */
  function Column(e: Encoded): (bs: seq<byte>)
    ensures |bs| == 2 * U32_SIZE + |e.times| + |e.values|
  {
    U32(|e.times|) + e.times + (U32(|e.values|) + e.values)
  }

  function Columns(es: seq<Encoded>): seq<byte> {
    if es == [] then [] else Columns(es[..|es| - 1]) + Column(es[|es| - 1])
  }

  function DirEntry(e: Encoded, timesAt: nat, valuesAt: nat): (bs: seq<byte>)
    ensures |bs| == DIR_ENTRY_FIXED_SIZE + |e.keyBytes|
  {
    U32(|e.keyBytes|) + e.keyBytes + U32(e.count) + U64(timesAt) + U64(valuesAt) + (U64(e.min) + U64(e.max))
  }

  function DirSize(es: seq<Encoded>): nat {
    if es == [] then 0 else DirSize(es[..|es| - 1]) + DIR_ENTRY_FIXED_SIZE + |es[|es| - 1].keyBytes|
  }

  /** Where the timestamp and value columns of series `i` lie in the file. */
  function ColumnsAt(es: seq<Encoded>, base: nat, i: nat): (nat, nat)
    requires i < |es|
  {
    var at := base + |Columns(es[..i])|;
    (at, at + U32_SIZE + |es[i].times|)
  }

  /** Directory entries point to where the columns of earlier series end. */
  function Directory(es: seq<Encoded>, base: nat): (bs: seq<byte>)
    ensures |bs| == DirSize(es)
  {
    if es == [] then []
    else
      var n := |es| - 1;
      var (timesAt, valuesAt) := ColumnsAt(es, base, n);
      Directory(es[..n], base) + DirEntry(es[n], timesAt, valuesAt)
  }

  function MinStart(es: seq<Encoded>): i64 {
    if es == [] then 0x7FFF_FFFF_FFFF_FFFF
    else
      var m, s := MinStart(es[..|es| - 1]), es[|es| - 1].start;
      if s < m then s else m
  }

  function MaxEnd(es: seq<Encoded>): i64 {
    if es == [] then -0x8000_0000_0000_0000
    else
      var m, s := MaxEnd(es[..|es| - 1]), es[|es| - 1].end;
      if s > m then s else m
  }

  function TotalEntries(es: seq<Encoded>): nat {
    if es == [] then 0 else TotalEntries(es[..|es| - 1]) + es[|es| - 1].count
  }

  function HeaderBytes(id: ChunkId, start: i64, end: i64, series: nat, total: nat, columnsAt: nat): (bs: seq<byte>)
    ensures |bs| == HEADER_SIZE
  {
    U32(MAGIC) + [VERSION] + [0, 0, 0] + U64(id) + U64(ToBits(start)) + U64(ToBits(end)) + U32(series) + U32(total) + U64(columnsAt)
  }

  function BloomBytes(b: Bloom): seq<byte> {
    U64(b.bits) + U32(b.hashes) + WordsToBytes(b.sip) + U32(|b.bitmap|) + b.bitmap
  }

  /** Header, directory and columns. */
  function Body(id: ChunkId, es: seq<Encoded>): seq<byte> {
    var base := HEADER_SIZE + DirSize(es);
    HeaderBytes(id, MinStart(es), MaxEnd(es), |es|, TotalEntries(es), base) + Directory(es, base) + Columns(es)
  }

  /** The footer: bloom filter over the keys, and where it starts. */
  function WithFooter(lib: Lib, body: seq<byte>, keys: seq<Text>): seq<byte> {
    body + BloomBytes(lib.bloom(keys)) + U64(|body|)
  }

  /** The checksum covers everything before it. */
  function Sealed(lib: Lib, file: seq<byte>): seq<byte> {
    file + U32(lib.crc(file))
  }

  function ChunkBytes(lib: Lib, id: ChunkId, rows: seq<Row>): seq<byte> {
    var es := EncodeRows(lib, rows);
    Sealed(lib, WithFooter(lib, Body(id, es), KeysOf(es)))
  }

  function ResultOf(e: Encoded): SeriesResult {
    SeriesResult(e.key, e.start, e.end, |e.times| + |e.values| + 2 * U32_SIZE, e.min, e.max)
  }

  function ResultsOf(es: seq<Encoded>): (rs: seq<SeriesResult>)
    ensures |rs| == |es|
  {
    seq(|es|, i requires 0 <= i < |es| => ResultOf(es[i]))
  }

  // ----- The writer -----

  /** Pass 1: encode and compress all columns, tracking the time range and the number of points. */
  method EncodeAll(lib: Lib, rows: seq<Row>)
    returns (encoded: seq<Encoded>, keys: seq<Text>, minTs: i64, maxTs: i64, total: nat)
    ensures encoded == EncodeRows(lib, rows) && keys == KeysOf(encoded)
    ensures minTs == MinStart(encoded) && maxTs == MaxEnd(encoded) && total == TotalEntries(encoded)
  {
    encoded, keys, minTs, maxTs, total := [], [], 0x7FFF_FFFF_FFFF_FFFF, -0x8000_0000_0000_0000, 0;
    for i := 0 to |rows|
      invariant encoded == EncodeRows(lib, rows[..i]) && keys == KeysOf(encoded)
      invariant minTs == MinStart(encoded) && maxTs == MaxEnd(encoded) && total == TotalEntries(encoded)
    {
      hide EncodeRow, MinStart, MaxEnd, TotalEntries, KeysOf;
      assert rows[..i + 1][..i] == rows[..i];
      if rows[i].points != [] {
        var e := EncodeRow(lib, rows[i]);
        SummarySnoc(encoded, e);
        minTs := if e.start < minTs then e.start else minTs;
        maxTs := if e.end > maxTs then e.end else maxTs;
        total := total + e.count;
        keys := keys + [e.keyBytes];
        encoded := encoded + [e];
      }
    }
    assert rows[..|rows|] == rows;
  }

  lemma SummarySnoc(es: seq<Encoded>, e: Encoded)
    ensures KeysOf(es + [e]) == KeysOf(es) + [e.keyBytes]
    ensures MinStart(es + [e]) == (if e.start < MinStart(es) then e.start else MinStart(es))
    ensures MaxEnd(es + [e]) == (if e.end > MaxEnd(es) then e.end else MaxEnd(es))
    ensures TotalEntries(es + [e]) == TotalEntries(es) + e.count
  {
    assert (es + [e])[..|es|] == es;
  }

  /** Pass 2: a running offset gives the absolute position of each column. */
  method PlaceColumns(es: seq<Encoded>, base: nat) returns (offsets: seq<(nat, nat)>, series: seq<SeriesResult>)
    ensures |offsets| == |es| && forall i :: 0 <= i < |es| ==> offsets[i] == ColumnsAt(es, base, i)
    ensures series == ResultsOf(es)
  {
    offsets, series := [], [];
    var at := base;
    for i := 0 to |es|
      invariant |offsets| == i && at == base + |Columns(es[..i])| && series == ResultsOf(es[..i])
      invariant forall j :: 0 <= j < i ==> offsets[j] == ColumnsAt(es, base, j)
    {
      assert es[..i + 1][..i] == es[..i];
      var timesAt := at;
      at := at + U32_SIZE + |es[i].times|;
      var valuesAt := at;
      at := at + U32_SIZE + |es[i].values|;
      offsets := offsets + [(timesAt, valuesAt)];
      series := series + [ResultOf(es[i])];
    }
    assert es[..|es|] == es;
  }

  method SumDirSize(es: seq<Encoded>) returns (size: nat)
    ensures size == DirSize(es)
  {
    size := 0;
    for i := 0 to |es|
      invariant size == DirSize(es[..i])
    {
      assert es[..i + 1][..i] == es[..i];
      size := size + DIR_ENTRY_FIXED_SIZE + |es[i].keyBytes|;
    }
    assert es[..|es|] == es;
  }

  method AssembleDirectory(es: seq<Encoded>, base: nat, offsets: seq<(nat, nat)>) returns (buf: seq<byte>)
    requires |offsets| == |es| && forall i :: 0 <= i < |es| ==> offsets[i] == ColumnsAt(es, base, i)
    ensures buf == Directory(es, base)
  {
    hide DirEntry;
    buf := [];
    for i := 0 to |es|
      invariant buf == Directory(es[..i], base)
    {
      assert es[..i + 1][..i] == es[..i];
      buf := buf + DirEntry(es[i], offsets[i].0, offsets[i].1);
    }
    assert es[..|es|] == es;
  }

  method AssembleColumns(es: seq<Encoded>) returns (buf: seq<byte>)
    ensures buf == Columns(es)
  {
    hide Column;
    buf := [];
    for i := 0 to |es|
      invariant buf == Columns(es[..i])
    {
      assert es[..i + 1][..i] == es[..i];
      buf := buf + Column(es[i]);
    }
    assert es[..|es|] == es;
  }

  method AssembleBody(id: ChunkId, es: seq<Encoded>, minTs: i64, maxTs: i64, total: nat)
    returns (buf: seq<byte>, series: seq<SeriesResult>)
    requires minTs == MinStart(es) && maxTs == MaxEnd(es) && total == TotalEntries(es)
    ensures buf == Body(id, es) && series == ResultsOf(es)
  {
    hide HeaderBytes, Directory, Columns;
    var dirSize := SumDirSize(es);
    var base := HEADER_SIZE + dirSize;
    var offsets;
    offsets, series := PlaceColumns(es, base);
    buf := HeaderBytes(id, minTs, maxTs, |es|, total, base);
    var directory := AssembleDirectory(es, base, offsets);
    var columns := AssembleColumns(es);
    buf := buf + directory + columns;
  }

  method WriteChunk(lib: Lib, id: ChunkId, rows: seq<Row>) returns (r: Result<WriteResult, WriteError>)
    ensures rows == [] ==> r == Err(EmptyChunk)
    ensures rows != [] ==> r == Ok(WriteResult(ChunkBytes(lib, id, rows), ResultsOf(EncodeRows(lib, rows))))
  {
    if rows == [] {
      return Err(EmptyChunk);
    }
    var encoded, keys, minTs, maxTs, total := EncodeAll(lib, rows);
    var body, series := AssembleBody(id, encoded, minTs, maxTs, total);
    var file := WithFooter(lib, body, keys);
    r := Ok(WriteResult(Sealed(lib, file), series));
  }
}
