/** Reading chunk files: every access is bounds-checked and every failure is reported. */
module ChunkReader {
  import opened Types
  import opened Bytes
  import opened ChunkFormat
  import opened ChunkWriter
  import SeriesKeys

  datatype ReadError = Truncated | BadMagic | BadChecksum | BadKey | BadColumn | ColumnMismatch

  function ReadU32(bytes: seq<byte>, at: nat): Result<u32, ReadError> {
    match Slice(bytes, at, U32_SIZE)
    case None => Err(Truncated)
    case Some(bs) => Widths(); Ok(FromLittleEndian(bs))
  }

  function ReadU64(bytes: seq<byte>, at: nat): Result<u64, ReadError> {
    match Slice(bytes, at, U64_SIZE)
    case None => Err(Truncated)
    case Some(bs) => Widths(); Ok(FromLittleEndian(bs))
  }

  function ReadBytes(bytes: seq<byte>, at: nat, len: nat): Result<seq<byte>, ReadError> {
    match Slice(bytes, at, len)
    case None => Err(Truncated)
    case Some(bs) => Ok(bs)
  }

  function CheckMagic(bytes: seq<byte>): Result<(), ReadError> {
    var magic :- ReadU32(bytes, 0);
    if magic == MAGIC then Ok(()) else Err(BadMagic)
  }

  function CheckChecksum(lib: Lib, bytes: seq<byte>): Result<(), ReadError> {
    if |bytes| < CHECKSUM_SIZE then Err(Truncated)
    else
      var n := |bytes| - CHECKSUM_SIZE;
      if lib.crc(bytes[..n]) == FromLittleEndian(bytes[n..]) then Ok(()) else Err(BadChecksum)
  }

  /** The header fields the reader uses. */
  datatype Header = Header(start: i64, end: i64, series: u32)

  function ParseHeader(bytes: seq<byte>): Result<Header, ReadError> {
    if |bytes| < HEADER_SIZE then Err(Truncated)
    else
      var start :- ReadU64(bytes, 16);
      var end :- ReadU64(bytes, 24);
      var series :- ReadU32(bytes, 32);
      Ok(Header(FromBits(start), FromBits(end), series))
  }

  predicate Overlaps(h: Header, lo: i64, hi: i64) {
    !(lo > h.end || hi < h.start)
  }

  // ----- Directory -----

  /** The offsets of one directory entry whose key has `keyLen` bytes. */
  function ReadOffsets(bytes: seq<byte>, cursor: nat, keyLen: nat): Result<(nat, nat), ReadError> {
    var at := cursor + U32_SIZE + keyLen + U32_SIZE;
    var timesAt :- ReadU64(bytes, at);
    var valuesAt :- ReadU64(bytes, at + U64_SIZE);
    Ok((timesAt, valuesAt))
  }

  /** Linear scan of `count` directory entries; the key length is compared before the key. */
  function FindFrom(bytes: seq<byte>, count: nat, key: Text, cursor: nat): Result<Option<(nat, nat)>, ReadError>
    decreases count
  {
    if count == 0 then Ok(None)
    else
      var keyLen :- ReadU32(bytes, cursor);
      if |key| == keyLen then
        var stored :- ReadBytes(bytes, cursor + U32_SIZE, keyLen);
        if key == stored then
          var at :- ReadOffsets(bytes, cursor, keyLen);
          Ok(Some(at))
        else FindFrom(bytes, count - 1, key, cursor + keyLen + DIR_ENTRY_FIXED_SIZE)
      else FindFrom(bytes, count - 1, key, cursor + keyLen + DIR_ENTRY_FIXED_SIZE)
  }

  method FindSeries(bytes: seq<byte>, count: nat, key: Text) returns (r: Result<Option<(nat, nat)>, ReadError>)
    ensures r == FindFrom(bytes, count, key, HEADER_SIZE)
  {
    var cursor: nat := HEADER_SIZE;
    for i := 0 to count
      invariant FindFrom(bytes, count, key, HEADER_SIZE) == FindFrom(bytes, count - i, key, cursor)
    {
      var keyLen :- ReadU32(bytes, cursor);
      if |key| == keyLen {
        var stored :- ReadBytes(bytes, cursor + U32_SIZE, keyLen);
        if key == stored {
          var at :- ReadOffsets(bytes, cursor, keyLen);
          return Ok(Some(at));
        }
      }
      cursor := cursor + keyLen + DIR_ENTRY_FIXED_SIZE;
    }
    r := Ok(None);
  }

  // ----- Columns -----

  function ReadColumn(lib: Lib, bytes: seq<byte>, at: nat): Result<seq<byte>, ReadError> {
    var len :- ReadU32(bytes, at);
    var packed :- ReadBytes(bytes, at + U32_SIZE, len);
    match lib.decompress(packed)
    case None => Err(BadColumn)
    case Some(bs) => Ok(bs)
  }

  lemma {:induction false} WordCount(a: seq<byte>, b: seq<byte>)
    requires |a| == |b|
    ensures |BytesToWords(a)| == |BytesToWords(b)|
  {
    if |a| >= 8 {
      WordCount(a[8..], b[8..]);
    }
  }

  function Zip(ts: seq<i64>, vs: seq<F64>): (ps: seq<(i64, F64)>)
    requires |ts| == |vs|
    ensures |ps| == |ts|
  {
    seq(|ts|, i requires 0 <= i < |ts| => (ts[i], vs[i]))
  }

  /** Decompresses and decodes both columns of a series. */
  function RetrieveData(lib: Lib, bytes: seq<byte>, at: (nat, nat)): Result<seq<(i64, F64)>, ReadError> {
    var times :- ReadColumn(lib, bytes, at.0);
    var values :- ReadColumn(lib, bytes, at.1);
    if |times| != |values| then Err(ColumnMismatch)
    else
      WordCount(times, values);
      Ok(Zip(BytesToTimes(times), BytesToWords(values)))
  }

  function PointsFor(key: SeriesKey, ps: seq<(i64, F64)>): (points: seq<DataPoint>)
    ensures |points| == |ps|
  {
    seq(|ps|, i requires 0 <= i < |ps| => DataPoint(key, ps[i].0, ps[i].1))
  }

  // ----- Queries -----

  /** The points of one series within a time range; absent when the series or the range is not in the file. */
  function ReadSeries(lib: Lib, bytes: seq<byte>, key: SeriesKey, lo: i64, hi: i64): Result<Option<seq<DataPoint>>, ReadError> {
    var _ :- CheckMagic(bytes);
    var _ :- CheckChecksum(lib, bytes);
    var h :- ParseHeader(bytes);
    if !Overlaps(h, lo, hi) then Ok(None)
    else
      var found :- FindFrom(bytes, h.series, SeriesKeys.ToBytes(key), HEADER_SIZE);
      match found
      case None => Ok(None)
      case Some(at) =>
        var ps :- RetrieveData(lib, bytes, at);
        Ok(Some(PointsFor(key, InRange(ps, lo, hi))))
  }

  /** One directory entry with its points, and the position of the next. */
  function ReadEntry(lib: Lib, bytes: seq<byte>, cursor: nat): Result<(seq<DataPoint>, nat), ReadError> {
    var keyLen :- ReadU32(bytes, cursor);
    var keyBytes :- ReadBytes(bytes, cursor + U32_SIZE, keyLen);
    match SeriesKeys.FromBytes(keyBytes)
    case Err(_) => Err(BadKey)
    case Ok(key) =>
      var at :- ReadOffsets(bytes, cursor, keyLen);
      var ps :- RetrieveData(lib, bytes, at);
      Ok((PointsFor(key, ps), cursor + keyLen + DIR_ENTRY_FIXED_SIZE))
  }

  function Prepend(data: seq<DataPoint>, r: Result<seq<DataPoint>, ReadError>): Result<seq<DataPoint>, ReadError> {
    match r
    case Err(e) => Err(e)
    case Ok(rest) => Ok(data + rest)
  }

  /** All points of the next `count` directory entries. */
  function ReadFrom(lib: Lib, bytes: seq<byte>, count: nat, cursor: nat): Result<seq<DataPoint>, ReadError>
    decreases count
  {
    if count == 0 then Ok([])
    else
      var (points, next) :- ReadEntry(lib, bytes, cursor);
      Prepend(points, ReadFrom(lib, bytes, count - 1, next))
  }

  function ReadChunk(lib: Lib, bytes: seq<byte>): Result<seq<DataPoint>, ReadError> {
    var _ :- CheckMagic(bytes);
    var _ :- CheckChecksum(lib, bytes);
    var h :- ParseHeader(bytes);
    ReadFrom(lib, bytes, h.series, HEADER_SIZE)
  }

  lemma PrependTwice(a: seq<DataPoint>, b: seq<DataPoint>, r: Result<seq<DataPoint>, ReadError>)
    ensures Prepend(a, Prepend(b, r)) == Prepend(a + b, r)
  {
    if r.Ok? {
      assert a + (b + r.value) == a + b + r.value;
    }
  }

  lemma PrependNothing(r: Result<seq<DataPoint>, ReadError>)
    ensures Prepend([], r) == r
  {
    if r.Ok? {
      assert [] + r.value == r.value;
    }
  }

  method ReadEntries(lib: Lib, bytes: seq<byte>, count: nat) returns (r: Result<seq<DataPoint>, ReadError>)
    ensures r == ReadFrom(lib, bytes, count, HEADER_SIZE)
  {
    hide ReadEntry;
    var data: seq<DataPoint> := [];
    var cursor: nat := HEADER_SIZE;
    PrependNothing(ReadFrom(lib, bytes, count, cursor));
    for i := 0 to count
      invariant ReadFrom(lib, bytes, count, HEADER_SIZE) == Prepend(data, ReadFrom(lib, bytes, count - i, cursor))
    {
      var entry :- ReadEntry(lib, bytes, cursor);
      PrependTwice(data, entry.0, ReadFrom(lib, bytes, count - i - 1, entry.1));
      data := data + entry.0;
      cursor := entry.1;
    }
    assert data + [] == data;
    r := Ok(data);
  }

  // ----- Bloom filter -----

  /** Parses the bloom section: header, then the bitmap. */
  function ParseBloom(buf: seq<byte>): Result<Bloom, ReadError> {
    if |buf| < BLOOM_HEADER_SIZE then Err(Truncated)
    else
      var bits :- ReadU64(buf, 0);
      var hashes :- ReadU32(buf, 8);
      var sip :- ReadBytes(buf, 12, 4 * U64_SIZE);
      var len :- ReadU32(buf, 44);
      var bitmap :- ReadBytes(buf, BLOOM_HEADER_SIZE, len);
      Ok(Bloom(bits, hashes, BytesToWords(sip), bitmap))
  }

  /** Whether a series may be in the file, reading only its footer. */
  function CheckBloom(lib: Lib, bytes: seq<byte>, key: SeriesKey): Result<bool, ReadError> {
    if |bytes| < FOOTER_TAIL_SIZE then Err(Truncated)
    else
      var footerAt :- ReadU64(bytes, |bytes| - FOOTER_TAIL_SIZE);
      if CHECKSUM_SIZE + footerAt > |bytes| then Err(Truncated)
      else
        var bloom :- ParseBloom(bytes[footerAt..|bytes| - CHECKSUM_SIZE]);
        Ok(lib.bloomCheck(bloom, SeriesKeys.ToBytes(key)))
  }
}
