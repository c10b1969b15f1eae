/** Layout constants and column encodings of chunk files. */
module ChunkFormat {
  import opened Types
  import opened Bytes

  const MAGIC: u32 := 0x4D494349
  const VERSION: byte := 1
  const HEADER_SIZE: nat := 48
  const DIR_ENTRY_FIXED_SIZE: nat := 40
  const CHECKSUM_SIZE: nat := 4
  const FOOTER_TAIL_SIZE: nat := 12
  const BLOOM_HEADER_SIZE: nat := 48

  // ----- Delta coding -----

  /** 64-bit two's complement wrap-around. */
  function Wrap(x: int): i64 {
    FromBits(x % 0x1_0000_0000_0000_0000)
  }

  /** The first timestamp, then the differences. */
  function DeltaEncode(ts: seq<i64>): (ds: seq<i64>)
    ensures |ds| == |ts|
  {
    if |ts| <= 1 then ts else DeltaEncode(ts[..|ts| - 1]) + [Wrap(ts[|ts| - 1] as int - ts[|ts| - 2] as int)]
  }

  /** Running sums of the differences. */
  function DeltaDecode(ds: seq<i64>): (ts: seq<i64>)
    ensures |ts| == |ds|
  {
    if |ds| <= 1 then ds
    else
      var front := DeltaDecode(ds[..|ds| - 1]);
      front + [Wrap(front[|front| - 1] as int + ds[|ds| - 1] as int)]
  }

  method EncodeDeltas(input: seq<i64>) returns (deltas: seq<i64>)
    ensures deltas == DeltaEncode(input)
  {
    if input == [] {
      return [];
    }
    deltas := [input[0]];
    assert input[..1] == [input[0]];
    for i := 1 to |input|
      invariant deltas == DeltaEncode(input[..i])
    {
      assert input[..i + 1][..i] == input[..i];
      deltas := deltas + [Wrap(input[i] as int - input[i - 1] as int)];
    }
    assert input[..|input|] == input;
  }

  method DecodeDeltas(deltas: seq<i64>) returns (out: seq<i64>)
    ensures out == DeltaDecode(deltas)
  {
    if deltas == [] {
      return [];
    }
    out := [deltas[0]];
    assert deltas[..1] == [deltas[0]];
    for i := 1 to |deltas|
      invariant out == DeltaDecode(deltas[..i])
    {
      assert deltas[..i + 1][..i] == deltas[..i];
      out := out + [Wrap(out[i - 1] as int + deltas[i] as int)];
    }
    assert deltas[..|deltas|] == deltas;
  }

  /** Decoding undoes encoding for every list of timestamps, overflow included. */
  lemma {:induction false} DeltaRoundTrip(ts: seq<i64>)
    ensures DeltaDecode(DeltaEncode(ts)) == ts
  {
    hide DeltaEncode, DeltaDecode, Wrap;
    if |ts| <= 1 {
      DeltaShort(ts);
    } else {
      var n := |ts| - 1;
      var front, d := ts[..n], Wrap(ts[n] as int - ts[n - 1] as int);
      DeltaRoundTrip(front);
      EncodeSnoc(ts, front, d);
      DecodeSnoc(DeltaEncode(front), d, front);
      WrapCancels(ts[n - 1], ts[n]);
      assert ts == front + [ts[n]];
    }
  }

  lemma DeltaShort(ts: seq<i64>)
    requires |ts| <= 1
    ensures DeltaDecode(DeltaEncode(ts)) == ts
  {
  }

  lemma EncodeSnoc(ts: seq<i64>, front: seq<i64>, d: i64)
    requires |ts| > 1 && front == ts[..|ts| - 1] && d == Wrap(ts[|ts| - 1] as int - ts[|ts| - 2] as int)
    ensures DeltaEncode(ts) == DeltaEncode(front) + [d]
  {
  }

  lemma DecodeSnoc(ds: seq<i64>, d: i64, ts: seq<i64>)
    requires ds != [] && DeltaDecode(ds) == ts
    ensures DeltaDecode(ds + [d]) == ts + [Wrap(ts[|ts| - 1] as int + d as int)]
  {
    assert (ds + [d])[..|ds|] == ds;
  }

  lemma WrapCancels(a: i64, b: i64)
    ensures Wrap(a as int + Wrap(b as int - a as int) as int) == b
  {
  }

  predicate SortedTimes(ts: seq<i64>) {
    forall i, j :: 0 <= i < j < |ts| ==> ts[i] < ts[j]
  }

  /** On a sorted column spanning less than 2^63 no difference overflows, so none wraps around. */
  lemma {:induction false} SortedDeltasDoNotWrap(ts: seq<i64>, i: nat)
    requires SortedTimes(ts) && 0 < i < |ts| && ts[|ts| - 1] as int - ts[0] as int < 0x8000_0000_0000_0000
    ensures DeltaEncode(ts)[i] == ts[i] as int - ts[i - 1] as int > 0
  {
    hide DeltaEncode, Wrap;
    var n := |ts| - 1;
    var front, d := ts[..n], Wrap(ts[n] as int - ts[n - 1] as int);
    EncodeSnoc(ts, front, d);
    if i < n {
      SortedDeltasDoNotWrap(front, i);
    } else {
      WrapSmall(ts[n] as int - ts[n - 1] as int);
    }
  }

  lemma WrapSmall(x: int)
    requires 0 <= x < 0x8000_0000_0000_0000
    ensures Wrap(x) == x
  {
  }

  // ----- Columns -----

  function WordsToBytes(ws: seq<u64>): (bs: seq<byte>)
    ensures |bs| == 8 * |ws|
  {
    if ws == [] then [] else U64(ws[0]) + WordsToBytes(ws[1..])
  }

  /** Whole 8-byte words; a shorter remainder is ignored. */
  function BytesToWords(bs: seq<byte>): seq<u64> {
    if |bs| < 8 then []
    else
      Widths();
      [FromLittleEndian(bs[..8])] + BytesToWords(bs[8..])
  }

  lemma {:induction false} WordsRoundTrip(ws: seq<u64>)
    ensures BytesToWords(WordsToBytes(ws)) == ws
  {
    if ws != [] {
      var bs := WordsToBytes(ws);
      assert bs[..8] == U64(ws[0]) && bs[8..] == WordsToBytes(ws[1..]);
      U64RoundTrip(ws[0]);
      WordsRoundTrip(ws[1..]);
    }
  }

  function Patterns(ts: seq<i64>): (ws: seq<u64>)
    ensures |ws| == |ts|
  {
    seq(|ts|, i requires 0 <= i < |ts| => ToBits(ts[i]))
  }

  function Signed(ws: seq<u64>): (ts: seq<i64>)
    ensures |ts| == |ws|
  {
    seq(|ws|, i requires 0 <= i < |ws| => FromBits(ws[i]))
  }

  /** The timestamp column before compression, and its reader. */
  function TimesToBytes(ts: seq<i64>): (bs: seq<byte>)
    ensures |bs| == 8 * |ts|
  {
    WordsToBytes(Patterns(DeltaEncode(ts)))
  }

  function BytesToTimes(bs: seq<byte>): seq<i64> {
    DeltaDecode(Signed(BytesToWords(bs)))
  }

  lemma TimesRoundTrip(ts: seq<i64>)
    ensures BytesToTimes(TimesToBytes(ts)) == ts
  {
    var ds := DeltaEncode(ts);
    WordsRoundTrip(Patterns(ds));
    assert Signed(Patterns(ds)) == ds;
    DeltaRoundTrip(ts);
  }

  /** Word `i` is stored in bytes 8 i to 8 i + 7. */
  lemma {:induction false} WordAt(ws: seq<u64>, i: nat)
    requires i < |ws|
    ensures WordsToBytes(ws)[8 * i..8 * i + 8] == U64(ws[i])
  {
    var bs := WordsToBytes(ws);
    if i > 0 {
      WordAt(ws[1..], i - 1);
      var rest := bs[8..];
      assert rest == WordsToBytes(ws[1..]);
      assert bs[8 * i..8 * i + 8] == rest[8 * (i - 1)..8 * (i - 1) + 8];
    }
  }

  /** For every list of timestamps: the first one as it is, then differences modulo 2^64. */
  lemma {:induction false} DeltaAt(ts: seq<i64>, i: nat)
    requires i < |ts|
    ensures i == 0 ==> DeltaEncode(ts)[0] == ts[0]
    ensures i > 0 ==> (DeltaEncode(ts)[i] as int - (ts[i] as int - ts[i - 1] as int)) % 0x1_0000_0000_0000_0000 == 0
  {
    var n := |ts| - 1;
    if i < n {
      DeltaAt(ts[..n], i);
    }
  }

  /** The timestamp column: entry `i` is the two's complement pattern of its difference, least significant byte first. */
  lemma DeltaColumnAt(ts: seq<i64>, i: nat)
    requires i < |ts|
    ensures FromLittleEndian(TimesToBytes(ts)[8 * i..8 * i + 8]) ==
            (if i == 0 then ts[0] as int else ts[i] as int - ts[i - 1] as int) % 0x1_0000_0000_0000_0000
  {
    hide WordsToBytes, FromLittleEndian, DeltaEncode, U64;
    var ds := DeltaEncode(ts);
    DeltaAt(ts, i);
    WordAt(Patterns(ds), i);
    U64RoundTrip(ToBits(ds[i]));
  }
}
