/** Little-endian integers on disk. */
module Bytes {
  import opened Types

  const U32_SIZE: nat := 4
  const U64_SIZE: nat := 8

  function Pow256(w: nat): (p: nat)
    ensures p > 0
  {
    if w == 0 then 1 else 256 * Pow256(w - 1)
  }

  /** The low `w` bytes of `n`, least significant first. */
  function LittleEndian(n: nat, w: nat): (bs: seq<byte>)
    ensures |bs| == w
  {
    if w == 0 then [] else [n % 256] + LittleEndian(n / 256, w - 1)
  }

  function FromLittleEndian(bs: seq<byte>): (n: nat)
    ensures n < Pow256(|bs|)
  {
    if bs == [] then 0 else bs[0] + 256 * FromLittleEndian(bs[1..])
  }

  /** Reading back a number that fits the width gives the number. */
  lemma {:induction false} LittleEndianRoundTrip(n: nat, w: nat)
    requires n < Pow256(w)
    ensures FromLittleEndian(LittleEndian(n, w)) == n
  {
    if w > 0 {
      LittleEndianRoundTrip(n / 256, w - 1);
      assert LittleEndian(n, w)[1..] == LittleEndian(n / 256, w - 1);
    }
  }

  /** Writing back a number that was read gives the bytes it was read from. */
  lemma {:induction false} LittleEndianUnique(bs: seq<byte>)
    ensures LittleEndian(FromLittleEndian(bs), |bs|) == bs
  {
    if bs != [] {
      LittleEndianUnique(bs[1..]);
      assert bs == [bs[0]] + bs[1..];
    }
  }

  /** Byte `i` is digit `i` to base 256: the least significant byte comes first. */
  lemma {:induction false} LittleEndianDigit(n: nat, w: nat, i: nat)
    requires i < w
    ensures LittleEndian(n, w)[i] == n / Pow256(i) % 256
  {
    if i > 0 {
      LittleEndianDigit(n / 256, w - 1, i - 1);
      DivDiv(n, Pow256(i - 1));
    }
  }

  lemma DivDiv(n: nat, p: nat)
    requires p > 0
    ensures n / 256 / p == n / (256 * p)
  {
    var q := n / 256 / p;
    var r := n / 256 % p;
    assert n / 256 == q * p + r;
    assert n == 256 * (q * p + r) + n % 256 == (256 * p) * q + (256 * r + n % 256);
    DivModUnique(n, 256 * p, q, 256 * r + n % 256);
  }

  function U32(n: nat): (bs: seq<byte>)
    ensures |bs| == U32_SIZE
  {
    LittleEndian(n, U32_SIZE)
  }

  function U64(n: nat): (bs: seq<byte>)
    ensures |bs| == U64_SIZE
  {
    LittleEndian(n, U64_SIZE)
  }

  lemma U32RoundTrip(n: u32)
    ensures FromLittleEndian(U32(n)) == n
  {
    Widths();
    LittleEndianRoundTrip(n, U32_SIZE);
  }

  lemma U64RoundTrip(n: u64)
    ensures FromLittleEndian(U64(n)) == n
  {
    Widths();
    LittleEndianRoundTrip(n, U64_SIZE);
  }

  lemma Widths()
    ensures Pow256(4) == 0x1_0000_0000
    ensures Pow256(8) == 0x1_0000_0000_0000_0000
  {
    assert Pow256(2) == 65536;
    assert Pow256(4) == 65536 * Pow256(2);
    assert Pow256(6) == 65536 * Pow256(4);
    assert Pow256(8) == 65536 * Pow256(6);
  }

  /** Two's complement: the bit pattern of a signed value, and back. */
  function ToBits(x: i64): u64 {
    if x < 0 then x + 0x1_0000_0000_0000_0000 else x
  }

  function FromBits(n: u64): i64 {
    if n >= 0x8000_0000_0000_0000 then n - 0x1_0000_0000_0000_0000 else n
  }

  /** `bytes[offset..offset + len]`, absent when the range leaves the buffer. */
  function Slice(bytes: seq<byte>, offset: nat, len: nat): (r: Option<seq<byte>>)
    ensures r.Some? <==> offset + len <= |bytes|
    ensures r.Some? ==> |r.value| == len
  {
    if offset + len <= |bytes| then Some(bytes[offset..offset + len]) else None
  }
}
