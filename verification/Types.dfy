/** Values shared by every layer of the storage engine. */
module Types {

  datatype Option<+T> = None | Some(value: T)

  datatype Result<+T, +E> = Ok(value: T) | Err(error: E) {
    predicate IsFailure() {
      Err?
    }

    function PropagateFailure<U>(): Result<U, E>
      requires Err?
    {
      Err(error)
    }

    function Extract(): T
      requires Ok?
    {
      value
    }
  }

  type byte = x: int | 0 <= x < 0x100
  type u32 = x: int | 0 <= x < 0x1_0000_0000
  type u64 = x: int | 0 <= x < 0x1_0000_0000_0000_0000
  type i64 = x: int | -0x8000_0000_0000_0000 <= x < 0x8000_0000_0000_0000

  /** The UTF-8 bytes of a string. */
  type Text = seq<byte>

  /** A stored 64-bit floating point value, as its bit pattern. */
  type F64 = u64

  /** Metric name plus the complete tag set. */
  datatype SeriesKey = SeriesKey(metric: Text, tags: map<Text, Text>)

  /** One measurement of one series. */
  datatype DataPoint = DataPoint(key: SeriesKey, ts: i64, value: F64)

  /** What a point is stored under: a later point for the same slot overwrites it. */
  type Slot = (SeriesKey, i64)

  function SlotOf(p: DataPoint): Slot {
    (p.key, p.ts)
  }

  lemma Assoc<T>(a: seq<T>, b: seq<T>, c: seq<T>)
    ensures a + b + c == a + (b + c)
  {
  }

  /** Quotient and remainder are unique. */
  lemma DivModUnique(x: nat, n: nat, q: nat, r: nat)
    requires n > 0 && x == n * q + r && r < n
    ensures x / n == q && x % n == r
  {
    MulGrows(n, x / n - q);
  }

  lemma MulGrows(n: nat, d: int)
    ensures d >= 1 ==> n * d >= n
    ensures d <= -1 ==> n * d + n <= 0
  {
  }

  type SeriesId = u64
  type ChunkId = u64

  /** The points of one series, in time order. */
  type Points = seq<(i64, F64)>

  /** The points with `lo <= timestamp <= hi`. */
  function InRange(ps: Points, lo: i64, hi: i64): Points {
    if ps == [] then []
    else if lo <= ps[0].0 <= hi then [ps[0]] + InRange(ps[1..], lo, hi)
    else InRange(ps[1..], lo, hi)
  }

  /** A range keeps exactly the points whose time is in it. */
  lemma {:induction false} InRangeExact(v: Points, lo: i64, hi: i64)
    ensures forall p :: p in InRange(v, lo, hi) <==> p in v && lo <= p.0 <= hi
  {
    if v != [] {
      InRangeExact(v[1..], lo, hi);
      assert v == [v[0]] + v[1..];
    }
  }

  /** A query selects a series by metric name and by all its tag filters. */
  predicate Selects(metric: Text, filters: map<Text, Text>, key: SeriesKey) {
    key.metric == metric && forall k :: k in filters ==> k in key.tags && key.tags[k] == filters[k]
  }
}
