/** Value statistics and predicates over 64-bit floating point numbers. */
module Pruning {
  import opened Types

  /** IEEE 754 numbers up to the sign of zero, which no comparison sees. */
  datatype Float = NaN | NegInf | Finite(r: real) | PosInf

  predicate Less(a: Float, b: Float) {
    match (a, b)
    case (NaN, _) => false
    case (_, NaN) => false
    case (NegInf, _) => b != NegInf
    case (_, NegInf) => false
    case (_, PosInf) => a != PosInf
    case (PosInf, _) => false
    case (Finite(x), Finite(y)) => x < y
  }

  predicate LessEq(a: Float, b: Float) {
    Less(a, b) || (a == b && a != NaN)
  }

  /** The minNum and maxNum operations of section 5.3.1 of IEEE 754-2008: a number wins over NaN. */
  function MinNum(a: Float, b: Float): Float {
    if a == NaN then b else if b == NaN || LessEq(a, b) then a else b
  }

  function MaxNum(a: Float, b: Float): Float {
    if a == NaN then b else if b == NaN || LessEq(b, a) then a else b
  }

  datatype Stats = Stats(min: Float, max: Float)

  function FoldMin(vs: seq<Float>): Float
    requires vs != []
  {
    if |vs| == 1 then vs[0] else MinNum(FoldMin(vs[..|vs| - 1]), vs[|vs| - 1])
  }

  function FoldMax(vs: seq<Float>): Float
    requires vs != []
  {
    if |vs| == 1 then vs[0] else MaxNum(FoldMax(vs[..|vs| - 1]), vs[|vs| - 1])
  }

  /** Minimum and maximum of a column; absent for an empty one. */
  function FromValues(vs: seq<Float>): Option<Stats> {
    if vs == [] then None else Some(Stats(FoldMin(vs), FoldMax(vs)))
  }

  datatype Predicate = GreaterThan(t: Float) | LessThan(t: Float) | Between(lo: Float, hi: Float)

  /** Whether a chunk with these statistics can contain a matching point. */
  predicate Matches(p: Predicate, s: Stats) {
    match p
    case GreaterThan(t) => Less(t, s.max)
    case LessThan(t) => Less(s.min, t)
    case Between(lo, hi) => LessEq(s.min, hi) && LessEq(lo, s.max)
  }

  predicate Satisfies(p: Predicate, v: Float) {
    match p
    case GreaterThan(t) => Less(t, v)
    case LessThan(t) => Less(v, t)
    case Between(lo, hi) => LessEq(lo, v) && LessEq(v, hi)
  }

  /** The fold bounds every number of the column, and is itself one of its values. */
  lemma {:induction false} FoldBounds(vs: seq<Float>)
    requires vs != []
    ensures FoldMin(vs) in vs && FoldMax(vs) in vs
    ensures forall v :: v in vs && v != NaN ==> LessEq(FoldMin(vs), v) && LessEq(v, FoldMax(vs))
  {
    if |vs| > 1 {
      var n := |vs| - 1;
      FoldBounds(vs[..n]);
      assert vs == vs[..n] + [vs[n]];
    }
  }

  /** Statistics never rule out a chunk that holds a matching value. */
  lemma StatsNeverDropMatch(vs: seq<Float>, v: Float, p: Predicate)
    requires v in vs && Satisfies(p, v)
    ensures FromValues(vs).Some? && Matches(p, FromValues(vs).value)
  {
    FoldBounds(vs);
  }

  /** For one-sided predicates the statistics are exact: a chunk is kept only if some value matches. */
  lemma OneSidedStatsExact(vs: seq<Float>, p: Predicate)
    requires vs != [] && !p.Between?
    ensures Matches(p, FromValues(vs).value) <==> exists v :: v in vs && Satisfies(p, v)
  {
    FoldBounds(vs);
    if v :| v in vs && Satisfies(p, v) {
      StatsNeverDropMatch(vs, v, p);
    }
  }

  /** For a closed interval they are exact about each end: some value is not above it, and some value is not below it. */
  lemma BetweenStatsExact(vs: seq<Float>, lo: Float, hi: Float)
    requires vs != []
    ensures Matches(Between(lo, hi), FromValues(vs).value) <==>
            (exists v :: v in vs && LessEq(v, hi)) && exists v :: v in vs && LessEq(lo, v)
  {
    FoldBounds(vs);
    var min, max := FoldMin(vs), FoldMax(vs);
    if v :| v in vs && LessEq(v, hi) {
      LessEqTrans(min, v, hi);
    }
    if v :| v in vs && LessEq(lo, v) {
      LessEqTrans(lo, v, max);
    }
  }

  lemma LessEqTrans(a: Float, b: Float, c: Float)
    requires LessEq(a, b) && LessEq(b, c)
    ensures LessEq(a, c)
  {
  }

  /** Numbers are ordered like the extended real line, and NaN is not comparable with anything. */
  lemma OrderExact(a: Float, b: Float)
    ensures Less(a, b) || Less(b, a) <==> a != b && a != NaN && b != NaN
    ensures Less(a, b) ==> !Less(b, a)
    ensures a.Finite? && b.Finite? ==> (Less(a, b) <==> a.r < b.r)
    ensures a != NaN && a != NegInf ==> Less(NegInf, a)
    ensures a != NaN && a != PosInf ==> Less(a, PosInf)
  {
  }

  /** The interval of a value predicate is what the two one-sided predicates leave out; NaN satisfies none of the three. */
  lemma BetweenExact(lo: Float, hi: Float, v: Float)
    ensures Satisfies(Between(lo, hi), v) <==>
            lo != NaN && hi != NaN && v != NaN && !Satisfies(LessThan(lo), v) && !Satisfies(GreaterThan(hi), v)
    ensures Satisfies(GreaterThan(lo), v) <==> Less(lo, v)
    ensures Satisfies(LessThan(hi), v) <==> Less(v, hi)
    ensures lo.Finite? && hi.Finite? && v.Finite? ==> (Satisfies(Between(lo, hi), v) <==> lo.r <= v.r <= hi.r)
  {
    OrderExact(lo, v);
    OrderExact(v, hi);
  }
}
