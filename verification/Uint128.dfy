/** Difficulties as pairs of 64-bit words (types/difficulty.go), and the numbers modulo 2^128 that
    stand for them everywhere else. */
module Uint128 {
  import opened Blocks
  import opened Window

  datatype Difficulty = Difficulty(lo: nat, hi: nat)

  predicate Words(d: Difficulty) { d.lo < TWO64 && d.hi < TWO64 }

  function Value(d: Difficulty): nat { d.lo + TWO64 * d.hi }

  /** `bits.Add64`. */
  function Add64(a: nat, b: nat, carry: nat): (nat, nat) { ((a + b + carry) % TWO64, (a + b + carry) / TWO64) }

  /** `bits.Mul64`, high word first. */
  function Mul64Words(a: nat, b: nat): (nat, nat) { (a * b / TWO64, a * b % TWO64) }

  /** `Add`: the carry out of the high word is lost. */
  function Add(d: Difficulty, v: Difficulty): (r: Difficulty)
    requires Words(d) && Words(v)
    ensures Words(r) && Value(r) == Add128(Value(d), Value(v))
  {
    var (lo, carry) := Add64(d.lo, v.lo, 0);
    var (hi, _) := Add64(d.hi, v.hi, carry);
    AddWords(d, v);
    Difficulty(lo, hi)
  }

  lemma AddWords(d: Difficulty, v: Difficulty)
    requires Words(d) && Words(v)
    ensures (d.lo + v.lo) % TWO64 + TWO64 * ((d.hi + v.hi + (d.lo + v.lo) / TWO64) % TWO64)
      == (Value(d) + Value(v)) % TWO128
  {
    var s, t := d.lo + v.lo, d.hi + v.hi + (d.lo + v.lo) / TWO64;
    assert Value(d) + Value(v) == TWO64 * t + s % TWO64;
    Wrap(s % TWO64, t);
  }

  /** A number in words, reduced. */
  lemma Wrap(low: nat, high: nat)
    requires low < TWO64
    ensures (TWO64 * high + low) % TWO128 == TWO64 * (high % TWO64) + low
  {
    var q, r := high / TWO64, high % TWO64;
    assert TWO64 * high + low == TWO128 * q + (TWO64 * r + low);
    assert TWO64 * r + low < TWO128;
    Multiple(q, TWO64 * r + low);
  }

  lemma Multiple(q: nat, r: nat)
    requires r < TWO128
    ensures (TWO128 * q + r) % TWO128 == r
  {
  }

  /** `bits.Sub64`. */
  function Sub64Words(a: nat, b: nat, borrow: nat): (nat, nat) {
    ((a - b - borrow) % TWO64, if a < b + borrow then 1 else 0)
  }

  /** `Sub`: the borrow out of the high word is lost. */
  function Sub(d: Difficulty, v: Difficulty): (r: Difficulty)
    requires Words(d) && Words(v)
    ensures Words(r) && Value(r) == (Value(d) - Value(v)) % TWO128
  {
    var (lo, borrow) := Sub64Words(d.lo, v.lo, 0);
    var (hi, _) := Sub64Words(d.hi, v.hi, borrow);
    SubWords(Difficulty(lo, hi), v, d, borrow);
    Difficulty(lo, hi)
  }

  /** What is added back wraps to where the subtraction started. */
  lemma SubWords(r: Difficulty, v: Difficulty, d: Difficulty, borrow: nat)
    requires Words(d) && Words(v) && borrow == (if d.lo < v.lo then 1 else 0)
    requires r == Difficulty((d.lo - v.lo) % TWO64, (d.hi - v.hi - borrow) % TWO64)
    ensures Value(r) == (Value(d) - Value(v)) % TWO128
  {
    assert r.lo == d.lo - v.lo + TWO64 * borrow;
    var high := if d.hi < v.hi + borrow then 1 else 0;
    assert r.hi == d.hi - v.hi - borrow + TWO64 * high;
    assert Value(r) == Value(d) - Value(v) + TWO128 * high;
  }

  /** `Mul64`: what does not fit is lost. */
  function Mul64(d: Difficulty, v: nat): (r: Difficulty)
    requires Words(d) && v < TWO64
    ensures Words(r) && Value(r) == Value(d) * v % TWO128
  {
    var (hi, lo) := Mul64Words(d.lo, v);
    MulWords(d, v);
    Difficulty(lo, (hi + d.hi * v % TWO64) % TWO64)
  }

  lemma MulWords(d: Difficulty, v: nat)
    requires Words(d) && v < TWO64
    ensures d.lo * v / TWO64 >= 0 && d.hi * v >= 0
    ensures d.lo * v % TWO64 + TWO64 * ((d.lo * v / TWO64 + d.hi * v % TWO64) % TWO64) == Value(d) * v % TWO128
  {
    var low, high := d.lo * v, d.hi * v;
    MulNonNegative(d.lo, v);
    MulNonNegative(d.hi, v);
    assert Value(d) * v == low + TWO64 * high by {
      Distribute(d.lo, d.hi, v);
    }
    SplitProduct(low, high);
  }

  lemma MulNonNegative(a: nat, b: nat)
    ensures a * b >= 0
  {
  }

  lemma Distribute(lo: nat, hi: nat, v: nat)
    ensures (lo + TWO64 * hi) * v == lo * v + TWO64 * (hi * v)
  {
  }

  lemma SplitProduct(low: nat, high: nat)
    ensures low % TWO64 + TWO64 * ((low / TWO64 + high % TWO64) % TWO64) == (low + TWO64 * high) % TWO128
  {
    var t := low / TWO64 + high;
    assert low + TWO64 * high == TWO64 * t + low % TWO64;
    Wrap(low % TWO64, t);
    assert (low / TWO64 + high % TWO64) % TWO64 == t % TWO64;
  }

  /** `Cmp` is the order of the numbers. */
  function Cmp(d: Difficulty, v: Difficulty): (r: int)
    requires Words(d) && Words(v)
    ensures r == if Value(d) == Value(v) then 0 else if Value(d) < Value(v) then -1 else 1
  {
    if d == v then 0 else if d.hi < v.hi || (d.hi == v.hi && d.lo < v.lo) then -1 else 1
  }

  /** What an uncle weighs in words is what `UncleWeight` says in numbers. */
  lemma UncleWeightInWords(c: Consensus, d: Difficulty, p: Difficulty)
    requires Words(d) && Words(p) && Value(p) == Penalty(c, Value(d))
    ensures Value(Sub(d, p)) == UncleWeight(c, Value(d))
  {
  }

  /** `ApplyUnclePenalty` divides an uncle's difficulty: unless the product overflows, the penalty is
      its percentage rounded down and the weight is the rest. */
  lemma PenaltyDividesDifficulty(c: Consensus, d: nat)
    requires ValidConsensus(c) && d * c.unclePenalty < TWO128
    ensures Penalty(c, d) == d * c.unclePenalty / 100 && Penalty(c, d) <= d
    ensures UncleWeight(c, d) == d - Penalty(c, d)
    ensures d > 0 ==> UncleWeight(c, d) > 0
  {
    PenaltySmaller(d, c.unclePenalty);
    AtLeastFactor(d, c.unclePenalty);
  }

  lemma PenaltySmaller(d: nat, p: nat)
    requires 1 <= p <= 99
    ensures 0 <= d * p <= d * 99
  {
    MulNonNegative(d, p);
    MulNonNegative(d, 99 - p);
    assert d * 99 == d * p + d * (99 - p);
  }

  lemma AtLeastFactor(d: nat, p: nat)
    requires p >= 1
    ensures d <= d * p
  {
    MulNonNegative(d, p - 1);
    assert d * p == d + d * (p - 1);
  }
}
