/**
  The part of JavaScript's number type that the aggregation can produce:
  an exact real value, `NaN` (from 0/0) or an infinity (from a non-zero
  amount divided by a zero total). Finite values are exact rationals here;
  the rounding of IEEE doubles is not modelled.
 */
module Numbers {

  datatype Number = Num(value: real) | NaN | Infinity(positive: bool)

  /** `Math.round(x)` on a finite value: the nearest integer, halves rounded up. */
  function Round(x: real): (r: int)
    ensures r as real - 0.5 <= x < r as real + 0.5
  {
    (x + 0.5).Floor
  }

  /** A value already integral is its own rounding. */
  lemma RoundIntegral(k: int)
    ensures Round(k as real) == k
  {
  }

  function Abs(x: real): (r: real)
    ensures r >= 0.0 && (r == x || r == -x)
  {
    if x < 0.0 then -x else x
  }

  /**
    `num / den` where the running total `den` is the positive zero when it
    is zero (sums that start at 0 and cancel exactly give +0).
   */
  function Divide(num: real, den: real): (r: Number)
    ensures den != 0.0 ==> r.Num? && r.value * den == num
    ensures den == 0.0 ==> !r.Num? && (r.NaN? <==> num == 0.0)
    ensures r.Infinity? ==> (r.positive <==> num > 0.0)
  {
    if den != 0.0 then Num(num / den)
    else if num == 0.0 then NaN
    else Infinity(num > 0.0)
  }

  /** `n > bound`: false for NaN, the sign of an infinity decides. */
  predicate Exceeds(n: Number, bound: real)
  {
    match n
    case Num(v) => v > bound
    case NaN => false
    case Infinity(positive) => positive
  }

  /** `x` has no fractional part. */
  predicate Integral(x: real)
  {
    x == x.Floor as real
  }

  /** `n` is an integer between `lo` and `hi`. */
  predicate IntegerIn(n: Number, lo: int, hi: int)
  {
    n.Num? && Integral(n.value) && lo as real <= n.value <= hi as real
  }
}
