/**
 Float division on exact operands. Rounding is not modelled, but division
 by a zero divisor is, taken as +0: the lifetime's divisor `end - start` of
 equal floats is +0, and so is a frame rate of 0. A positive numerator then
 gives +infinity, a negative one -infinity, and 0/0 gives NaN, with which
 every comparison is false.
 */
module Quotient {

  datatype Quotient = Finite(value: real) | PositiveInfinity | NegativeInfinity | NaN

  function Divide(n: real, d: real): (q: Quotient)
    ensures d != 0.0 ==> q.Finite? && q.value * d == n
    ensures d == 0.0 ==> (q.NaN? <==> n == 0.0)
    ensures d == 0.0 ==> (q.PositiveInfinity? <==> n > 0.0) && (q.NegativeInfinity? <==> n < 0.0)
  {
    if d != 0.0 then Finite(n / d)
    else if n > 0.0 then PositiveInfinity
    else if n < 0.0 then NegativeInfinity
    else NaN
  }

  /** The float comparison `q > x`. */
  predicate Above(q: Quotient, x: real) {
    match q
    case Finite(v) => v > x
    case PositiveInfinity => true
    case NegativeInfinity => false
    case NaN => false
  }

  /** The float comparison `q < x`. */
  predicate Below(q: Quotient, x: real) {
    match q
    case Finite(v) => v < x
    case PositiveInfinity => false
    case NegativeInfinity => true
    case NaN => false
  }

  /** The float comparison `x <= q`. */
  predicate AtMost(x: real, q: Quotient) {
    match q
    case Finite(v) => x <= v
    case PositiveInfinity => true
    case NegativeInfinity => false
    case NaN => false
  }

  /** For a positive divisor the quotient compares with 0 and 1 as the
      numerator compares with 0 and the divisor. */
  lemma PositiveDivisor(n: real, d: real)
    requires d > 0.0
    ensures Above(Divide(n, d), 1.0) <==> n > d
    ensures Below(Divide(n, d), 0.0) <==> n < 0.0
  {
    var q := n / d;
    assert Divide(n, d) == Finite(q);
    ScaledCompare(q, n, d);
  }

  /** A quotient q of n by a positive d compares with 1 and 0 as n compares
      with d and 0. */
  lemma ScaledCompare(q: real, n: real, d: real)
    requires d > 0.0 && q * d == n
    ensures q > 1.0 <==> n > d
    ensures q < 0.0 <==> n < 0.0
  {
    if q > 1.0 {
      assert (q - 1.0) * d > 0.0;
    } else {
      assert (1.0 - q) * d >= 0.0;
    }
    if q < 0.0 {
      assert (-q) * d > 0.0;
    } else {
      assert q * d >= 0.0;
    }
  }

  /** For a negative divisor the comparisons flip. */
  lemma NegativeDivisor(n: real, d: real)
    requires d < 0.0
    ensures Above(Divide(n, d), 1.0) <==> n < d
    ensures Below(Divide(n, d), 0.0) <==> n > 0.0
  {
    PositiveDivisor(-n, -d);
    assert n / d == (-n) / (-d);
  }
}
