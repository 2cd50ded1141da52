/**
  Java `double` values as they arise in the estimator: every finite value is
  an exact real (rounding is not modelled), and the only non-finite values the
  code can produce come from dividing by a zero count.
 */
module Doubles {

  datatype Double = Finite(value: real) | NaN | PositiveInfinity | NegativeInfinity

  /** Java's `a / b` on two finite doubles, without rounding: dividing by zero
      gives NaN for a zero numerator and a signed infinity otherwise. */
  function Divide(a: real, b: real): Double
  {
    if b != 0.0 then Finite(a / b)
    else if a == 0.0 then NaN
    else if a > 0.0 then PositiveInfinity
    else NegativeInfinity
  }
}
