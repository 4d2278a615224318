/**
 * Single-precision observation values as far as the comparison helper needs them.
 * The helper never computes with floats, it only compares them with `==` and `!=`,
 * so rounding plays no part: a finite float is represented by its exact real value.
 * Reals have a single zero, so `-0.0 == 0.0` holds as it does in IEEE 754.
 */
module Floats {

  datatype Float = Finite(value: real) | PositiveInfinity | NegativeInfinity | NaN

  /**
   * The C# `==` operator on `float`: NaN compares unequal to everything, itself included;
   * every other value equals exactly itself.
   */
  predicate Equal(x: Float, y: Float)
    ensures Equal(x, y) ==> x == y && !x.NaN?
    ensures x == y && !x.NaN? ==> Equal(x, y)
  {
    match (x, y)
    case (Finite(a), Finite(b)) => a == b
    case (PositiveInfinity, PositiveInfinity) => true
    case (NegativeInfinity, NegativeInfinity) => true
    case _ => false
  }
}
