/**
 * Double-precision values as numpy and pandas produce them: a finite value, an infinity or NaN.
 * Rounding and signed zeros are not modelled; a finite value is an exact real.
 */
module Floats {

  datatype Float = Fin(v: real) | PosInf | NegInf | NaN

  /** Strict order of the extended reals, ignoring NaN. */
  predicate Below(a: Float, b: Float)
    requires !a.NaN? && !b.NaN?
  {
    match a
    case NegInf => !b.NegInf?
    case PosInf => false
    case Fin(x) => b.PosInf? || (b.Fin? && x < b.v)
  }

  /** `a < b`; false whenever either side is NaN. */
  predicate Lt(a: Float, b: Float)
  {
    !a.NaN? && !b.NaN? && Below(a, b)
  }

  /** `a <= b`; false whenever either side is NaN. */
  predicate Le(a: Float, b: Float)
  {
    !a.NaN? && !b.NaN? && (a == b || Below(a, b))
  }

  /** `a > b`; false whenever either side is NaN. */
  predicate Gt(a: Float, b: Float)
  {
    Lt(b, a)
  }

  function Add(a: Float, b: Float): Float
  {
    match (a, b)
    case (NaN, _) => NaN
    case (_, NaN) => NaN
    case (PosInf, NegInf) => NaN
    case (NegInf, PosInf) => NaN
    case (PosInf, _) => PosInf
    case (_, PosInf) => PosInf
    case (NegInf, _) => NegInf
    case (_, NegInf) => NegInf
    case (Fin(x), Fin(y)) => Fin(x + y)
  }

  /** An infinity with the sign of the product of two signs. */
  function SignedInf(positive: bool): Float
  {
    if positive then PosInf else NegInf
  }

  function Mul(a: Float, b: Float): Float
  {
    match (a, b)
    case (NaN, _) => NaN
    case (_, NaN) => NaN
    case (Fin(x), Fin(y)) => Fin(x * y)
    case (Fin(x), _) => if x == 0.0 then NaN else SignedInf((x > 0.0) == b.PosInf?)
    case (_, Fin(y)) => if y == 0.0 then NaN else SignedInf((y > 0.0) == a.PosInf?)
    case (_, _) => SignedInf(a == b)
  }

  /** Division; a zero divisor is taken as +0.0, which is what every division in the model divides by. */
  function Div(a: Float, b: Float): Float
  {
    match (a, b)
    case (NaN, _) => NaN
    case (_, NaN) => NaN
    case (Fin(x), Fin(y)) =>
      if y != 0.0 then Fin(x / y)
      else if x == 0.0 then NaN
      else SignedInf(x > 0.0)
    case (Fin(_), _) => Fin(0.0)
    case (_, Fin(y)) => SignedInf(a.PosInf? == (y >= 0.0))
    case (_, _) => NaN
  }

  /** The mean of two values, `(a + b) / 2`. */
  function Half(a: Float, b: Float): Float
  {
    Div(Add(a, b), Fin(2.0))
  }

  /** A finite value that is not below zero. */
  predicate NonNegative(a: Float)
  {
    a.Fin? && a.v >= 0.0
  }

  /**
   * `np.log` of an integer argument. The natural logarithm itself is the parameter `ln`, which the
   * model only uses above 1, where it is positive.
   */
  function Log(n: int, ln: real -> real): (r: Float)
    ensures n < 0 <==> r.NaN?
    ensures n == 0 <==> r.NegInf?
    ensures n == 1 ==> r == Fin(0.0)
  {
    if n < 0 then NaN
    else if n == 0 then NegInf
    else if n == 1 then Fin(0.0)
    else Fin(ln(n as real))
  }

  /** `ln` is positive above 1, as the natural logarithm is. */
  ghost predicate LogPositive(ln: real -> real)
  {
    forall x: real :: x > 1.0 ==> ln(x) > 0.0
  }

  /** Nothing is below, at or above NaN. */
  lemma NaNIncomparable(a: Float)
    ensures !Lt(a, NaN) && !Lt(NaN, a) && !Le(a, NaN) && !Le(NaN, a)
  {
  }

  /** The mean of two non-negative finite values is a non-negative finite value. */
  lemma HalfNonNegative(a: Float, b: Float)
    requires NonNegative(a) && NonNegative(b)
    ensures NonNegative(Half(a, b)) && Half(a, b).v == (a.v + b.v) / 2.0
  {
  }
}
