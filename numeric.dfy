/** Scalars as the renderer uses them: `f64` values taken as exact reals plus the
    IEEE-754 special values, the unsigned integer types, and Rust's saturating
    float-to-integer cast. */
module Numeric {

  datatype Option<+T> = None | Some(value: T)

  type u8 = x: int | 0 <= x < 0x100
  type u32 = x: int | 0 <= x < 0x1_0000_0000

  const U8_MAX: u8 := 0xff
  const U32_MAX: u32 := 0xffff_ffff

  /** An `f64` without rounding: a finite real, one of the two infinities, or NaN. */
  datatype Float = Finite(val: real) | PosInf | NegInf | NaN

  /** IEEE-754 `<`; every comparison with NaN is false. */
  predicate Lt(a: Float, b: Float) {
    match (a, b)
    case (Finite(x), Finite(y)) => x < y
    case (NegInf, Finite(_)) => true
    case (NegInf, PosInf) => true
    case (Finite(_), PosInf) => true
    case _ => false
  }

  /** IEEE-754 `<=`. */
  predicate Le(a: Float, b: Float) {
    Lt(a, b) || (a == b && !a.NaN?)
  }

  lemma LtIsStrict(a: Float, b: Float)
    ensures Lt(a, b) ==> Le(a, b) && !Lt(b, a) && a != b
  {
  }

  lemma LeTransitive(a: Float, b: Float, c: Float)
    ensures Le(a, b) && Le(b, c) ==> Le(a, c)
    ensures Le(a, b) && Lt(b, c) ==> Lt(a, c)
    ensures Lt(a, b) && Le(b, c) ==> Lt(a, c)
  {
  }

  /** On values other than NaN, `<` and `>=` are complementary. */
  lemma LtTotal(a: Float, b: Float)
    requires !a.NaN? && !b.NaN?
    ensures Lt(a, b) || Le(b, a)
  {
  }

  /** IEEE-754 subtraction; `inf - inf` of one sign is NaN. */
  function Sub(a: Float, b: Float): Float {
    match (a, b)
    case (NaN, _) => NaN
    case (_, NaN) => NaN
    case (Finite(x), Finite(y)) => Finite(x - y)
    case (PosInf, PosInf) => NaN
    case (NegInf, NegInf) => NaN
    case (PosInf, _) => PosInf
    case (NegInf, _) => NegInf
    case (Finite(_), PosInf) => NegInf
    case (Finite(_), NegInf) => PosInf
  }

  /** IEEE-754 division of two finite values: by zero it gives an infinity of the
      dividend's sign, and `0/0` is NaN (the divisor is taken as `+0.0`). */
  function Quotient(x: real, y: real): (q: Float)
    ensures y != 0.0 ==> q == Finite(x / y)
    ensures y == 0.0 ==> !q.Finite?
  {
    if y != 0.0 then Finite(x / y)
    else if x > 0.0 then PosInf
    else if x < 0.0 then NegInf
    else NaN
  }

  /** `f64::abs`. */
  function Abs(a: Float): (r: Float)
    ensures !a.NaN? ==> Le(Finite(0.0), r)
  {
    match a
    case Finite(x) => Finite(if x < 0.0 then -x else x)
    case NegInf => PosInf
    case _ => a
  }

  /** Truncation of a real toward zero. */
  function TruncTowardZero(x: real): (n: int)
    ensures 0.0 <= x ==> 0 <= n && n as real <= x < n as real + 1.0
    ensures x <= 0.0 ==> n <= 0 && n as real - 1.0 < x <= n as real
  {
    if x >= 0.0 then x.Floor else -((-x).Floor)
  }

  /** `f64::trunc`. */
  function Trunc(a: Float): Float {
    match a
    case Finite(x) => Finite(TruncTowardZero(x) as real)
    case _ => a
  }

  /** Rust's `x as uN` for an `f64` x, where `max` is `uN::MAX`: the fraction is
      truncated toward zero, out-of-range values saturate, NaN becomes 0. */
  function CastUnsigned(a: Float, max: nat): (n: nat)
    ensures n <= max
    ensures a.NaN? || a.NegInf? ==> n == 0
    ensures a.PosInf? ==> n == max
    ensures a.Finite? && a.val <= 0.0 ==> n == 0
    ensures a.Finite? && a.val >= max as real ==> n == max
    ensures a.Finite? && 0.0 <= a.val < max as real + 1.0 ==> n == TruncTowardZero(a.val)
  {
    match a
    case NaN => 0
    case NegInf => 0
    case PosInf => max
    case Finite(x) =>
      if x <= 0.0 then 0
      else if x >= max as real then max
      else x.Floor
  }

  /** `sqrt` is any function that gives the non-negative square root of a
      non-negative real, as `f64::sqrt` does up to rounding. */
  ghost predicate IsSqrt(sqrt: real -> real) {
    forall x: real :: 0.0 <= x ==> 0.0 <= sqrt(x) && sqrt(x) * sqrt(x) == x
  }
}
