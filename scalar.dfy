/**
 * Scalar arithmetic shared by the vector, quaternion, matrix and colour types.
 *
 * The engine computes in IEEE-754 single precision; this model computes in exact reals.
 * The C library functions it calls (`sqrtf`, `powf`, `acosf`, `sinf`) are uninterpreted
 * constants, and so is the value a division by zero produces (an infinity or a NaN).
 */
module Scalar {

  /** A square root about which nothing is known except that it is exact at 0 and at 1. */
  type RootFunction = f: real -> real | f(0.0) == 0.0 && f(1.0) == 1.0
    witness (x: real) => if x == 1.0 then 1.0 else 0.0

  /** `sqrtf` */
  const Sqrt: RootFunction
  /** `std::pow` on floats */
  const Pow: (real, real) -> real
  /** `acosf` */
  const Acos: real -> real
  /** `sinf` */
  const Sin: real -> real
  /** The non-finite value (an infinity or a NaN) of `a / 0.0f`. */
  const DivideByZero: real -> real

  /** The `1e-6f` threshold of the normalisation, inversion and angle guards. */
  const Epsilon: real := 0.000001

  /** Floating-point division: exact when the divisor is not zero. */
  function Quot(a: real, b: real): (r: real)
    ensures b != 0.0 ==> r * b == a
    ensures b == 1.0 ==> r == a
  {
    if b == 0.0 then DivideByZero(a) else a / b
  }

  function Abs(x: real): (r: real)
    ensures r >= 0.0 && (r == x || r == -x)
  {
    if x < 0.0 then -x else x
  }

  /**
   * `std::clamp(v, lo, hi)` as the standard library computes it: `lo` when `v < lo`,
   * otherwise `hi` when `hi < v`, otherwise `v`.
   */
  function Clamp(v: real, lo: real, hi: real): (r: real)
    ensures lo <= hi ==> lo <= r <= hi
    ensures lo <= v <= hi ==> r == v
    ensures r == v || r == lo || r == hi
  {
    if v < lo then lo else if hi < v then hi else v
  }

  /** The five arithmetic operators the math types overload: `+ - * / ^` (`^` is `std::pow`). */
  datatype Op = Add | Sub | Mul | Div | Exp

  /** One operator applied to two scalars. */
  function Apply(op: Op, a: real, b: real): real
  {
    match op
    case Add => a + b
    case Sub => a - b
    case Mul => a * b
    case Div => Quot(a, b)
    case Exp => Pow(a, b)
  }

  /** `std::floor` */
  function Floor(x: real): (r: int)
    ensures r as real <= x < r as real + 1.0
  {
    x.Floor
  }
}
