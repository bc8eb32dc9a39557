/** Process-wide settings of the renderer (Common/Global.cs). */
module Global {

  /** The tolerance of every geometric test and of the ray offset (0.00001f). */
  const EPS: real := 0.00001

  /** The deepest recursion level the integrator still traces. */
  const DMAX: nat := 8

  /**
   * Real division with the single-precision result of a zero divisor (an
   * infinity or NaN) collapsed to 0. Used only where the renderer divides
   * by a quantity that is zero in a degenerate scene: the length of a zero
   * vector, the distance from a light to a point on it, a zero channel.
   */
  function Div(a: real, b: real): (q: real)
    ensures b != 0.0 ==> q * b == a
    ensures b == 0.0 ==> q == 0.0
  {
    if b == 0.0 then 0.0 else a / b
  }

  /** `MathF.Abs`. */
  function Abs(x: real): (a: real)
    ensures 0.0 <= a && (a == x || a == -x)
  {
    if x < 0.0 then -x else x
  }
}
