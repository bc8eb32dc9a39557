/**
 * The transcendental part of `System.MathF`. Each function is a value of
 * the record, so nothing is assumed about it except what a member demands
 * explicitly: `SqrtSound` for the geometry, `TrigSound` for random directions.
 */
module RealMath {

  datatype MathF = MathF(
    sqrt: real -> real,
    sin: real -> real,
    cos: real -> real,
    tan: real -> real,
    atan2: (real, real) -> real,
    pow: (real, real) -> real)

  /** `MathF.PI`, the single-precision constant 3.14159265f, as a real. */
  const PI: real := 3.14159265

  /** `sqrt` returns the non-negative square root of every non-negative argument. */
  ghost predicate SqrtSound(m: MathF)
  {
    forall x: real :: 0.0 <= x ==> 0.0 <= m.sqrt(x) && m.sqrt(x) * m.sqrt(x) == x
  }

  /** `sin` and `cos` satisfy the Pythagorean identity at every angle. */
  ghost predicate TrigSound(m: MathF)
  {
    forall x: real :: m.sin(x) * m.sin(x) + m.cos(x) * m.cos(x) == 1.0
  }

  /** Under a sound `sqrt`, comparing two roots is comparing the radicands. */
  lemma {:induction false} SqrtMonotone(m: MathF, x: real, y: real)
    requires SqrtSound(m) && 0.0 <= x && 0.0 <= y
    ensures m.sqrt(x) < m.sqrt(y) <==> x < y
    ensures m.sqrt(x) == m.sqrt(y) <==> x == y
  {
    var a, b := m.sqrt(x), m.sqrt(y);
    assert a * a == x && b * b == y && a >= 0.0 && b >= 0.0;
    if a < b {
      SquareStrictlyMonotone(a, b);
    } else if b < a {
      SquareStrictlyMonotone(b, a);
    }
  }

  lemma SquareStrictlyMonotone(a: real, b: real)
    requires 0.0 <= a < b
    ensures a * a < b * b
  {
    calc {
      a * a;
    <= { MulLeft(a, a, b); }
      a * b;
    < { assert (b - a) * b > 0.0; }
      b * b;
    }
  }

  lemma MulLeft(c: real, x: real, y: real)
    requires 0.0 <= c && x <= y
    ensures c * x <= c * y
  {
    assert c * (y - x) >= 0.0;
  }

  /** The root of a square of a non-negative number is that number. */
  lemma {:induction false} SqrtOfSquare(m: MathF, a: real)
    requires SqrtSound(m) && 0.0 <= a
    ensures m.sqrt(a * a) == a
  {
    var s := m.sqrt(a * a);
    assert s >= 0.0 && s * s == a * a;
    if s < a {
      SquareStrictlyMonotone(s, a);
    } else if a < s {
      SquareStrictlyMonotone(a, s);
    }
  }

  /** The root of 0 is 0. */
  lemma SqrtOfZero(m: MathF)
    requires SqrtSound(m)
    ensures m.sqrt(0.0) == 0.0
  {
    SqrtOfSquare(m, 0.0);
  }
}
