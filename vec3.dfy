/** Three-component vectors and their operators (Common/Vec3.cs). */
module Vectors {
  import opened Global
  import opened RealMath

  datatype Vec3 = Vec3(x: real, y: real, z: real)

  const Zero: Vec3 := Vec3(0.0, 0.0, 0.0)

  function Add(a: Vec3, b: Vec3): Vec3 { Vec3(a.x + b.x, a.y + b.y, a.z + b.z) }

  function Sub(a: Vec3, b: Vec3): Vec3 { Vec3(a.x - b.x, a.y - b.y, a.z - b.z) }

  function Scale(a: Vec3, f: real): Vec3 { Vec3(a.x * f, a.y * f, a.z * f) }

  /** Unary minus is defined as scaling by -1. */
  function Neg(a: Vec3): Vec3 { Scale(a, -1.0) }

  /** The dot product (operator `*` between two vectors). */
  function Dot(a: Vec3, b: Vec3): real { a.x * b.x + a.y * b.y + a.z * b.z }

  /** The cross product (operator `%`). */
  function Cross(a: Vec3, b: Vec3): Vec3
  {
    Vec3(a.y * b.z - a.z * b.y, a.z * b.x - a.x * b.z, a.x * b.y - a.y * b.x)
  }

  /** The dot product of a vector with itself. */
  function Square(a: Vec3): real { Dot(a, a) }

  function Length(a: Vec3, m: MathF): real { m.sqrt(Square(a)) }

  /** `this * (1f / Length)`; a zero vector stays zero (see Global.Div). */
  function Normalize(a: Vec3, m: MathF): Vec3 { Scale(a, Div(1.0, Length(a, m))) }

  // ---------------------------------------------------------------------
  // Algebra of the operators
  // ---------------------------------------------------------------------

  lemma CrossSelfIsZero(a: Vec3)
    ensures Cross(a, a) == Zero
  {
  }

  lemma CrossIsOrthogonal(a: Vec3, b: Vec3)
    ensures Dot(Cross(a, b), a) == 0.0 && Dot(Cross(a, b), b) == 0.0
  {
  }

  lemma CrossAntiCommutes(a: Vec3, b: Vec3)
    ensures Cross(a, b) == Neg(Cross(b, a))
  {
  }

  lemma DotCommutes(a: Vec3, b: Vec3)
    ensures Dot(a, b) == Dot(b, a)
  {
  }

  lemma {:induction false} SquareIsNonNegative(a: Vec3)
    ensures Square(a) >= 0.0
    ensures Square(a) == 0.0 <==> a == Zero
  {
    assert a.x * a.x >= 0.0 && a.y * a.y >= 0.0 && a.z * a.z >= 0.0;
    if Square(a) == 0.0 {
      assert a.x * a.x == 0.0 && a.y * a.y == 0.0 && a.z * a.z == 0.0;
      ZeroSquare(a.x);
      ZeroSquare(a.y);
      ZeroSquare(a.z);
    }
  }

  lemma ZeroSquare(r: real)
    requires r * r == 0.0
    ensures r == 0.0
  {
    if r != 0.0 {
      calc {
        0.0;
      < { PositiveSquare(r); }
        r * r;
      ==
        0.0;
      }
    }
  }

  lemma PositiveSquare(r: real)
    requires r != 0.0
    ensures 0.0 < r * r
  {
    if r < 0.0 {
      calc {
        r * r;
        (-r) * (-r);
      }
    }
  }

  lemma AddSubCancels(a: Vec3, b: Vec3)
    ensures Sub(Add(a, b), b) == a
  {
  }

  lemma NegIsScaleByMinusOne(a: Vec3)
    ensures Neg(a) == Vec3(-a.x, -a.y, -a.z)
  {
  }

  lemma DotAddLeft(a: Vec3, b: Vec3, c: Vec3)
    ensures Dot(Add(a, b), c) == Dot(a, c) + Dot(b, c)
  {
  }

  lemma DotSubLeft(a: Vec3, b: Vec3, c: Vec3)
    ensures Dot(Sub(a, b), c) == Dot(a, c) - Dot(b, c)
  {
  }

  lemma DotScaleLeft(a: Vec3, f: real, c: Vec3)
    ensures Dot(Scale(a, f), c) == f * Dot(a, c)
  {
  }

  lemma DotScaleRight(a: Vec3, f: real, c: Vec3)
    ensures Dot(a, Scale(c, f)) == f * Dot(a, c)
  {
  }

  lemma {:induction false} SquareOfScale(a: Vec3, f: real)
    ensures Square(Scale(a, f)) == f * f * Square(a)
  {
    assert (a.x * f) * (a.x * f) == f * f * (a.x * a.x);
    assert (a.y * f) * (a.y * f) == f * f * (a.y * a.y);
    assert (a.z * f) * (a.z * f) == f * f * (a.z * a.z);
  }

  /** Scaling a vector orthogonal to another keeps it orthogonal. */
  lemma ScalePreservesOrthogonality(a: Vec3, f: real, c: Vec3)
    requires Dot(a, c) == 0.0
    ensures Dot(Scale(a, f), c) == 0.0 && Dot(c, Scale(a, f)) == 0.0
  {
    DotScaleLeft(a, f, c);
  }

  /** A sound square root gives every non-zero vector a positive length. */
  lemma {:induction false} LengthPositive(a: Vec3, m: MathF)
    requires SqrtSound(m) && a != Zero
    ensures Length(a, m) > 0.0
    ensures Length(a, m) * Length(a, m) == Square(a)
  {
    SquareIsNonNegative(a);
  }

  /** Normalising a non-zero vector gives a unit vector. */
  lemma {:induction false} NormalizeIsUnit(a: Vec3, m: MathF)
    requires SqrtSound(m) && a != Zero
    ensures Square(Normalize(a, m)) == 1.0
  {
    var len := Length(a, m);
    LengthPositive(a, m);
    SquareOfScale(a, 1.0 / len);
    assert (1.0 / len) * (1.0 / len) * (len * len) == 1.0;
  }

  /** The same, for a caller that does not know whether its vector is zero. */
  lemma NormalizeIsUnitWhenSound(a: Vec3, m: MathF)
    ensures SqrtSound(m) && a != Zero ==> Square(Normalize(a, m)) == 1.0
  {
    if SqrtSound(m) && a != Zero {
      NormalizeIsUnit(a, m);
    }
  }

  /** Under a sound sqrt, `Normalize` gives a unit vector, or the zero vector for zero. */
  lemma NormalizeIsUnitOrZero(a: Vec3, m: MathF)
    ensures SqrtSound(m) ==> Normalize(a, m) == Zero || Square(Normalize(a, m)) == 1.0
  {
    if a == Zero {
      assert Normalize(a, m) == Zero;
    } else {
      NormalizeIsUnitWhenSound(a, m);
    }
  }

  lemma SquareOfSum(a: real, b: real, t: real)
    ensures (a + b * t) * (a + b * t) == a * a + 2.0 * t * (a * b) + t * t * (b * b)
  {
  }

  lemma Distribute(k: real, a: real, b: real, c: real)
    ensures k * (a + b + c) == k * a + k * b + k * c
  {
  }

  /** The squared length along a line u + w·t is a quadratic in t. */
  lemma {:induction false} SquareAlongLine(u: Vec3, w: Vec3, t: real)
    ensures Square(Add(u, Scale(w, t))) == Square(u) + 2.0 * t * Dot(u, w) + t * t * Square(w)
    ensures Square(Add(u, Scale(w, t))) == Square(u) + 2.0 * t * Dot(w, u) + t * t * Square(w)
  {
    SquareOfSum(u.x, w.x, t);
    SquareOfSum(u.y, w.y, t);
    SquareOfSum(u.z, w.z, t);
    Distribute(2.0 * t, u.x * w.x, u.y * w.y, u.z * w.z);
    Distribute(t * t, w.x * w.x, w.y * w.y, w.z * w.z);
    DotCommutes(u, w);
  }
}
