/**
 * The root selection shared by the sphere, cylinder and cone intersections:
 * a quadratic a·t² + b·t + c with discriminant b² − 4ac.
 */
module Quadratics {
  import opened Wrappers
  import opened Global
  import opened RealMath
  import opened Vectors

  /** The coefficients a, b, c of a·t² + b·t + c. */
  datatype Coefficients = Coefficients(a: real, b: real, c: real)

  /** The value a·t² + b·t + c. */
  function Eval(q: Coefficients, t: real): real
  {
    q.a * t * t + q.b * t + q.c
  }

  function Discriminant(a: real, b: real, c: real): real
  {
    b * b - 4.0 * a * c
  }

  /** `(-b + sqrt(discr)) / 2 / a`. */
  function UpperRoot(a: real, b: real, discr: real, m: MathF): real
  {
    Div(Div(-b + m.sqrt(discr), 2.0), a)
  }

  /** `(-b - sqrt(discr)) / 2 / a`. */
  function LowerRoot(a: real, b: real, discr: real, m: MathF): real
  {
    Div(Div(-b - m.sqrt(discr), 2.0), a)
  }

  /** `-b / 2 / a`, taken when the discriminant is within EPS of zero. */
  function TangentRoot(a: real, b: real): real
  {
    Div(Div(-b, 2.0), a)
  }

  /**
   * The choice among two roots: the smaller of those that are valid
   * (`Math.Min` when both are), and -1 when neither is.
   */
  function PickRoot(t1: real, ok1: bool, t2: real, ok2: bool): (t: real)
    ensures ok1 || ok2 ==> (ok1 && t == t1) || (ok2 && t == t2)
    ensures ok1 ==> t <= t1
    ensures ok2 ==> t <= t2
    ensures !ok1 && !ok2 ==> t == -1.0
  {
    if ok1 && ok2 then (if t1 < t2 then t1 else t2)
    else if ok1 then t1
    else if ok2 then t2
    else -1.0
  }

  /**
   * A root is valid when it lies beyond EPS and passes the caller's extra
   * test (`inside`: always true for the sphere, between the caps for the
   * cylinder and the cone side).
   */
  predicate ValidRoot(t: real, inside: real -> bool)
  {
    t > EPS && inside(t)
  }

  /**
   * The parameter of the hit, if any: no hit for a negative discriminant;
   * the tangent root when |discr| < EPS (without the `inside` test); otherwise
   * the smaller valid root; and no hit if the result lies before EPS.
   */
  function QuadraticHit(a: real, b: real, c: real, inside: real -> bool, m: MathF): (r: Option<real>)
    ensures Discriminant(a, b, c) < 0.0 ==> r.None?
    ensures r.Some? ==> r.value >= EPS
    ensures 0.0 <= Discriminant(a, b, c) < EPS ==>
              (r.Some? ==> r.value == TangentRoot(a, b)) && (TangentRoot(a, b) >= EPS ==> r.Some?)
    ensures Discriminant(a, b, c) >= EPS ==>
              var t1 := UpperRoot(a, b, Discriminant(a, b, c), m);
              var t2 := LowerRoot(a, b, Discriminant(a, b, c), m);
              && (r.Some? ==> (r.value == t1 && ValidRoot(t1, inside)) || (r.value == t2 && ValidRoot(t2, inside)))
              && (ValidRoot(t1, inside) ==> r.Some? && r.value <= t1)
              && (ValidRoot(t2, inside) ==> r.Some? && r.value <= t2)
  {
    var discr := Discriminant(a, b, c);
    if discr < 0.0 then None
    else
      var t :=
        if Abs(discr) < EPS then TangentRoot(a, b)
        else
          var t1 := UpperRoot(a, b, discr, m);
          var t2 := LowerRoot(a, b, discr, m);
          PickRoot(t1, ValidRoot(t1, inside), t2, ValidRoot(t2, inside));
      if t < EPS then None else Some(t)
  }

  /** Both quadratic-formula roots solve the equation when the square root is exact. */
  lemma {:induction false} RootSolves(q: Coefficients, t: real, m: MathF)
    requires SqrtSound(m) && q.a != 0.0 && Discriminant(q.a, q.b, q.c) >= 0.0
    requires t == UpperRoot(q.a, q.b, Discriminant(q.a, q.b, q.c), m)
          || t == LowerRoot(q.a, q.b, Discriminant(q.a, q.b, q.c), m)
    ensures Eval(q, t) == 0.0
  {
    RootSolvesEquation(q.a, q.b, q.c, t, m.sqrt(Discriminant(q.a, q.b, q.c)));
  }

  lemma {:induction false} RootSolvesEquation(a: real, b: real, c: real, t: real, s: real)
    requires a != 0.0 && s * s == b * b - 4.0 * a * c
    requires t == Div(Div(-b + s, 2.0), a) || t == Div(Div(-b - s, 2.0), a)
    ensures a * t * t + b * t + c == 0.0
  {
    var u := 2.0 * a * t;
    assert u == -b + s || u == -b - s;
    assert 4.0 * a * (a * t * t + b * t + c) == u * u + 2.0 * b * u + 4.0 * a * c;
    assert u * u + 2.0 * b * u + 4.0 * a * c == s * s - b * b + 4.0 * a * c;
    assert a * (a * t * t + b * t + c) == 0.0;
  }

  /** A real zero of the quadratic forces a non-negative discriminant. */
  lemma {:induction false} ZeroNeedsDiscriminant(q: Coefficients, t: real)
    requires Eval(q, t) == 0.0
    ensures Discriminant(q.a, q.b, q.c) >= 0.0
  {
    var a, b, c := q.a, q.b, q.c;
    var u := 2.0 * a * t + b;
    assert Discriminant(a, b, c) == u * u - 4.0 * a * (a * t * t + b * t + c);
    assert u * u >= 0.0;
  }

  /**
   * |u + w·t|² − R written as a·t² + b·t + c, with x = |u|², y = u·w,
   * z = |w|², a = z, b = 2y and c = x − R.
   */
  lemma ExpandedQuadratic(x: real, y: real, z: real, rr: real, t: real, a: real, b: real, c: real)
    requires a == z && b == y * 2.0 && c == x - rr
    ensures x + 2.0 * t * y + t * t * z - rr == a * t * t + b * t + c
  {
  }

  /** |u + w·t|² − R as the quadratic whose coefficients are |w|², 2·w·u and |u|² − R. */
  lemma {:induction false} LineQuadratic(u: Vec3, w: Vec3, rr: real, t: real, q: Coefficients)
    requires q.a == Square(w) && q.b == Dot(u, w) * 2.0 && q.c == Square(u) - rr
    ensures Square(Add(u, Scale(w, t))) - rr == Eval(q, t)
  {
    SquareAlongLine(u, w, t);
    ExpandedQuadratic(Square(u), Dot(u, w), Square(w), rr, t, q.a, q.b, q.c);
  }
}
