/** A sphere (Objects/Sphere.cs). */
module Spheres {
  import opened Wrappers
  import opened Global
  import opened RealMath
  import opened Vectors
  import opened Rays
  import opened Intersections
  import opened Quadratics

  datatype Sphere<M> = Sphere(center: Vec3, radius: real, mat: M)

  /** a = dir·dir, b = 2·dir·(start − center), c = |start − center|² − radius². */
  function SphereCoefficients<M>(s: Sphere<M>, ray: Ray): Coefficients
  {
    var dp := Sub(ray.start, s.center);
    Coefficients(Dot(ray.dir, ray.dir), 2.0 * Dot(ray.dir, dp), Dot(dp, dp) - s.radius * s.radius)
  }

  function SphereDiscriminant<M>(s: Sphere<M>, ray: Ray): real
  {
    var q := SphereCoefficients(s, ray);
    Discriminant(q.a, q.b, q.c)
  }

  /** The quadratic's value at t is the squared distance of the ray point from the centre minus radius². */
  lemma {:induction false} QuadraticMeasuresSurface<M>(s: Sphere<M>, ray: Ray, t: real)
    ensures Square(Sub(PointAt(ray, t), s.center)) - s.radius * s.radius
         == Eval(SphereCoefficients(s, ray), t)
  {
    var dp := Sub(ray.start, s.center);
    assert Sub(PointAt(ray, t), s.center) == Add(dp, Scale(ray.dir, t));
    DotCommutes(dp, ray.dir);
    LineQuadratic(dp, ray.dir, s.radius * s.radius, t, SphereCoefficients(s, ray));
  }

  /**
   * `Sphere.Intersect`: the nearer root beyond EPS, reported with the
   * unnormalised normal hitPoint − center and the sphere's material.
   */
  function SphereIntersect<M>(s: Sphere<M>, ray: Ray, m: MathF): (r: Option<Hit<M>>)
    ensures SphereDiscriminant(s, ray) < 0.0 ==> r.None?
    ensures r.Some? ==> && r.value.t >= EPS && r.value.mat == s.mat
                        && r.value.normal == Sub(PointAt(ray, r.value.t), s.center)
    ensures SphereDiscriminant(s, ray) >= EPS ==>
              var q := SphereCoefficients(s, ray);
              var t1 := UpperRoot(q.a, q.b, SphereDiscriminant(s, ray), m);
              var t2 := LowerRoot(q.a, q.b, SphereDiscriminant(s, ray), m);
              && (r.Some? ==> r.value.t == t1 || r.value.t == t2)
              && (t1 > EPS ==> r.Some? && r.value.t <= t1)
              && (t2 > EPS ==> r.Some? && r.value.t <= t2)
  {
    var q := SphereCoefficients(s, ray);
    match QuadraticHit(q.a, q.b, q.c, t => true, m)
    case None => None
    case Some(t) => Some(Hit(t, Sub(PointAt(ray, t), s.center), s.mat))
  }

  /** A negative discriminant is a true miss: no point of the ray's line is on the sphere. */
  lemma {:induction false} NegativeDiscriminantMisses<M>(s: Sphere<M>, ray: Ray)
    requires SphereDiscriminant(s, ray) < 0.0
    ensures forall t :: Square(Sub(PointAt(ray, t), s.center)) != s.radius * s.radius
  {
    forall t ensures Square(Sub(PointAt(ray, t), s.center)) != s.radius * s.radius {
      QuadraticMeasuresSurface(s, ray, t);
      if Square(Sub(PointAt(ray, t), s.center)) == s.radius * s.radius {
        ZeroNeedsDiscriminant(SphereCoefficients(s, ray), t);
      }
    }
  }

  /**
   * A hit taken from the two-root branch lies on the sphere: its reported
   * normal has length radius.
   */
  lemma {:induction false} TwoRootHitIsOnSurface<M>(s: Sphere<M>, ray: Ray, m: MathF)
    requires SqrtSound(m) && ray.dir != Zero
    requires SphereDiscriminant(s, ray) >= EPS
    requires SphereIntersect(s, ray, m).Some?
    ensures Square(SphereIntersect(s, ray, m).value.normal) == s.radius * s.radius
  {
    var q := SphereCoefficients(s, ray);
    var d := SphereDiscriminant(s, ray);
    var h := SphereIntersect(s, ray, m).value;
    var t := h.t;
    assert t == UpperRoot(q.a, q.b, d, m) || t == LowerRoot(q.a, q.b, d, m);
    SquareIsNonNegative(ray.dir);
    assert q.a != 0.0;
    RootSolves(q, t, m);
    QuadraticMeasuresSurface(s, ray, t);
    assert h.normal == Sub(PointAt(ray, t), s.center);
  }
}
