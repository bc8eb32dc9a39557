/** A finite cone with flat caps of different radii (Objects/Cone.cs). */
module Cones {
  import opened Wrappers
  import opened Global
  import opened RealMath
  import opened Vectors
  import opened Rays
  import opened Intersections
  import opened Quadratics
  import opened Caps

  /** Cap centres c1, c2 with radii r1, r2. */
  datatype Cone<M> = Cone(c1: Vec3, c2: Vec3, r1: real, r2: real, mat: M)

  /** What the constructor guarantees: the radii differ by at least EPS. */
  predicate WellFormed<M>(c: Cone<M>)
  {
    Abs(c.r1 - c.r2) >= EPS
  }

  /** `new Cone(...)`: equal radii (within EPS) throw, since that shape is a cylinder. */
  function MakeCone<M>(c1: Vec3, c2: Vec3, r1: real, r2: real, mat: M): (r: Result<Cone<M>, string>)
    ensures r.Ok? <==> Abs(r1 - r2) >= EPS
    ensures r.Ok? ==> WellFormed(r.value) && r.value == Cone(c1, c2, r1, r2, mat)
  {
    if Abs(r1 - r2) < EPS then Err("Two radiuses are equal, use cylinder instead of cone")
    else Ok(Cone(c1, c2, r1, r2, mat))
  }

  /** The axis direction `(c2 - c1).Normalize()`. */
  function Axis<M>(c: Cone<M>, m: MathF): Vec3
  {
    Normalize(Sub(c.c2, c.c1), m)
  }

  /**
   * The apex c1 + (c2 − c1)·r1/(r1 − r2): the point of the axis line where
   * the radius, interpolated linearly from r1 at c1 to r2 at c2, reaches 0.
   */
  function Apex<M>(c: Cone<M>): (p: Vec3)
    requires WellFormed(c)
    ensures exists s :: p == Add(c.c1, Scale(Sub(c.c2, c.c1), s)) && c.r1 + (c.r2 - c.r1) * s == 0.0
  {
    var s := c.r1 / (c.r1 - c.r2);
    assert c.r1 + (c.r2 - c.r1) * s == 0.0 by {
      assert s * (c.r1 - c.r2) == c.r1;
    }
    Add(c.c1, Scale(Sub(c.c2, c.c1), s))
  }

  /** `Atan2(r1 - r2, |c2 - c1|)`: the half-angle at the apex. */
  function Alpha<M>(c: Cone<M>, m: MathF): real
  {
    m.atan2(c.r1 - c.r2, Length(Sub(c.c2, c.c1), m))
  }

  /** `Pow(Cos(alpha), 2)`. */
  function Cos2<M>(c: Cone<M>, m: MathF): real
  {
    m.cos(Alpha(c, m)) * m.cos(Alpha(c, m))
  }

  /** `Pow(Sin(alpha), 2)`. */
  function Sin2<M>(c: Cone<M>, m: MathF): real
  {
    m.sin(Alpha(c, m)) * m.sin(Alpha(c, m))
  }

  /** k·s − l·e²: the shape shared by the surface function and the a and c coefficients. */
  function ConeForm(k: real, l: real, s: real, e: real): real
  {
    k * s - l * (e * e)
  }

  /** 2k·y − 2l·d·p: the shape of the b coefficient. */
  function ConeCross(k: real, l: real, y: real, d: real, p: real): real
  {
    2.0 * k * y - 2.0 * l * (d * p)
  }

  /**
   * The implicit surface of the double cone with apex `Apex(c)`, axis va and
   * half-angle alpha: cos²α·|across(p − apex)|² − sin²α·((p − apex)·va)².
   */
  function Surface<M>(c: Cone<M>, p: Vec3, m: MathF): real
    requires WellFormed(c)
  {
    var va := Axis(c, m);
    var d := Sub(p, Apex(c));
    ConeForm(Cos2(c, m), Sin2(c, m), Square(Across(d, va)), Dot(d, va))
  }

  /**
   * The side quadratic of `IntersectSide`, with dp = start − apex:
   * a = cos²α·|across(dir)|² − sin²α·(dir·va)²,
   * b = 2cos²α·across(dir)·across(dp) − 2sin²α·(dir·va)(dp·va),
   * c = cos²α·|across(dp)|² − sin²α·(dp·va)².
   */
  function SideCoefficients<M>(c: Cone<M>, ray: Ray, m: MathF): Coefficients
    requires WellFormed(c)
  {
    var va := Axis(c, m);
    var dp := Sub(ray.start, Apex(c));
    Coefficients(ConeForm(Cos2(c, m), Sin2(c, m), Square(Across(ray.dir, va)), Dot(ray.dir, va)),
                 ConeCross(Cos2(c, m), Sin2(c, m), Dot(Across(ray.dir, va), Across(dp, va)),
                           Dot(ray.dir, va), Dot(dp, va)),
                 ConeForm(Cos2(c, m), Sin2(c, m), Square(Across(dp, va)), Dot(dp, va)))
  }

  function SideDiscriminant<M>(c: Cone<M>, ray: Ray, m: MathF): real
    requires WellFormed(c)
  {
    var q := SideCoefficients(c, ray, m);
    Discriminant(q.a, q.b, q.c)
  }

  /** The side quadratic at t is the cone's implicit surface function at the ray point. */
  lemma {:induction false} SideQuadraticMeasuresSurface<M>(c: Cone<M>, ray: Ray, m: MathF, t: real)
    requires WellFormed(c)
    ensures Surface(c, PointAt(ray, t), m) == Eval(SideCoefficients(c, ray, m), t)
  {
    assert Sub(PointAt(ray, t), Apex(c)) == Add(Sub(ray.start, Apex(c)), Scale(ray.dir, t));
    SurfaceAlongLine(Cos2(c, m), Sin2(c, m), Sub(ray.start, Apex(c)), ray.dir, Axis(c, m), t,
                     Sub(PointAt(ray, t), Apex(c)), SideCoefficients(c, ray, m));
  }

  /**
   * Along the line p = u + w·t the surface function cos2·|across(p)|² − sin2·(p·va)²
   * is the quadratic with the side coefficients of u and w.
   */
  lemma {:induction false} SurfaceAlongLine(cos2: real, sin2: real, u: Vec3, w: Vec3, va: Vec3, t: real,
                                            p: Vec3, q: Coefficients)
    requires p == Add(u, Scale(w, t))
    requires q.a == ConeForm(cos2, sin2, Square(Across(w, va)), Dot(w, va))
    requires q.b == ConeCross(cos2, sin2, Dot(Across(w, va), Across(u, va)), Dot(w, va), Dot(u, va))
    requires q.c == ConeForm(cos2, sin2, Square(Across(u, va)), Dot(u, va))
    ensures ConeForm(cos2, sin2, Square(Across(p, va)), Dot(p, va)) == Eval(q, t)
  {
    assert Square(Across(p, va))
           == Quadric(Square(Across(u, va)), Dot(Across(w, va), Across(u, va)), Square(Across(w, va)), t) by {
      AcrossSquareAlongLine(u, w, va, t, p);
    }
    assert Dot(p, va) == Affine(Dot(u, va), Dot(w, va), t) by {
      AxialAlongLine(u, w, va, t, p);
    }
    ConeExpansion(cos2, sin2, Square(Across(u, va)), Dot(Across(w, va), Across(u, va)), Square(Across(w, va)),
                  Dot(u, va), Dot(w, va), t, Square(Across(p, va)), Dot(p, va), q);
  }

  /** p + t·d. */
  function Affine(p: real, d: real, t: real): real
  {
    p + t * d
  }

  /** x + 2ty + t²z. */
  function Quadric(x: real, y: real, z: real, t: real): real
  {
    x + 2.0 * t * y + t * t * z
  }

  /**
   * The cone's surface function along a line as a polynomial in t, where
   * s = x + 2ty + t²z is the squared across-axis distance and e = p + t·d
   * the axial offset.
   */
  lemma {:induction false} ConeExpansion(cos2: real, sin2: real, x: real, y: real, z: real, p: real, d: real,
                                         t: real, s: real, e: real, q: Coefficients)
    requires s == Quadric(x, y, z, t) && e == Affine(p, d, t)
    requires q.a == ConeForm(cos2, sin2, z, d)
    requires q.b == ConeCross(cos2, sin2, y, d, p)
    requires q.c == ConeForm(cos2, sin2, x, p)
    ensures ConeForm(cos2, sin2, s, e) == Eval(q, t)
  {
    SquareOfLine(p, d, t);
    ExpandConeForm(cos2, sin2, x, y, z, p * p, d * p, d * d, t);
  }

  lemma SquareOfLine(p: real, d: real, t: real)
    ensures (p + t * d) * (p + t * d) == Quadric(p * p, d * p, d * d, t)
  {
  }

  /** k·(x + 2ty + t²z) − l·(x2 + 2ty2 + t²z2), collected by powers of t. */
  lemma ExpandConeForm(k: real, l: real, x: real, y: real, z: real, x2: real, y2: real, z2: real, t: real)
    ensures k * Quadric(x, y, z, t) - l * Quadric(x2, y2, z2, t)
            == (k * z - l * z2) * t * t + (2.0 * k * y - 2.0 * l * y2) * t + (k * x - l * x2)
  {
    ScaleQuadric(k, x, y, z, t);
    ScaleQuadric(l, x2, y2, z2, t);
    Collect(k * x, k * y, k * z, l * x2, l * y2, l * z2, t);
  }

  lemma ScaleQuadric(k: real, x: real, y: real, z: real, t: real)
    ensures k * Quadric(x, y, z, t) == k * x + 2.0 * t * (k * y) + t * t * (k * z)
  {
  }

  /** The difference of two quadrics, collected by powers of t. */
  lemma Collect(a: real, b: real, c: real, a2: real, b2: real, c2: real, t: real)
    ensures (a + 2.0 * t * b + t * t * c) - (a2 + 2.0 * t * b2 + t * t * c2)
            == (c - c2) * t * t + (2.0 * b - 2.0 * b2) * t + (a - a2)
  {
  }

  /** `IntersectSide`: the side root, with the between-caps test on the two-root branch only. */
  function ConeSide<M>(c: Cone<M>, ray: Ray, m: MathF): (r: Option<Hit<M>>)
    requires WellFormed(c)
    ensures SideDiscriminant(c, ray, m) < 0.0 ==> r.None?
    ensures r.Some? ==> r.value.t >= EPS && r.value.mat == c.mat
    ensures SideDiscriminant(c, ray, m) >= EPS ==>
              var q := SideCoefficients(c, ray, m);
              var t1 := UpperRoot(q.a, q.b, SideDiscriminant(c, ray, m), m);
              var t2 := LowerRoot(q.a, q.b, SideDiscriminant(c, ray, m), m);
              var va := Axis(c, m);
              && (r.Some? ==> (r.value.t == t1 || r.value.t == t2)
                              && BetweenCaps(va, c.c1, c.c2, PointAt(ray, r.value.t)))
              && (t1 > EPS && BetweenCaps(va, c.c1, c.c2, PointAt(ray, t1)) ==> r.Some? && r.value.t <= t1)
              && (t2 > EPS && BetweenCaps(va, c.c1, c.c2, PointAt(ray, t2)) ==> r.Some? && r.value.t <= t2)
  {
    var va := Axis(c, m);
    var q := SideCoefficients(c, ray, m);
    match QuadraticHit(q.a, q.b, q.c, t => BetweenCaps(va, c.c1, c.c2, PointAt(ray, t)), m)
    case None => None
    case Some(t) =>
      var pt := PointAt(ray, t);
      var x := Length(Sub(pt, c.c1), m);
      var rr := Length(Across(Sub(c.c1, pt), va), m);
      var p0 := Add(c.c1, Scale(va, m.sqrt(x * x - rr * rr) - rr * m.tan(Alpha(c, m))));
      Some(Hit(t, Normalize(Sub(pt, p0), m), c.mat))
  }

  /** A side hit from the two-root branch lies on the cone's surface. */
  lemma {:induction false} TwoRootSideHitIsOnSurface<M>(c: Cone<M>, ray: Ray, m: MathF)
    requires WellFormed(c) && SqrtSound(m)
    requires SideCoefficients(c, ray, m).a != 0.0
    requires SideDiscriminant(c, ray, m) >= EPS
    requires ConeSide(c, ray, m).Some?
    ensures Surface(c, PointAt(ray, ConeSide(c, ray, m).value.t), m) == 0.0
  {
    var q := SideCoefficients(c, ray, m);
    var d := SideDiscriminant(c, ray, m);
    var t := ConeSide(c, ray, m).value.t;
    assert t == UpperRoot(q.a, q.b, d, m) || t == LowerRoot(q.a, q.b, d, m);
    RootSolves(q, t, m);
    SideQuadraticMeasuresSurface(c, ray, m, t);
  }

  /** `IntersectBottomCap`: the disk of radius r1 at c1, facing away from c2. */
  function ConeBottom<M>(c: Cone<M>, ray: Ray, m: MathF): (r: Option<Hit<M>>)
    ensures r.Some? ==> && r.value.t >= EPS && r.value.mat == c.mat
                        && r.value.normal == Normalize(Sub(c.c1, c.c2), m)
                        && !(Length(Sub(PointAt(ray, r.value.t), c.c1), m) > c.r1)
  {
    DiskCap(c.c1, Normalize(Sub(c.c1, c.c2), m), c.r1, c.mat, ray, m)
  }

  /** `IntersectTopCap`: the disk of radius r2 at c2, facing away from c1. */
  function ConeTop<M>(c: Cone<M>, ray: Ray, m: MathF): (r: Option<Hit<M>>)
    ensures r.Some? ==> && r.value.t >= EPS && r.value.mat == c.mat
                        && r.value.normal == Normalize(Sub(c.c2, c.c1), m)
                        && !(Length(Sub(PointAt(ray, r.value.t), c.c2), m) > c.r2)
  {
    DiskCap(c.c2, Normalize(Sub(c.c2, c.c1), m), c.r2, c.mat, ray, m)
  }

  /**
   * `Cone.Intersect`: the nearest of side, top cap and bottom cap, ties
   * going to the earlier in that order; no hit exactly when all three miss.
   */
  function ConeIntersect<M>(c: Cone<M>, ray: Ray, m: MathF): (r: Option<Hit<M>>)
    requires WellFormed(c)
    ensures var parts := [ConeSide(c, ray, m), ConeTop(c, ray, m), ConeBottom(c, ray, m)];
            && (r.None? <==> parts[0].None? && parts[1].None? && parts[2].None?)
            && (r.Some? ==> r.value.t >= EPS && exists i :: IsNearestAt(parts, i) && parts[i] == r)
  {
    var parts := [ConeSide(c, ray, m), ConeTop(c, ray, m), ConeBottom(c, ray, m)];
    NearestIsNearest(parts);
    Nearest(parts)
  }
}
