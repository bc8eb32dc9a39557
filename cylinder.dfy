/** A finite cylinder with flat caps (Objects/Cylinder.cs). */
module Cylinders {
  import opened Wrappers
  import opened Global
  import opened RealMath
  import opened Vectors
  import opened Rays
  import opened Intersections
  import opened Quadratics
  import opened Caps

  /** Cap centres c1 and c2 and radius r. */
  datatype Cylinder<M> = Cylinder(c1: Vec3, c2: Vec3, r: real, mat: M)

  /** The axis direction `(c2 - c1).Normalize()`. */
  function Axis<M>(cy: Cylinder<M>, m: MathF): Vec3
  {
    Normalize(Sub(cy.c2, cy.c1), m)
  }

  /**
   * The side quadratic: with dp = start − c1, a = |across(dir)|²,
   * b = 2·across(dir)·across(dp), c = |across(dp)|² − r².
   */
  function SideCoefficients<M>(cy: Cylinder<M>, ray: Ray, m: MathF): Coefficients
  {
    var va := Axis(cy, m);
    var dp := Sub(ray.start, cy.c1);
    var ad := Across(ray.dir, va);
    var ap := Across(dp, va);
    Coefficients(Dot(ad, ad), Dot(ad, ap) * 2.0, Dot(ap, ap) - cy.r * cy.r)
  }

  function SideDiscriminant<M>(cy: Cylinder<M>, ray: Ray, m: MathF): real
  {
    var q := SideCoefficients(cy, ray, m);
    Discriminant(q.a, q.b, q.c)
  }

  /** The side quadratic at t is the squared distance of the ray point from the axis minus r². */
  lemma {:induction false} SideQuadraticMeasuresSurface<M>(cy: Cylinder<M>, ray: Ray, m: MathF, t: real)
    ensures Square(Across(Sub(PointAt(ray, t), cy.c1), Axis(cy, m))) - cy.r * cy.r
              == Eval(SideCoefficients(cy, ray, m), t)
  {
    var va := Axis(cy, m);
    var dp := Sub(ray.start, cy.c1);
    var ad := Across(ray.dir, va);
    var ap := Across(dp, va);
    assert Sub(PointAt(ray, t), cy.c1) == Add(dp, Scale(ray.dir, t));
    AcrossAlongLine(dp, ray.dir, va, t);
    DotCommutes(ap, ad);
    LineQuadratic(ap, ad, cy.r * cy.r, t, SideCoefficients(cy, ray, m));
  }

  /** `IntersectSide`: the side root, with the between-caps test on the two-root branch only. */
  function CylinderSide<M>(cy: Cylinder<M>, ray: Ray, m: MathF): (r: Option<Hit<M>>)
    ensures SideDiscriminant(cy, ray, m) < 0.0 ==> r.None?
    ensures r.Some? ==> r.value.t >= EPS && r.value.mat == cy.mat
    ensures SideDiscriminant(cy, ray, m) >= EPS ==>
              var q := SideCoefficients(cy, ray, m);
              var t1 := UpperRoot(q.a, q.b, SideDiscriminant(cy, ray, m), m);
              var t2 := LowerRoot(q.a, q.b, SideDiscriminant(cy, ray, m), m);
              var va := Axis(cy, m);
              && (r.Some? ==> (r.value.t == t1 || r.value.t == t2)
                              && BetweenCaps(va, cy.c1, cy.c2, PointAt(ray, r.value.t)))
              && (t1 > EPS && BetweenCaps(va, cy.c1, cy.c2, PointAt(ray, t1)) ==> r.Some? && r.value.t <= t1)
              && (t2 > EPS && BetweenCaps(va, cy.c1, cy.c2, PointAt(ray, t2)) ==> r.Some? && r.value.t <= t2)
  {
    var va := Axis(cy, m);
    var q := SideCoefficients(cy, ray, m);
    match QuadraticHit(q.a, q.b, q.c, t => BetweenCaps(va, cy.c1, cy.c2, PointAt(ray, t)), m)
    case None => None
    case Some(t) =>
      var pt := PointAt(ray, t);
      var len := Length(Sub(pt, cy.c1), m);
      var n := Normalize(Sub(pt, Add(cy.c1, Scale(va, m.sqrt(len * len - cy.r * cy.r)))), m);
      Some(Hit(t, n, cy.mat))
  }

  /**
   * A side hit from the two-root branch lies on the infinite cylinder:
   * its distance from the axis is r (the ray must not run along the axis).
   */
  lemma {:induction false} TwoRootSideHitIsOnSurface<M>(cy: Cylinder<M>, ray: Ray, m: MathF)
    requires SqrtSound(m) && Across(ray.dir, Axis(cy, m)) != Zero
    requires SideDiscriminant(cy, ray, m) >= EPS
    requires CylinderSide(cy, ray, m).Some?
    ensures Square(Across(Sub(PointAt(ray, CylinderSide(cy, ray, m).value.t), cy.c1), Axis(cy, m)))
         == cy.r * cy.r
  {
    var q := SideCoefficients(cy, ray, m);
    var d := SideDiscriminant(cy, ray, m);
    var t := CylinderSide(cy, ray, m).value.t;
    assert t == UpperRoot(q.a, q.b, d, m) || t == LowerRoot(q.a, q.b, d, m);
    SquareIsNonNegative(Across(ray.dir, Axis(cy, m)));
    assert q.a != 0.0;
    RootSolves(q, t, m);
    SideQuadraticMeasuresSurface(cy, ray, m, t);
  }

  /** `IntersectBottomCap`: the disk of radius r at c1, facing away from c2. */
  function CylinderBottom<M>(cy: Cylinder<M>, ray: Ray, m: MathF): (r: Option<Hit<M>>)
    ensures r.Some? ==> && r.value.t >= EPS && r.value.mat == cy.mat
                        && r.value.normal == Normalize(Sub(cy.c1, cy.c2), m)
                        && !(Length(Sub(PointAt(ray, r.value.t), cy.c1), m) > cy.r)
  {
    DiskCap(cy.c1, Normalize(Sub(cy.c1, cy.c2), m), cy.r, cy.mat, ray, m)
  }

  /** `IntersectTopCap`: the disk of radius r at c2, facing away from c1. */
  function CylinderTop<M>(cy: Cylinder<M>, ray: Ray, m: MathF): (r: Option<Hit<M>>)
    ensures r.Some? ==> && r.value.t >= EPS && r.value.mat == cy.mat
                        && r.value.normal == Normalize(Sub(cy.c2, cy.c1), m)
                        && !(Length(Sub(PointAt(ray, r.value.t), cy.c2), m) > cy.r)
  {
    DiskCap(cy.c2, Normalize(Sub(cy.c2, cy.c1), m), cy.r, cy.mat, ray, m)
  }

  /**
   * `Cylinder.Intersect`: the nearest of side, top cap and bottom cap, ties
   * going to the earlier in that order; no hit exactly when all three miss.
   */
  function CylinderIntersect<M>(cy: Cylinder<M>, ray: Ray, m: MathF): (r: Option<Hit<M>>)
    ensures var parts := [CylinderSide(cy, ray, m), CylinderTop(cy, ray, m), CylinderBottom(cy, ray, m)];
            && (r.None? <==> parts[0].None? && parts[1].None? && parts[2].None?)
            && (r.Some? ==> r.value.t >= EPS && exists i :: IsNearestAt(parts, i) && parts[i] == r)
  {
    var parts := [CylinderSide(cy, ray, m), CylinderTop(cy, ray, m), CylinderBottom(cy, ray, m)];
    NearestIsNearest(parts);
    Nearest(parts)
  }
}
