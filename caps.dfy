/**
 * Pieces shared by the cylinder and the cone (Objects/Cylinder.cs,
 * Objects/Cone.cs): the component of a vector across the axis, the
 * between-the-caps test on side roots, and the flat disk caps.
 */
module Caps {
  import opened Wrappers
  import opened Global
  import opened RealMath
  import opened Vectors
  import opened Rays
  import opened Intersections
  import Planes

  /** `v - va * (v * va)`: the part of v across the axis direction va. */
  function Across(v: Vec3, va: Vec3): Vec3
  {
    Sub(v, Scale(va, Dot(v, va)))
  }

  /** The across-axis part of a point moving along a line moves along a line. */
  lemma {:induction false} AcrossAlongLine(u: Vec3, w: Vec3, va: Vec3, t: real)
    ensures Across(Add(u, Scale(w, t)), va) == Add(Across(u, va), Scale(Across(w, va), t))
  {
    DotAddLeft(u, Scale(w, t), va);
    DotScaleLeft(w, t, va);
    var k := Dot(u, va);
    var l := Dot(w, va);
    assert Dot(Add(u, Scale(w, t)), va) == k + t * l;
    assert va.x * (k + t * l) == va.x * k + (va.x * l) * t;
    assert va.y * (k + t * l) == va.y * k + (va.y * l) * t;
    assert va.z * (k + t * l) == va.z * k + (va.z * l) * t;
  }

  /** The axial offset of a point p = u + w·t moving along a line moves linearly. */
  lemma AxialAlongLine(u: Vec3, w: Vec3, va: Vec3, t: real, p: Vec3)
    requires p == Add(u, Scale(w, t))
    ensures Dot(p, va) == Dot(u, va) + t * Dot(w, va)
  {
    DotAddLeft(u, Scale(w, t), va);
    DotScaleLeft(w, t, va);
  }

  /** The squared across-axis distance of a point p = u + w·t is a quadratic in t. */
  lemma {:induction false} AcrossSquareAlongLine(u: Vec3, w: Vec3, va: Vec3, t: real, p: Vec3)
    requires p == Add(u, Scale(w, t))
    ensures Square(Across(p, va))
         == Square(Across(u, va)) + 2.0 * t * Dot(Across(w, va), Across(u, va)) + t * t * Square(Across(w, va))
  {
    AcrossAlongLine(u, w, va, t);
    SquareAlongLine(Across(u, va), Across(w, va), t);
  }

  /**
   * The side test: the point projects onto the axis strictly after the
   * first cap and strictly before the second.
   */
  predicate BetweenCaps(va: Vec3, c1: Vec3, c2: Vec3, p: Vec3)
  {
    Dot(va, Sub(p, c1)) > 0.0 && Dot(va, Sub(p, c2)) < 0.0
  }

  /**
   * A cap: the crossing of the plane through `center` with normal `normal`,
   * rejected when the crossing is farther than `radius` from the centre.
   */
  function DiskCap<M>(center: Vec3, normal: Vec3, radius: real, mat: M, ray: Ray, m: MathF)
    : (r: Option<Hit<M>>)
    ensures Abs(Dot(ray.dir, normal)) < EPS ==> r.None?
    ensures r.Some? ==> && r.value.t >= EPS && r.value.normal == normal && r.value.mat == mat
                        && Planes.OnPlane(center, normal, PointAt(ray, r.value.t))
                        && !(Length(Sub(PointAt(ray, r.value.t), center), m) > radius)
    ensures r.None? && Abs(Dot(ray.dir, normal)) >= EPS ==>
              forall t :: Planes.OnPlane(center, normal, PointAt(ray, t)) && t >= EPS ==>
                Length(Sub(PointAt(ray, t), center), m) > radius
  {
    match Planes.PlaneCrossing(center, normal, ray)
    case None => None
    case Some(t) =>
      if Length(Sub(PointAt(ray, t), center), m) > radius then None else Some(Hit(t, normal, mat))
  }

  /**
   * With an exact square root the distance test is the squared comparison,
   * and a negative radius rejects every point.
   */
  lemma {:induction false} OutsideDiskOnSquares(v: Vec3, radius: real, m: MathF)
    requires SqrtSound(m)
    ensures Length(v, m) > radius <==> radius < 0.0 || Square(v) > radius * radius
  {
    SquareIsNonNegative(v);
    if radius >= 0.0 {
      SqrtOfSquare(m, radius);
      assert radius * radius >= 0.0 by { MulLeft(radius, 0.0, radius); }
      SqrtMonotone(m, radius * radius, Square(v));
    }
  }
}
