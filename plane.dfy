/** An infinite plane through a centre point (Objects/Plane.cs). */
module Planes {
  import opened Wrappers
  import opened Global
  import opened RealMath
  import opened Vectors
  import opened Rays
  import opened Intersections

  /** The stored normal is the normalised constructor argument. */
  datatype Plane<M> = Plane(center: Vec3, normal: Vec3, mat: M)

  /** `new Plane(center, normal, material)`. */
  function MakePlane<M>(center: Vec3, normal: Vec3, mat: M, m: MathF): (p: Plane<M>)
    ensures p.center == center && p.mat == mat
    ensures SqrtSound(m) && normal != Zero ==> Square(p.normal) == 1.0
  {
    NormalizeIsUnitWhenSound(normal, m);
    Plane(center, Normalize(normal, m), mat)
  }

  /** q lies on the plane through `center` orthogonal to `normal`. */
  ghost predicate OnPlane(center: Vec3, normal: Vec3, q: Vec3)
  {
    Dot(Sub(q, center), normal) == 0.0
  }

  /**
   * Moving along the ray changes the signed distance to the plane linearly:
   * it starts at (start - center)·n and grows by t·(dir·n).
   */
  lemma PlaneOffsetAlongRay(center: Vec3, normal: Vec3, ray: Ray, t: real)
    ensures Dot(Sub(PointAt(ray, t), center), normal)
         == Dot(Sub(ray.start, center), normal) + t * Dot(ray.dir, normal)
  {
  }

  /**
   * The plane test shared by planes, checkerboards and disk caps: no hit when
   * the ray is parallel (|dir·n| < EPS) or the crossing lies before EPS;
   * otherwise the crossing parameter.
   */
  function PlaneCrossing(center: Vec3, normal: Vec3, ray: Ray): (r: Option<real>)
    ensures Abs(Dot(ray.dir, normal)) < EPS ==> r.None?
    ensures r.Some? ==> r.value >= EPS && OnPlane(center, normal, PointAt(ray, r.value))
    ensures r.Some? ==> forall t :: OnPlane(center, normal, PointAt(ray, t)) ==> t == r.value
    ensures r.None? && Abs(Dot(ray.dir, normal)) >= EPS ==>
              forall t :: OnPlane(center, normal, PointAt(ray, t)) ==> t < EPS
  {
    var div := Dot(ray.dir, normal);
    if Abs(div) < EPS then None
    else
      var t := Dot(Sub(center, ray.start), normal) / div;
      CrossingIsUnique(center, normal, ray, t);
      if t < EPS then None else Some(t)
  }

  /** When the ray is not parallel, exactly one parameter reaches the plane. */
  lemma CrossingIsUnique(center: Vec3, normal: Vec3, ray: Ray, t: real)
    requires Dot(ray.dir, normal) != 0.0
    requires t == Dot(Sub(center, ray.start), normal) / Dot(ray.dir, normal)
    ensures forall u :: OnPlane(center, normal, PointAt(ray, u)) <==> u == t
  {
    var div := Dot(ray.dir, normal);
    var d0 := Dot(Sub(ray.start, center), normal);
    assert d0 == -Dot(Sub(center, ray.start), normal);
    assert t * div == -d0;
    forall u ensures OnPlane(center, normal, PointAt(ray, u)) <==> u == t {
      PlaneOffsetAlongRay(center, normal, ray, u);
      if OnPlane(center, normal, PointAt(ray, u)) {
        assert u * div == t * div;
        MulCancel(u, t, div);
      }
    }
  }

  lemma MulCancel(u: real, t: real, d: real)
    requires d != 0.0 && u * d == t * d
    ensures u == t
  {
    assert (u - t) * d == 0.0;
  }

  /** `Plane.Intersect`: the plane crossing, reported with the plane's normal and material. */
  function PlaneIntersect<M>(p: Plane<M>, ray: Ray): (r: Option<Hit<M>>)
    ensures Abs(Dot(ray.dir, p.normal)) < EPS ==> r.None?
    ensures r.Some? ==> && r.value.t >= EPS
                        && r.value.normal == p.normal && r.value.mat == p.mat
                        && OnPlane(p.center, p.normal, PointAt(ray, r.value.t))
    ensures r.None? && Abs(Dot(ray.dir, p.normal)) >= EPS ==>
              forall t :: OnPlane(p.center, p.normal, PointAt(ray, t)) ==> t < EPS
  {
    match PlaneCrossing(p.center, p.normal, ray)
    case None => None
    case Some(t) => Some(Hit(t, p.normal, p.mat))
  }
}

/** The plane z = 0 with the Hit/Miss result struct (Objects/PlaneXY.cs). */
module PlaneXYs {
  import opened Global
  import opened Vectors
  import opened Rays
  import opened Intersections

  /** `PlaneXY.Intersect`: the threshold on t is 0 here, not EPS. */
  function PlaneXYIntersect(ray: Ray): (r: XYIntersection)
    ensures Abs(ray.dir.z) < EPS ==> r == MissXY()
    ensures r.isHit ==> r.t >= 0.0 && PointAt(ray, r.t).z == 0.0 && r.normal == Vec3(0.0, 0.0, 1.0)
    ensures !r.isHit ==> r == MissXY()
    ensures !r.isHit && Abs(ray.dir.z) >= EPS ==> forall t :: PointAt(ray, t).z == 0.0 ==> t < 0.0
  {
    if Abs(ray.dir.z) < EPS then MissXY()
    else
      var t := -ray.start.z / ray.dir.z;
      CrossingXYIsUnique(ray, t);
      if t < 0.0 then MissXY() else HitXY(t, Vec3(0.0, 0.0, 1.0))
  }

  lemma CrossingXYIsUnique(ray: Ray, t: real)
    requires ray.dir.z != 0.0 && t == -ray.start.z / ray.dir.z
    ensures forall u :: PointAt(ray, u).z == 0.0 <==> u == t
  {
    forall u ensures PointAt(ray, u).z == 0.0 <==> u == t {
      assert PointAt(ray, u).z == ray.start.z + ray.dir.z * u;
      if PointAt(ray, u).z == 0.0 {
        assert (u - t) * ray.dir.z == 0.0;
      }
    }
  }
}
