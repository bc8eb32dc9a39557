/** Rays: a start point and a direction normalised on construction (Common/Ray.cs). */
module Rays {
  import opened Global
  import opened RealMath
  import opened Vectors

  datatype Ray = Ray(start: Vec3, dir: Vec3)

  /** `new Ray(start, dir)`: the direction is normalised. */
  function MakeRay(start: Vec3, dir: Vec3, m: MathF): (r: Ray)
    ensures r.start == start
    ensures SqrtSound(m) && dir != Zero ==> Square(r.dir) == 1.0
  {
    NormalizeIsUnitWhenSound(dir, m);
    Ray(start, Normalize(dir, m))
  }

  /** `Offset()`: the start is moved EPS along the direction. */
  function Offset(r: Ray, m: MathF): (o: Ray)
    ensures o.start == PointAt(r, EPS)
    ensures SqrtSound(m) && Square(r.dir) == 1.0 ==> o.dir == r.dir
  {
    UnitStaysUnit(r.dir, m);
    MakeRay(Add(r.start, Scale(r.dir, EPS)), r.dir, m)
  }

  /** Normalising a vector that is already of unit length leaves it unchanged. */
  lemma UnitStaysUnit(v: Vec3, m: MathF)
    ensures SqrtSound(m) && Square(v) == 1.0 ==> Normalize(v, m) == v
  {
    if SqrtSound(m) && Square(v) == 1.0 {
      SqrtOfSquare(m, 1.0);
    }
  }

  /** `ray.Start + ray.Dir * t`. */
  function PointAt(r: Ray, t: real): Vec3
  {
    Add(r.start, Scale(r.dir, t))
  }
}
