/**
 * Triangle meshes with optional shading normals and an optional bounding
 * sphere (Objects/MeshObject.cs).
 */
module Meshes {
  import opened Wrappers
  import opened Global
  import opened RealMath
  import opened Vectors
  import opened Rays
  import opened Intersections
  import opened Spheres

  /** One normal per vertex, interpolated across the face. */
  datatype ShadingNormals = ShadingNormals(a: Vec3, b: Vec3, c: Vec3)

  /** A triangle A, B, C; `sn == None` is the source's `SN == null`. */
  datatype Triangle = Triangle(a: Vec3, b: Vec3, c: Vec3, sn: Option<ShadingNormals>)

  /** (B − A) × (C − A): the face normal before normalisation. */
  function FaceNormal(tr: Triangle): Vec3
  {
    Cross(Sub(tr.b, tr.a), Sub(tr.c, tr.a))
  }

  /** The ray parameter where the ray meets the plane of the triangle. */
  function PlaneParameter(tr: Triangle, ray: Ray): real
  {
    var x := FaceNormal(tr);
    Div(Dot(x, tr.a) - Dot(x, ray.start), Dot(x, ray.dir))
  }

  /** The three same-side tests of `Triangle.Intersect`: p is on the inner side of every edge. */
  predicate InsideEdges(tr: Triangle, p: Vec3)
  {
    var x := FaceNormal(tr);
    && Dot(Cross(Sub(tr.b, tr.a), Sub(p, tr.a)), x) >= 0.0
    && Dot(Cross(Sub(tr.c, tr.b), Sub(p, tr.b)), x) >= 0.0
    && Dot(Cross(Sub(tr.a, tr.c), Sub(p, tr.c)), x) >= 0.0
  }

  /**
   * `Triangle.Intersect`: the plane parameter, or −1 when it is below EPS or
   * when the plane point fails one of the edge tests.
   */
  function TriangleIntersect(tr: Triangle, ray: Ray): (t: real)
    ensures t == -1.0 || t >= EPS
    ensures t != -1.0 <==> PlaneParameter(tr, ray) >= EPS && InsideEdges(tr, PointAt(ray, PlaneParameter(tr, ray)))
    ensures t != -1.0 ==> t == PlaneParameter(tr, ray)
  {
    var t := PlaneParameter(tr, ray);
    if t < EPS then -1.0
    else if !InsideEdges(tr, PointAt(ray, t)) then -1.0
    else t
  }

  /** A ray not parallel to the face meets the face's plane at the plane parameter. */
  lemma PlaneParameterIsOnPlane(tr: Triangle, ray: Ray)
    requires Dot(FaceNormal(tr), ray.dir) != 0.0
    ensures Dot(FaceNormal(tr), Sub(PointAt(ray, PlaneParameter(tr, ray)), tr.a)) == 0.0
  {
    PlaneHit(FaceNormal(tr), tr.a, ray);
  }

  /** The ray meets the plane through `a` with normal x at parameter (x·a − x·start) / (x·dir). */
  lemma {:induction false} PlaneHit(x: Vec3, a: Vec3, ray: Ray)
    requires Dot(x, ray.dir) != 0.0
    ensures Dot(x, Sub(PointAt(ray, Div(Dot(x, a) - Dot(x, ray.start), Dot(x, ray.dir))), a)) == 0.0
  {
    var t := Div(Dot(x, a) - Dot(x, ray.start), Dot(x, ray.dir));
    assert t * Dot(x, ray.dir) == Dot(x, a) - Dot(x, ray.start);
    assert Dot(x, Sub(PointAt(ray, t), a)) == Dot(x, ray.start) + t * Dot(x, ray.dir) - Dot(x, a);
  }

  /** A triangle hit lies in the triangle's plane and passes all three edge tests. */
  lemma HitIsOnTriangle(tr: Triangle, ray: Ray)
    requires Dot(FaceNormal(tr), ray.dir) != 0.0
    requires TriangleIntersect(tr, ray) != -1.0
    ensures var p := PointAt(ray, TriangleIntersect(tr, ray));
            Dot(FaceNormal(tr), Sub(p, tr.a)) == 0.0 && InsideEdges(tr, p)
  {
    PlaneParameterIsOnPlane(tr, ray);
  }

  /** Every edge vector pair spans the same face normal, whichever vertex it starts from. */
  lemma EdgeCrossesAgree(a: Vec3, b: Vec3, c: Vec3)
    ensures Cross(Sub(c, b), Sub(a, b)) == Cross(Sub(b, a), Sub(c, a))
    ensures Cross(Sub(a, c), Sub(b, c)) == Cross(Sub(b, a), Sub(c, a))
  {
    var n := Cross(Sub(b, a), Sub(c, a));
    var nb, nc := Cross(Sub(c, b), Sub(a, b)), Cross(Sub(a, c), Sub(b, c));
    assert nb.x == n.x && nc.x == n.x by { TwiceArea(a.y, a.z, b.y, b.z, c.y, c.z); }
    assert nb.y == n.y && nc.y == n.y by { TwiceArea(a.z, a.x, b.z, b.x, c.z, c.x); }
    assert nb.z == n.z && nc.z == n.z by { TwiceArea(a.x, a.y, b.x, b.y, c.x, c.y); }
  }

  /** The planar cross product of two edges is the same from each of the three corners. */
  lemma TwiceArea(a1: real, a2: real, b1: real, b2: real, c1: real, c2: real)
    ensures (c1 - b1) * (a2 - b2) - (c2 - b2) * (a1 - b1) == (b1 - a1) * (c2 - a2) - (b2 - a2) * (c1 - a1)
    ensures (a1 - c1) * (b2 - c2) - (a2 - c2) * (b1 - c1) == (b1 - a1) * (c2 - a2) - (b2 - a2) * (c1 - a1)
  {
  }

  /** The edge tests never reject the triangle's own corners. */
  lemma {:induction false} CornersAreInside(tr: Triangle)
    ensures InsideEdges(tr, tr.a) && InsideEdges(tr, tr.b) && InsideEdges(tr, tr.c)
  {
    var x := FaceNormal(tr);
    EdgeCrossesAgree(tr.a, tr.b, tr.c);
    SquareIsNonNegative(x);
    CrossSelfIsZero(Sub(tr.b, tr.a));
    CrossSelfIsZero(Sub(tr.c, tr.b));
    CrossSelfIsZero(Sub(tr.a, tr.c));
    assert Sub(tr.a, tr.a) == Vec3(0.0, 0.0, 0.0);
    assert Sub(tr.b, tr.b) == Vec3(0.0, 0.0, 0.0);
    assert Sub(tr.c, tr.c) == Vec3(0.0, 0.0, 0.0);
  }

  /** s·(s − a)·(s − b)·(s − c) with s the half perimeter: the radicand of Heron's formula. */
  function Heron(a: real, b: real, c: real): real
  {
    var s := (a + b + c) / 2.0;
    s * (s - a) * (s - b) * (s - c)
  }

  /** `Area`: Heron's formula on the three side lengths. */
  function Area(pa: Vec3, pb: Vec3, pc: Vec3, m: MathF): real
  {
    m.sqrt(Heron(Length(Sub(pb, pc), m), Length(Sub(pc, pa), m), Length(Sub(pa, pb), m)))
  }

  /** The weights (wa, wb, wc) from the whole area and the two sub-areas, wc = 1 − wa − wb. */
  function WeightsOf(area: real, areaA: real, areaB: real): (w: (real, real, real))
    ensures w.0 + w.1 + w.2 == 1.0
    ensures area != 0.0 ==> w.0 * area == areaA && w.1 * area == areaB
  {
    var wa := Div(areaA, area);
    var wb := Div(areaB, area);
    (wa, wb, 1.0 - wa - wb)
  }

  /** The barycentric weights of `GetNormal` at `at`. */
  function Weights(tr: Triangle, at: Vec3, m: MathF): (real, real, real)
  {
    WeightsOf(Area(tr.a, tr.b, tr.c, m), Area(tr.b, tr.c, at, m), Area(tr.a, tr.c, at, m))
  }

  /**
   * `Triangle.GetNormal`: the normalised face normal without shading
   * normals, else the weighted sum of the vertex normals, normalised.
   */
  function GetNormal(tr: Triangle, at: Vec3, m: MathF): (n: Vec3)
    ensures SqrtSound(m) ==> n == Zero || Square(n) == 1.0
  {
    NormalizeIsUnitOrZero(RawNormal(tr, at, m), m);
    Normalize(RawNormal(tr, at, m), m)
  }

  /** The normal before normalisation: the face normal, or the weighted vertex normals. */
  function RawNormal(tr: Triangle, at: Vec3, m: MathF): Vec3
  {
    match tr.sn
    case None => FaceNormal(tr)
    case Some(sn) =>
      var w := Weights(tr, at, m);
      Add(Add(Scale(sn.a, w.0), Scale(sn.b, w.1)), Scale(sn.c, w.2))
  }

  lemma HeronRotates(a: real, b: real, c: real)
    ensures Heron(a, b, c) == Heron(b, c, a) && Heron(a, b, c) == Heron(a, c, b)
  {
    var s := (a + b + c) / 2.0;
    assert s * (s - a) * (s - b) * (s - c) == s * (s - b) * (s - c) * (s - a);
    assert s * (s - a) * (s - b) * (s - c) == s * (s - a) * (s - c) * (s - b);
  }

  lemma {:induction false} LengthIsSymmetric(p: Vec3, q: Vec3, m: MathF)
    ensures Length(Sub(p, q), m) == Length(Sub(q, p), m)
  {
    assert Square(Sub(p, q)) == Square(Sub(q, p));
  }

  lemma {:induction false} ZeroLength(p: Vec3, m: MathF)
    requires m.sqrt(0.0) == 0.0
    ensures Length(Sub(p, p), m) == 0.0
  {
    assert Square(Sub(p, p)) == 0.0;
  }

  /** A triangle with two equal corners has area 0, whichever two they are. */
  lemma {:induction false} DegenerateArea(p: Vec3, q: Vec3, m: MathF)
    requires m.sqrt(0.0) == 0.0
    ensures Area(p, q, p, m) == 0.0 && Area(p, q, q, m) == 0.0
  {
    ZeroLength(p, m);
    ZeroLength(q, m);
    LengthIsSymmetric(p, q, m);
    var d := Length(Sub(q, p), m);
    assert Heron(d, 0.0, d) == 0.0 * 0.0;
    assert Heron(0.0, d, d) == 0.0 * 0.0;
  }

  /** Every ordering of the corners gives the same area. */
  lemma {:induction false} AreaIsSymmetric(a: Vec3, b: Vec3, c: Vec3, m: MathF)
    ensures Area(b, c, a, m) == Area(a, b, c, m) && Area(a, c, b, m) == Area(a, b, c, m)
  {
    LengthIsSymmetric(a, b, m);
    LengthIsSymmetric(b, c, m);
    LengthIsSymmetric(c, a, m);
    HeronRotates(Length(Sub(b, c), m), Length(Sub(c, a), m), Length(Sub(a, b), m));
  }

  /**
   * The interpolation reproduces the vertex normals: at each corner of a
   * triangle of non-zero area the weights are that corner's unit vector.
   */
  lemma {:induction false} WeightsAtCorners(tr: Triangle, m: MathF)
    requires m.sqrt(0.0) == 0.0 && Area(tr.a, tr.b, tr.c, m) > 0.0
    ensures Weights(tr, tr.a, m) == (1.0, 0.0, 0.0)
    ensures Weights(tr, tr.b, m) == (0.0, 1.0, 0.0)
    ensures Weights(tr, tr.c, m) == (0.0, 0.0, 1.0)
  {
    WeightsAtA(tr, m);
    WeightsAtB(tr, m);
    WeightsAtC(tr, m);
  }

  lemma {:induction false} WeightsAtA(tr: Triangle, m: MathF)
    requires m.sqrt(0.0) == 0.0 && Area(tr.a, tr.b, tr.c, m) > 0.0
    ensures Weights(tr, tr.a, m) == (1.0, 0.0, 0.0)
  {
    assert Area(tr.b, tr.c, tr.a, m) == Area(tr.a, tr.b, tr.c, m) by {
      AreaIsSymmetric(tr.a, tr.b, tr.c, m);
    }
    assert Area(tr.a, tr.c, tr.a, m) == 0.0 by {
      DegenerateArea(tr.a, tr.c, m);
    }
    UnitWeights(Area(tr.a, tr.b, tr.c, m), Area(tr.b, tr.c, tr.a, m), Area(tr.a, tr.c, tr.a, m));
  }

  lemma {:induction false} WeightsAtB(tr: Triangle, m: MathF)
    requires m.sqrt(0.0) == 0.0 && Area(tr.a, tr.b, tr.c, m) > 0.0
    ensures Weights(tr, tr.b, m) == (0.0, 1.0, 0.0)
  {
    assert Area(tr.a, tr.c, tr.b, m) == Area(tr.a, tr.b, tr.c, m) by {
      AreaIsSymmetric(tr.a, tr.b, tr.c, m);
    }
    assert Area(tr.b, tr.c, tr.b, m) == 0.0 by {
      DegenerateArea(tr.b, tr.c, m);
    }
    UnitWeights(Area(tr.a, tr.b, tr.c, m), Area(tr.b, tr.c, tr.b, m), Area(tr.a, tr.c, tr.b, m));
  }

  lemma {:induction false} WeightsAtC(tr: Triangle, m: MathF)
    requires m.sqrt(0.0) == 0.0 && Area(tr.a, tr.b, tr.c, m) > 0.0
    ensures Weights(tr, tr.c, m) == (0.0, 0.0, 1.0)
  {
    DegenerateArea(tr.b, tr.c, m);
    DegenerateArea(tr.a, tr.c, m);
    UnitWeights(Area(tr.a, tr.b, tr.c, m), Area(tr.b, tr.c, tr.c, m), Area(tr.a, tr.c, tr.c, m));
  }

  /** Sub-areas that are 0 or the whole area give weights that pick one corner. */
  lemma UnitWeights(area: real, areaA: real, areaB: real)
    requires area > 0.0
    requires (areaA == area && areaB == 0.0) || (areaA == 0.0 && areaB == area) || (areaA == 0.0 && areaB == 0.0)
    ensures areaA == area ==> WeightsOf(area, areaA, areaB) == (1.0, 0.0, 0.0)
    ensures areaB == area ==> WeightsOf(area, areaA, areaB) == (0.0, 1.0, 0.0)
    ensures areaA == 0.0 && areaB == 0.0 ==> WeightsOf(area, areaA, areaB) == (0.0, 0.0, 1.0)
  {
    var w := WeightsOf(area, areaA, areaB);
    if areaA == area {
      assert w.0 == 1.0;
      assert w.1 == 0.0;
    } else if areaB == area {
      assert w.0 == 0.0;
      assert w.1 == 1.0;
    } else {
      assert w.0 == 0.0;
      assert w.1 == 0.0;
    }
  }

  /** With shading normals, the normal at corner A is A's own normal, normalised. */
  lemma {:induction false} ShadingNormalAtCornerA(tr: Triangle, m: MathF)
    requires m.sqrt(0.0) == 0.0 && Area(tr.a, tr.b, tr.c, m) > 0.0 && tr.sn.Some?
    ensures GetNormal(tr, tr.a, m) == Normalize(tr.sn.value.a, m)
  {
    WeightsAtA(tr, m);
    var sn := tr.sn.value;
    BlendAtUnitWeights(sn.a, sn.b, sn.c);
  }

  lemma BlendAtUnitWeights(a: Vec3, b: Vec3, c: Vec3)
    ensures Add(Add(Scale(a, 1.0), Scale(b, 0.0)), Scale(c, 1.0 - 1.0 - 0.0)) == a
  {
  }

  /** The candidate of one triangle: a hit only when its parameter exceeds EPS. */
  function TriangleHit<M>(tr: Triangle, mat: M, ray: Ray, m: MathF): (r: Option<Hit<M>>)
    ensures r.Some? <==> TriangleIntersect(tr, ray) > EPS
    ensures r.Some? ==> r.value.t == TriangleIntersect(tr, ray) && r.value.mat == mat
  {
    var t := TriangleIntersect(tr, ray);
    if t > EPS then Some(Hit(t, GetNormal(tr, PointAt(ray, t), m), mat)) else None
  }

  /** The candidates of all triangles, in list order. */
  function TriangleHits<M>(ts: seq<Triangle>, mat: M, ray: Ray, m: MathF): (hits: seq<Option<Hit<M>>>)
    ensures |hits| == |ts|
    ensures forall i :: 0 <= i < |ts| ==> hits[i] == TriangleHit(ts[i], mat, ray, m)
  {
    seq(|ts|, i requires 0 <= i < |ts| => TriangleHit(ts[i], mat, ray, m))
  }

  /** The bound is set and the ray misses it. */
  predicate BoundMisses<M>(bound: Option<Sphere<M>>, ray: Ray, m: MathF)
  {
    bound.Some? && SphereIntersect(bound.value, ray, m).None?
  }

  /** What `MeshObject.Intersect` returns. */
  function MeshIntersect<M>(ts: seq<Triangle>, bound: Option<Sphere<M>>, mat: M, ray: Ray, m: MathF): Option<Hit<M>>
  {
    if BoundMisses(bound, ray, m) then None else Nearest(TriangleHits(ts, mat, ray, m))
  }

  /**
   * A missed bound gives no hit whatever the triangles; otherwise the mesh
   * misses exactly when no triangle yields t > EPS, and a hit is that of the
   * first triangle of least t.
   */
  lemma MeshIntersectIsNearest<M>(ts: seq<Triangle>, bound: Option<Sphere<M>>, mat: M, ray: Ray, m: MathF)
    ensures BoundMisses(bound, ray, m) ==> MeshIntersect(ts, bound, mat, ray, m).None?
    ensures MeshIntersect(ts, bound, mat, ray, m).None?
            <==> BoundMisses(bound, ray, m) || forall i :: 0 <= i < |ts| ==> TriangleIntersect(ts[i], ray) <= EPS
    ensures var r := MeshIntersect(ts, bound, mat, ray, m);
            r.Some? ==> && r.value.t > EPS && r.value.mat == mat
                        && exists i :: IsNearestAt(TriangleHits(ts, mat, ray, m), i)
                                       && r == TriangleHit(ts[i], mat, ray, m)
  {
    var hits := TriangleHits(ts, mat, ray, m);
    NearestIsNearest(hits);
    if !BoundMisses(bound, ray, m) && Nearest(hits).Some? {
      var i :| IsNearestAt(hits, i) && hits[i] == Nearest(hits);
      assert TriangleHit(ts[i], mat, ray, m).Some?;
    }
  }

  /** `MeshObject`: a list of triangles, an optional bound and a material. */
  class MeshObject<M> {
    var triangles: seq<Triangle>
    var bound: Option<Sphere<M>>
    const mat: M

    constructor(material: M)
      ensures triangles == [] && bound == None && mat == material
    {
      triangles := [];
      bound := None;
      mat := material;
    }

    /** `AddTriangle`: appends, keeping the earlier triangles in order. */
    method AddTriangle(tr: Triangle)
      modifies this
      ensures triangles == old(triangles) + [tr] && bound == old(bound)
    {
      triangles := triangles + [tr];
    }

    /** `SetBound`: replaces the bound. */
    method SetBound(b: Sphere<M>)
      modifies this
      ensures bound == Some(b) && triangles == old(triangles)
    {
      bound := Some(b);
    }

    /**
     * `Intersect`: a missed bound returns at once; otherwise one pass over the
     * triangles keeps the first least t > EPS, and the normal is computed only
     * for the winner.
     */
    method Intersect(ray: Ray, m: MathF) returns (r: Option<Hit<M>>)
      ensures r == MeshIntersect(triangles, bound, mat, ray, m)
    {
      if bound.Some? {
        var bh := SphereIntersect(bound.value, ray, m);
        if bh.None? {
          return None;
        }
      }
      var ints := false;
      var tmin := 0.0;
      var imin := 0;
      ghost var hits := TriangleHits(triangles, mat, ray, m);
      for i := 0 to |triangles|
        invariant ints ==> 0 <= imin < i
                           && Nearest(hits[..i]) == Some(Hit(tmin, GetNormal(triangles[imin], PointAt(ray, tmin), m), mat))
        invariant !ints ==> Nearest(hits[..i]) == None
      {
        var t := TriangleIntersect(triangles[i], ray);
        NearestStep(hits, i);
        if t > EPS && (!ints || t < tmin) {
          tmin := t;
          imin := i;
          ints := true;
        }
      }
      assert hits[..|triangles|] == hits;
      if ints {
        return Some(Hit(tmin, GetNormal(triangles[imin], PointAt(ray, tmin), m), mat));
      }
      return None;
    }
  }
}
