/**
 * Tessellated tori: a (tessu + 1) × (tessv + 1) grid of points, two triangles
 * per grid quad, and a bounding sphere (Objects/Torus.cs, Objects/Toroid.cs).
 */
module Tori {
  import opened Wrappers
  import opened Global
  import opened RealMath
  import opened Vectors
  import opened Spheres
  import opened Meshes
  import opened Sequences

  /** Centre, radius of the big circle ro, of the small circle ri, tessellation counts. */
  datatype TorusShape = TorusShape(center: Vec3, ro: real, ri: real, tessu: nat, tessv: nat)

  /** A grid position (u, v). */
  datatype Index = Index(u: nat, v: nat)

  /** The three grid positions a triangle is made of. */
  datatype IndexTriangle = IndexTriangle(a: Index, b: Index, c: Index)

  /** The two triangles of quad (u, v), in the order the constructors add them. */
  function QuadIndices(u: nat, v: nat): seq<IndexTriangle>
  {
    [IndexTriangle(Index(u, v), Index(u + 1, v), Index(u, v + 1)),
     IndexTriangle(Index(u + 1, v), Index(u + 1, v + 1), Index(u, v + 1))]
  }

  /** The quads (u, 0) .. (u, v − 1) of row u. */
  function RowIndices(u: nat, v: nat): seq<IndexTriangle>
  {
    if v == 0 then [] else RowIndices(u, v - 1) + QuadIndices(u, v - 1)
  }

  /** Rows 0 .. u − 1 of a grid with tessv quads per row: u-major, then v. */
  function GridIndices(u: nat, tessv: nat): seq<IndexTriangle>
  {
    if u == 0 then [] else GridIndices(u - 1, tessv) + RowIndices(u - 1, tessv)
  }

  predicate InGrid(i: Index, tessu: nat, tessv: nat)
  {
    i.u <= tessu && i.v <= tessv
  }

  predicate TriangleInGrid(it: IndexTriangle, tessu: nat, tessv: nat)
  {
    InGrid(it.a, tessu, tessv) && InGrid(it.b, tessu, tessv) && InGrid(it.c, tessu, tessv)
  }

  lemma {:induction false} RowIndicesShape(u: nat, v: nat, tessu: nat, tessv: nat)
    requires u < tessu && v <= tessv
    ensures |RowIndices(u, v)| == 2 * v
    ensures forall it :: it in RowIndices(u, v) ==> TriangleInGrid(it, tessu, tessv)
  {
    if v > 0 {
      RowIndicesShape(u, v - 1, tessu, tessv);
    }
  }

  /**
   * Exactly two triangles per quad, 2·tessu·tessv in all, and every grid
   * position used lies inside the (tessu + 1) × (tessv + 1) grid.
   */
  lemma {:induction false} GridIndicesShape(u: nat, tessu: nat, tessv: nat)
    requires u <= tessu
    ensures |GridIndices(u, tessv)| == 2 * u * tessv
    ensures forall it :: it in GridIndices(u, tessv) ==> TriangleInGrid(it, tessu, tessv)
  {
    if u > 0 {
      GridIndicesShape(u - 1, tessu, tessv);
      RowIndicesShape(u - 1, tessv, tessu, tessv);
      assert 2 * (u - 1) * tessv + 2 * tessv == 2 * u * tessv;
    }
  }

  /** The angle `k / (float)n * 2 * PI`; a zero count divides by zero and gives 0 here. */
  function Angle(k: nat, n: nat, m: MathF): real
  {
    Div(k as real, n as real) * 2.0 * PI
  }

  /** `mesh[u, v]`: the surface point at angles uf (big circle) and vf (small circle). */
  function TorusPoint(t: TorusShape, i: Index, m: MathF): Vec3
  {
    var uf := Angle(i.u, t.tessu, m);
    var vf := Angle(i.v, t.tessv, m);
    Add(t.center, Vec3(t.ri * m.sin(vf),
                       (t.ro + t.ri * m.cos(vf)) * m.cos(uf),
                       (t.ro + t.ri * m.cos(vf)) * m.sin(uf)))
  }

  /** `norm[u, v]`: the normalised outward direction of the small circle. */
  function TorusNormal(t: TorusShape, i: Index, m: MathF): Vec3
  {
    var uf := Angle(i.u, t.tessu, m);
    var vf := Angle(i.v, t.tessv, m);
    Normalize(Vec3(m.sin(vf), m.cos(vf) * m.cos(uf), m.cos(vf) * m.sin(uf)), m)
  }

  /** The triangle at grid positions it, with shading normals from the same positions when asked. */
  function Realise(t: TorusShape, it: IndexTriangle, shading: bool, m: MathF): Triangle
  {
    Triangle(TorusPoint(t, it.a, m), TorusPoint(t, it.b, m), TorusPoint(t, it.c, m),
             if shading then Some(ShadingNormals(TorusNormal(t, it.a, m), TorusNormal(t, it.b, m),
                                                 TorusNormal(t, it.c, m)))
             else None)
  }

  function RealiseAll(t: TorusShape, its: seq<IndexTriangle>, shading: bool, m: MathF): (ts: seq<Triangle>)
    ensures |ts| == |its|
  {
    seq(|its|, k requires 0 <= k < |its| => Realise(t, its[k], shading, m))
  }

  /** The triangles of the whole torus, in the order the constructors add them. */
  function TorusTriangles(t: TorusShape, shading: bool, m: MathF): seq<Triangle>
  {
    RealiseAll(t, GridIndices(t.tessu, t.tessv), shading, m)
  }

  /** The bounding sphere: at the centre, radius ro + ri + EPS. */
  function TorusBound<M>(t: TorusShape, mat: M): Sphere<M>
  {
    Sphere(t.center, t.ro + t.ri + EPS, mat)
  }

  /**
   * 2·tessu·tessv triangles, each made of in-grid positions; a triangle carries
   * shading normals exactly when they are asked for, and then they are taken
   * at the same grid positions as its corners.
   */
  lemma {:induction false} TorusTopology(t: TorusShape, shading: bool, m: MathF)
    ensures |TorusTriangles(t, shading, m)| == 2 * t.tessu * t.tessv
    ensures forall k :: 0 <= k < |TorusTriangles(t, shading, m)| ==>
              var it := GridIndices(t.tessu, t.tessv)[k];
              var tr := TorusTriangles(t, shading, m)[k];
              && TriangleInGrid(it, t.tessu, t.tessv)
              && tr.a == TorusPoint(t, it.a, m) && tr.b == TorusPoint(t, it.b, m) && tr.c == TorusPoint(t, it.c, m)
              && (tr.sn.Some? <==> shading)
              && (shading ==> tr.sn.value == ShadingNormals(TorusNormal(t, it.a, m), TorusNormal(t, it.b, m),
                                                            TorusNormal(t, it.c, m)))
  {
    GridIndicesShape(t.tessu, t.tessu, t.tessv);
    var its := GridIndices(t.tessu, t.tessv);
    forall k | 0 <= k < |its|
      ensures TriangleInGrid(its[k], t.tessu, t.tessv)
    {
      assert its[k] in its;
    }
  }

  lemma RealiseAllAppends(t: TorusShape, its: seq<IndexTriangle>, more: seq<IndexTriangle>, shading: bool, m: MathF)
    ensures RealiseAll(t, its + more, shading, m) == RealiseAll(t, its, shading, m) + RealiseAll(t, more, shading, m)
  {
    var whole, parts := RealiseAll(t, its + more, shading, m), RealiseAll(t, its, shading, m) + RealiseAll(t, more, shading, m);
    forall k | 0 <= k < |whole|
      ensures whole[k] == parts[k]
    {
      if k < |its| {
        assert (its + more)[k] == its[k];
      } else {
        assert (its + more)[k] == more[k - |its|];
      }
    }
  }

  /** Every grid position (u, v) with u < rows holds its point, and its normal when there is a normal grid. */
  predicate GridFilled(t: TorusShape, m: MathF, grid: array2<Vec3>, norm: array2?<Vec3>, rows: nat)
    requires grid.Length0 == t.tessu + 1 && grid.Length1 == t.tessv + 1 && rows <= t.tessu + 1
    requires norm != null ==> norm.Length0 == t.tessu + 1 && norm.Length1 == t.tessv + 1
    reads grid, norm
  {
    FilledBefore(t, m, grid, norm, rows, 0)
  }

  /** The positions before (u, v) in u-major order hold their points and normals. */
  predicate FilledBefore(t: TorusShape, m: MathF, grid: array2<Vec3>, norm: array2?<Vec3>, u: nat, v: nat)
    requires grid.Length0 == t.tessu + 1 && grid.Length1 == t.tessv + 1 && u <= t.tessu + 1
    requires norm != null ==> norm.Length0 == t.tessu + 1 && norm.Length1 == t.tessv + 1
    reads grid, norm
  {
    forall i, j :: 0 <= i <= t.tessu && 0 <= j <= t.tessv && (i < u || (i == u && j < v)) ==>
      grid[i, j] == TorusPoint(t, Index(i, j), m)
      && (norm != null ==> norm[i, j] == TorusNormal(t, Index(i, j), m))
  }

  /**
   * The first loop nest of both constructors: `mesh[u, v]` for every grid
   * position and, when shading normals are used, `norm[u, v]` as well.
   */
  method FillGrid(t: TorusShape, shading: bool, m: MathF) returns (grid: array2<Vec3>, norm: array2?<Vec3>)
    ensures fresh(grid) && grid.Length0 == t.tessu + 1 && grid.Length1 == t.tessv + 1
    ensures (norm != null) == shading
    ensures norm != null ==> fresh(norm) && norm.Length0 == t.tessu + 1 && norm.Length1 == t.tessv + 1
    ensures GridFilled(t, m, grid, norm, t.tessu + 1)
  {
    grid := new Vec3[t.tessu + 1, t.tessv + 1];
    norm := null;
    if shading {
      norm := new Vec3[t.tessu + 1, t.tessv + 1];
    }
    var u := 0;
    while u <= t.tessu
      invariant 0 <= u <= t.tessu + 1
      invariant GridFilled(t, m, grid, norm, u)
    {
      FillRow(t, m, grid, norm, u);
      u := u + 1;
    }
  }

  /** The inner loop of the first nest: row u of the point grid and of the normal grid. */
  method FillRow(t: TorusShape, m: MathF, grid: array2<Vec3>, norm: array2?<Vec3>, u: nat)
    requires grid.Length0 == t.tessu + 1 && grid.Length1 == t.tessv + 1 && u <= t.tessu
    requires norm != null ==> norm.Length0 == t.tessu + 1 && norm.Length1 == t.tessv + 1 && norm != grid
    requires GridFilled(t, m, grid, norm, u)
    modifies grid, norm
    ensures GridFilled(t, m, grid, norm, u + 1)
  {
    var v := 0;
    while v <= t.tessv
      invariant 0 <= v <= t.tessv + 1
      invariant FilledBefore(t, m, grid, norm, u, v)
    {
      grid[u, v] := TorusPoint(t, Index(u, v), m);
      if norm != null {
        norm[u, v] := TorusNormal(t, Index(u, v), m);
      }
      v := v + 1;
    }
  }

  /**
   * The second loop nest: for every quad, u-major, the triangles
   * (u, v), (u + 1, v), (u, v + 1) and (u + 1, v), (u + 1, v + 1), (u, v + 1).
   */
  method AddGridTriangles<M>(mesh: MeshObject<M>, t: TorusShape, shading: bool, m: MathF,
                             grid: array2<Vec3>, norm: array2?<Vec3>)
    requires grid.Length0 == t.tessu + 1 && grid.Length1 == t.tessv + 1
    requires (norm != null) == shading
    requires norm != null ==> norm.Length0 == t.tessu + 1 && norm.Length1 == t.tessv + 1
    requires GridFilled(t, m, grid, norm, t.tessu + 1)
    modifies mesh
    ensures mesh.triangles == old(mesh.triangles) + TorusTriangles(t, shading, m)
    ensures mesh.bound == old(mesh.bound)
  {
    ghost var start := mesh.triangles;
    var u := 0;
    while u < t.tessu
      invariant 0 <= u <= t.tessu
      invariant mesh.triangles == start + RealiseAll(t, GridIndices(u, t.tessv), shading, m)
      invariant mesh.bound == old(mesh.bound)
    {
      AddRow(mesh, t, shading, m, grid, norm, u);
      RealiseAllAppends(t, GridIndices(u, t.tessv), RowIndices(u, t.tessv), shading, m);
      AppendIsAssociative(start, RealiseAll(t, GridIndices(u, t.tessv), shading, m),
                          RealiseAll(t, RowIndices(u, t.tessv), shading, m));
      u := u + 1;
    }
  }

  /** The inner loop of the second nest: the 2·tessv triangles of row u. */
  method AddRow<M>(mesh: MeshObject<M>, t: TorusShape, shading: bool, m: MathF,
                   grid: array2<Vec3>, norm: array2?<Vec3>, u: nat)
    requires grid.Length0 == t.tessu + 1 && grid.Length1 == t.tessv + 1 && u < t.tessu
    requires (norm != null) == shading
    requires norm != null ==> norm.Length0 == t.tessu + 1 && norm.Length1 == t.tessv + 1
    requires GridFilled(t, m, grid, norm, t.tessu + 1)
    modifies mesh
    ensures mesh.triangles == old(mesh.triangles) + RealiseAll(t, RowIndices(u, t.tessv), shading, m)
    ensures mesh.bound == old(mesh.bound)
  {
    ghost var start := mesh.triangles;
    var v := 0;
    while v < t.tessv
      invariant 0 <= v <= t.tessv
      invariant mesh.triangles == start + RealiseAll(t, RowIndices(u, v), shading, m)
      invariant mesh.bound == old(mesh.bound)
    {
      ghost var before := mesh.triangles;
      QuadOfGrid(t, m, grid, norm, u, v);
      AddQuad(mesh, t, shading, m, grid, norm, u, v);
      RowStep(t, shading, m, u, v, start, before, mesh.triangles);
      v := v + 1;
    }
  }

  /** Appending the triangles of quad (u, v) to row u up to v gives row u up to v + 1. */
  lemma RowStep(t: TorusShape, shading: bool, m: MathF, u: nat, v: nat, start: seq<Triangle>,
                before: seq<Triangle>, after: seq<Triangle>)
    requires before == start + RealiseAll(t, RowIndices(u, v), shading, m)
    requires after == before + RealiseAll(t, QuadIndices(u, v), shading, m)
    ensures after == start + RealiseAll(t, RowIndices(u, v + 1), shading, m)
  {
    RealiseAllAppends(t, RowIndices(u, v), QuadIndices(u, v), shading, m);
    AppendIsAssociative(start, RealiseAll(t, RowIndices(u, v), shading, m), RealiseAll(t, QuadIndices(u, v), shading, m));
  }

  /** The loop body of the second nest: the two triangles of quad (u, v). */
  method AddQuad<M>(mesh: MeshObject<M>, t: TorusShape, shading: bool, m: MathF,
                    grid: array2<Vec3>, norm: array2?<Vec3>, u: nat, v: nat)
    requires grid.Length0 == t.tessu + 1 && grid.Length1 == t.tessv + 1 && u < t.tessu && v < t.tessv
    requires (norm != null) == shading
    requires norm != null ==> norm.Length0 == t.tessu + 1 && norm.Length1 == t.tessv + 1
    requires QuadFilled(t, m, grid, norm, u, v)
    modifies mesh
    ensures mesh.triangles == old(mesh.triangles) + RealiseAll(t, QuadIndices(u, v), shading, m)
    ensures mesh.bound == old(mesh.bound)
  {
    var sn1: Option<ShadingNormals> := None;
    var sn2: Option<ShadingNormals> := None;
    if norm != null {
      sn1 := Some(ShadingNormals(norm[u, v], norm[u + 1, v], norm[u, v + 1]));
      sn2 := Some(ShadingNormals(norm[u + 1, v], norm[u + 1, v + 1], norm[u, v + 1]));
    }
    mesh.AddTriangle(Triangle(grid[u, v], grid[u + 1, v], grid[u, v + 1], sn1));
    mesh.AddTriangle(Triangle(grid[u + 1, v], grid[u + 1, v + 1], grid[u, v + 1], sn2));
  }

  /** The four corners of quad (u, v) hold their points and normals. */
  predicate QuadFilled(t: TorusShape, m: MathF, grid: array2<Vec3>, norm: array2?<Vec3>, u: nat, v: nat)
    requires grid.Length0 == t.tessu + 1 && grid.Length1 == t.tessv + 1 && u < t.tessu && v < t.tessv
    requires norm != null ==> norm.Length0 == t.tessu + 1 && norm.Length1 == t.tessv + 1
    reads grid, norm
  {
    forall i, j :: u <= i <= u + 1 && v <= j <= v + 1 ==>
      grid[i, j] == TorusPoint(t, Index(i, j), m)
      && (norm != null ==> norm[i, j] == TorusNormal(t, Index(i, j), m))
  }

  lemma QuadOfGrid(t: TorusShape, m: MathF, grid: array2<Vec3>, norm: array2?<Vec3>, u: nat, v: nat)
    requires grid.Length0 == t.tessu + 1 && grid.Length1 == t.tessv + 1 && u < t.tessu && v < t.tessv
    requires norm != null ==> norm.Length0 == t.tessu + 1 && norm.Length1 == t.tessv + 1
    requires GridFilled(t, m, grid, norm, t.tessu + 1)
    ensures QuadFilled(t, m, grid, norm, u, v)
  {
  }

  /** `Torus(center, ro, ri, tessu, tessv, shadingNormals, material)`. */
  method NewTorus<M>(t: TorusShape, shading: bool, mat: M, m: MathF) returns (mesh: MeshObject<M>)
    ensures fresh(mesh)
    ensures mesh.triangles == TorusTriangles(t, shading, m)
    ensures mesh.bound == Some(TorusBound(t, mat)) && mesh.mat == mat
  {
    mesh := new MeshObject(mat);
    Tessellate(mesh, t, shading, m);
    mesh.SetBound(Sphere(t.center, t.ro + t.ri + EPS, mat));
  }

  /** Both loop nests of the constructor: the grids, then the triangles. */
  method Tessellate<M>(mesh: MeshObject<M>, t: TorusShape, shading: bool, m: MathF)
    modifies mesh
    ensures mesh.triangles == old(mesh.triangles) + TorusTriangles(t, shading, m)
    ensures mesh.bound == old(mesh.bound)
  {
    var grid, norm := FillGrid(t, shading, m);
    AddGridTriangles(mesh, t, shading, m, grid, norm);
  }

  /** `Toroid(center, ro, ri, tessu, tessv, material)`: the torus that always uses shading normals. */
  method NewToroid<M>(t: TorusShape, mat: M, m: MathF) returns (mesh: MeshObject<M>)
    ensures fresh(mesh)
    ensures mesh.triangles == TorusTriangles(t, true, m)
    ensures mesh.bound == Some(TorusBound(t, mat)) && mesh.mat == mat
  {
    mesh := NewTorus(t, true, mat, m);
  }
}
