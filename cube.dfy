/**
 * The cube meshes: twelve triangles over the eight corners, without a bound
 * (Objects/Cube.cs) and with a bounding sphere (RayTracer/Objects/Cube.cs).
 */
module Cubes {
  import opened Wrappers
  import opened Global
  import opened RealMath
  import opened Vectors
  import opened Spheres
  import opened Meshes
  import opened Sequences

  /** The corners a..h of the source, center + (±s, ±s, ±s) with s = side/2. */
  function Corners(center: Vec3, side: real): (k: seq<Vec3>)
    ensures |k| == 8
  {
    var s := side / 2.0;
    [Add(center, Vec3(s, -s, -s)), Add(center, Vec3(s, s, -s)),
     Add(center, Vec3(-s, s, -s)), Add(center, Vec3(-s, -s, -s)),
     Add(center, Vec3(s, -s, s)), Add(center, Vec3(s, s, s)),
     Add(center, Vec3(-s, s, s)), Add(center, Vec3(-s, -s, s))]
  }

  /** The twelve triangles in the order the constructor adds them, none with shading normals. */
  function CubeTriangles(center: Vec3, side: real): seq<Triangle>
  {
    var k := Corners(center, side);
    var a, b, c, d := k[0], k[1], k[2], k[3];
    var e, f, g, h := k[4], k[5], k[6], k[7];
    [Triangle(a, f, e, None), Triangle(a, b, f, None),
     Triangle(b, g, f, None), Triangle(b, c, g, None),
     Triangle(e, g, h, None), Triangle(e, f, g, None),
     Triangle(c, h, g, None), Triangle(c, d, h, None),
     Triangle(d, e, h, None), Triangle(d, a, e, None),
     Triangle(d, b, a, None), Triangle(d, c, b, None)]
  }

  /** Each coordinate of v is the centre's plus or minus s = side/2. */
  predicate IsCorner(center: Vec3, side: real, v: Vec3)
  {
    var s := side / 2.0;
    && (v.x == center.x + s || v.x == center.x - s)
    && (v.y == center.y + s || v.y == center.y - s)
    && (v.z == center.z + s || v.z == center.z - s)
  }

  /**
   * Face f of the cube: faces 0, 1, 2 are x = +s, y = +s, z = +s and faces
   * 3, 4, 5 are x = −s, y = −s, z = −s, relative to the centre, s = side/2.
   */
  predicate OnFace(center: Vec3, side: real, v: Vec3, f: nat)
    requires f < 6
  {
    var s := side / 2.0;
    if f == 0 then v.x == center.x + s
    else if f == 1 then v.y == center.y + s
    else if f == 2 then v.z == center.z + s
    else if f == 3 then v.x == center.x - s
    else if f == 4 then v.y == center.y - s
    else v.z == center.z - s
  }

  /** All three corners of the triangle lie on face f. */
  predicate InFace(center: Vec3, side: real, tr: Triangle, f: nat)
    requires f < 6
  {
    OnFace(center, side, tr.a, f) && OnFace(center, side, tr.b, f) && OnFace(center, side, tr.c, f)
  }

  /** Every corner is center + (±s, ±s, ±s). */
  lemma CornersAreCorners(center: Vec3, side: real)
    ensures forall v :: v in Corners(center, side) ==> IsCorner(center, side, v)
  {
  }

  /**
   * Twelve triangles without shading normals, every vertex a corner; for a
   * non-zero side triangle i lies in face i / 2 and in no other face, so
   * each face is covered by exactly two triangles.
   */
  lemma {:induction false} CubeTopology(center: Vec3, side: real)
    ensures var ts := CubeTriangles(center, side);
            && |ts| == 12
            && (forall i :: 0 <= i < 12 ==> ts[i].sn.None?)
            && (forall i :: 0 <= i < 12 ==>
                  ts[i].a in Corners(center, side) && ts[i].b in Corners(center, side)
                  && ts[i].c in Corners(center, side))
    ensures side != 0.0 ==>
              forall i, f :: 0 <= i < 12 && 0 <= f < 6 ==>
                (InFace(center, side, CubeTriangles(center, side)[i], f) <==> f == i / 2)
  {
    var ts := CubeTriangles(center, side);
    var s := side / 2.0;
    if side != 0.0 {
      assert s != 0.0 && s != -s;
      forall i, f | 0 <= i < 12 && 0 <= f < 6
        ensures InFace(center, side, ts[i], f) <==> f == i / 2
      {
        FaceOfTriangle(center, side, i, f);
      }
    }
  }

  lemma FaceOfTriangle(center: Vec3, side: real, i: nat, f: nat)
    requires side != 0.0 && i < 12 && f < 6
    ensures InFace(center, side, CubeTriangles(center, side)[i], f) <==> f == i / 2
  {
    var s := side / 2.0;
    assert s != 0.0;
  }

  /** The bound radius of the second cube: √(3·side²)/2 + EPS. */
  function BoundRadius(side: real, m: MathF): real
  {
    m.sqrt(3.0 * side * side) / 2.0 + EPS
  }

  /** Every corner lies strictly inside the bounding sphere. */
  lemma {:induction false} BoundEnclosesCorners(center: Vec3, side: real, m: MathF)
    requires SqrtSound(m)
    ensures BoundRadius(side, m) > 0.0
    ensures forall v :: v in Corners(center, side) ==>
              Square(Sub(v, center)) < BoundRadius(side, m) * BoundRadius(side, m)
              && Length(Sub(v, center), m) < BoundRadius(side, m)
  {
    var r := BoundRadius(side, m);
    RadiusExceedsHalfDiagonal(side, m);
    forall v | v in Corners(center, side)
      ensures Square(Sub(v, center)) < r * r && Length(Sub(v, center), m) < r
    {
      CornerDistance(center, side, v);
      ShorterThanRadius(Sub(v, center), r, m);
    }
  }

  /** The squared distance of every corner from the centre is 3·(side/2)². */
  lemma CornerDistance(center: Vec3, side: real, v: Vec3)
    requires v in Corners(center, side)
    ensures Square(Sub(v, center)) == 3.0 * (side / 2.0) * (side / 2.0)
  {
    var s := side / 2.0;
    assert Sub(v, center) in [Vec3(s, -s, -s), Vec3(s, s, -s), Vec3(-s, s, -s), Vec3(-s, -s, -s),
                              Vec3(s, -s, s), Vec3(s, s, s), Vec3(-s, s, s), Vec3(-s, -s, s)];
  }

  lemma {:induction false} RadiusExceedsHalfDiagonal(side: real, m: MathF)
    requires SqrtSound(m)
    ensures BoundRadius(side, m) > 0.0
    ensures BoundRadius(side, m) * BoundRadius(side, m) > 3.0 * (side / 2.0) * (side / 2.0)
  {
    var root := m.sqrt(3.0 * side * side);
    assert 3.0 * side * side >= 0.0;
    assert root >= 0.0 && root * root == 3.0 * side * side;
    var r := root / 2.0 + EPS;
    assert r * r == root * root / 4.0 + root * EPS + EPS * EPS;
  }

  /** A vector whose square is below r² (r > 0) is shorter than r. */
  lemma {:induction false} ShorterThanRadius(d: Vec3, r: real, m: MathF)
    requires SqrtSound(m) && r > 0.0 && Square(d) < r * r
    ensures Length(d, m) < r
  {
    SquareIsNonNegative(d);
    SqrtMonotone(m, Square(d), r * r);
    SqrtOfSquare(m, r);
  }

  /** `Cube(center, side, material)` of Objects/Cube.cs: the twelve triangles, no bound. */
  method NewCube<M>(center: Vec3, side: real, mat: M) returns (mesh: MeshObject<M>)
    ensures fresh(mesh)
    ensures mesh.triangles == CubeTriangles(center, side) && mesh.bound == None && mesh.mat == mat
  {
    mesh := new MeshObject(mat);
    AddCubeTriangles(mesh, center, side);
  }

  /**
   * `Cube(center, side, material)` of RayTracer/Objects/Cube.cs: the same
   * twelve triangles, then a bounding sphere of radius √(3·side²)/2 + EPS.
   */
  method NewBoundedCube<M>(center: Vec3, side: real, mat: M, m: MathF) returns (mesh: MeshObject<M>)
    ensures fresh(mesh)
    ensures mesh.triangles == CubeTriangles(center, side) && mesh.mat == mat
    ensures mesh.bound == Some(Sphere(center, BoundRadius(side, m), mat))
  {
    mesh := new MeshObject(mat);
    AddCubeTriangles(mesh, center, side);
    mesh.SetBound(Sphere(center, m.sqrt(3.0 * side * side) / 2.0 + EPS, mat));
  }

  /** The two triangles (p, q, r) and (p, w, q) of one face, as the constructor adds them. */
  function FacePair(p: Vec3, q: Vec3, r: Vec3, w: Vec3): seq<Triangle>
  {
    [Triangle(p, q, r, None), Triangle(p, w, q, None)]
  }

  /** The twelve triangles are the faces x = +s, y = +s, z = +s, x = −s, y = −s, z = −s in turn. */
  lemma CubeFaces(center: Vec3, side: real)
    ensures var k := Corners(center, side);
            CubeTriangles(center, side)
            == FacePair(k[0], k[5], k[4], k[1]) + FacePair(k[1], k[6], k[5], k[2])
               + FacePair(k[4], k[6], k[7], k[5]) + FacePair(k[2], k[7], k[6], k[3])
               + FacePair(k[3], k[4], k[7], k[0]) + FacePair(k[3], k[1], k[0], k[2])
  {
  }

  /** The constructor body shared by both cubes: twelve `AddTriangle` calls, two per face. */
  method AddCubeTriangles<M>(mesh: MeshObject<M>, center: Vec3, side: real)
    modifies mesh
    ensures mesh.triangles == old(mesh.triangles) + CubeTriangles(center, side)
    ensures mesh.bound == old(mesh.bound)
  {
    var s := side / 2.0;
    var a := Add(center, Vec3(s, -s, -s));
    var b := Add(center, Vec3(s, s, -s));
    var c := Add(center, Vec3(-s, s, -s));
    var d := Add(center, Vec3(-s, -s, -s));
    var e := Add(center, Vec3(s, -s, s));
    var f := Add(center, Vec3(s, s, s));
    var g := Add(center, Vec3(-s, s, s));
    var h := Add(center, Vec3(-s, -s, s));
    ghost var start := mesh.triangles;
    ghost var f1, f2, f3 := FacePair(a, f, e, b), FacePair(b, g, f, c), FacePair(e, g, h, f);
    ghost var f4, f5, f6 := FacePair(c, h, g, d), FacePair(d, e, h, a), FacePair(d, b, a, c);

    AddFace(mesh, a, f, e, b);
    AddFace(mesh, b, g, f, c);
    AppendIsAssociative(start, f1, f2);
    AddFace(mesh, e, g, h, f);
    AppendIsAssociative(start, f1 + f2, f3);
    AddFace(mesh, c, h, g, d);
    AppendIsAssociative(start, f1 + f2 + f3, f4);
    AddFace(mesh, d, e, h, a);
    AppendIsAssociative(start, f1 + f2 + f3 + f4, f5);
    AddFace(mesh, d, b, a, c);
    AppendIsAssociative(start, f1 + f2 + f3 + f4 + f5, f6);
    CubeFaces(center, side);
  }

  /** Two consecutive `AddTriangle` calls of the constructor: the face (p, q, r), (p, w, q). */
  method AddFace<M>(mesh: MeshObject<M>, p: Vec3, q: Vec3, r: Vec3, w: Vec3)
    modifies mesh
    ensures mesh.triangles == old(mesh.triangles) + FacePair(p, q, r, w)
    ensures mesh.bound == old(mesh.bound)
  {
    mesh.AddTriangle(Triangle(p, q, r, None));
    mesh.AddTriangle(Triangle(p, w, q, None));
  }
}
