# A verified model of a C# ray tracer

This project models the core of RayTracerDotNet, a small C# ray tracer, and
proves properties of the model. The source holds two generations of the
program, the root tree and the `RayTracer/` tree, which do not compile
together. Each file is modelled on its own terms, and a module covers the
files that share one concept:

- `BmpImages` (bmp.dfy) is the 24-bit BMP writer of the newer `RawImage`. It
  covers the file header, the DIB header, the padded BGR rows and the
  little-endian field writers, all over a byte stream.
- `Animations` (animation.dfy) is the template expander. It splits
  `{start;frames;end}` placeholders out of a scene text and renders each
  frame by interpolation.
- `Scenes` (scene.dfy) is the first generation's integrator. It covers the
  nearest-hit scan, direct light with shadow rays, the depth-bounded
  recursive trace, refraction and reflection, blur, supersampling,
  rendering and the tone-mapper order. A family of functions over a `World`
  value is the specification. The `Scene` class holds the same state, and
  its methods are the source's loops, each proved equal to its function.
- Intersections. `Planes`, `PlaneXYs`, `CheckerBoards`, `Spheres`,
  `Quadratics`, `Caps`, `Cylinders`, `Cones` and `Meshes` cover the guards
  and the nearest-candidate choice. The quadratic and plane roots enter
  through uninterpreted maths.
- Mesh generation. `Cubes` covers both cubes, and `Tori` covers the torus
  and the toroid. They fix the triangle lists, the grid indexing, the
  shading normals and the bounding spheres.
- Values. `Vectors`, `Colors`, `Materials` (the Fresnel term) and `Rays`.
- `AreaLights` covers both area-light expansions.
- `ToneMappers` covers the max-linear and non-linear mappers.
- `Images` is the older `RawImage`: in-place tone mapping and conversion to
  a bitmap.
- `Cameras` covers the camera, the perspective, orthogonal, circular
  fisheye and diagonal fisheye cameras.

Some conventions hold throughout:

- Floats are reals.
- `sqrt`, `sin`, `cos`, `tan`, `pow` and `atan2` are fields of a `MathF`
  record of functions. They carry facts only through explicit hypotheses:
  `SqrtSound(m)` gives a non-negative square root whose square is its
  argument, and `TrigSound(m)` gives sin² + cos² = 1.
- `EPS` is 0.00001 and `DMAX` is 8 (Common/Global.cs).
- Randomness is an oracle:
  - the area lights read a sequence of draws in [0, 1);
  - the integrator's blur reads a function from the primary ray and a draw
    index to a number.
- Objects that the source updates in place are classes. These are the
  scene, the mesh, both raw images, the tone mappers and the byte stream.
  Value types are datatypes.

## Model

| member | source | states |
|---|---|---|
| Global.Div | Common/Vec3.cs:21 | a non-zero divisor gives the exact quotient (q·b = a); a zero divisor gives 0 in place of the single-precision infinity |
| Global.Abs | Objects/Plane.cs:31 | `MathF.Abs`: the result is non-negative and equals x or -x |
| RealMath.SqrtMonotone | Common/Vec3.cs:20 | under a sound `MathF.Sqrt`, roots compare (strictly, and for equality) exactly as their radicands do |
| RealMath.SqrtOfSquare | Common/Vec3.cs:20 | the root of the square of a non-negative number is that number |
| Vectors.SquareIsNonNegative | Common/Vec3.cs:35 | `Square()` is never negative and is zero exactly for the zero vector |
| Vectors.CrossIsOrthogonal | Common/Vec3.cs:29-32 | operator `%` gives a vector orthogonal to both operands |
| Vectors.CrossAntiCommutes | Common/Vec3.cs:32 | a % b == -(b % a) |
| Vectors.CrossSelfIsZero | Common/Vec3.cs:32 | a % a is the zero vector |
| Vectors.DotCommutes | Common/Vec3.cs:29 | the dot product `a * b` is symmetric |
| Vectors.NegIsScaleByMinusOne | Common/Vec3.cs:23 | unary minus, defined as `a * (-1)`, negates every component |
| Vectors.AddSubCancels | Common/Vec3.cs:24-25 | (a + b) − b == a: operator `-` undoes operator `+` |
| Vectors.SquareOfScale | Common/Vec3.cs:26-35 | scaling by f multiplies the squared length by f² |
| Vectors.LengthPositive | Common/Vec3.cs:20 | `Length` of a non-zero vector is positive and squares back to `Square()` |
| Vectors.NormalizeIsUnit | Common/Vec3.cs:20-21 | `Normalize()` of a non-zero vector has unit squared length |
| Vectors.SquareAlongLine | Common/Vec3.cs:24-35 | the squared length of u + w·t is the quadratic Square(u) + 2t(u·w) + t²Square(w) |
| Colors.LumOfGrey | Common/Color.cs:19 | the luminance weights .21, .72, .07 sum to one: a grey colour's luminance is its level |
| Colors.LumIsAdditive | Common/Color.cs:19-21 | luminance of a sum of colours is the sum of luminances |
| Colors.LumIsHomogeneous | Common/Color.cs:19-24 | luminance of a scaled colour is the scaled luminance |
| Colors.AddSubCancels | Common/Color.cs:21-22 | (a + b) - b == a |
| Colors.BlackIsAddIdentity | Common/Color.cs:21 | adding black (0, 0, 0), the accumulators' starting value, changes no colour, on either side |
| Colors.WhiteIsMulIdentity | Common/Color.cs:23 | a * White == a channel-wise |
| Colors.QuotUndoesMul | Common/Color.cs:23-25 | (a * b) / b == a when no channel of b is zero |
| Rays.MakeRay | Common/Ray.cs:11-15 | the constructor keeps the start and stores a unit direction for any non-zero direction |
| Rays.Offset | Common/Ray.cs:21-24 | the new start is EPS along the ray; a unit direction is kept unchanged |
| Rays.UnitStaysUnit | Common/Ray.cs:14-23 | re-normalising a unit direction (as `Offset` does) leaves it unchanged |
| Intersections.Closer | Composition/Scene.cs:133 | one step of the nearest-hit scan: keeps the earlier hit on a tie, never returns a farther hit than either input, and is empty only when both are |
| Intersections.NearestIsNearest | Composition/Scene.cs:125-135 | the scan over all objects finds nothing exactly when no object is hit; otherwise it returns a hit of least t, the first such in scan order |
| Intersections.HitXY | Objects/Intersection.cs:29 | `Intersection.Hit(t, n)` is a hit carrying t and n |
| Intersections.MissXY | Objects/Intersection.cs:34 | `Intersection.Miss()` is not a hit, with t = 0 and the zero normal |
| Materials.Plain | Objects/Material.cs:33 | the four-argument constructor is neither reflective nor refractive, and its zero N and Kap give f0 = White |
| Materials.FresnelAtNormalIncidence | Objects/Material.cs:35-42 | at cos = 1 the Schlick term vanishes and `GetFresnel` is f0 |
| Materials.FresnelAtGrazingIncidence | Objects/Material.cs:35-42 | at cos = 0 `GetFresnel` is White for every n and kap |
| Materials.F0ChannelIsFraction | Objects/Material.cs:37-39 | for n >= 0 the denominator is positive and each channel of f0 lies in [0, 1] |
| Materials.Pow5InUnit | Objects/Material.cs:41 | `MathF.Pow(1 - costh, 5)` stays in [0, 1] for costh in [0, 1] |
| Materials.FresnelBetweenF0AndOne | Objects/Material.cs:35-42 | for non-negative n and costh in [0, 1], every channel of `GetFresnel` lies between f0 and 1 |
| Materials.GetFresnel | Objects/Material.cs:35-42 | definition: f0 + (1 − f0)·(1 − costh)⁵ with f0 per channel from N and Kap; no contract of its own, its values at cos 1 and 0 and its bounds are the three lemmas above |
| Planes.MakePlane | Objects/Plane.cs:21-26 | keeps centre and material and stores a unit normal for any non-zero normal |
| Planes.PlaneOffsetAlongRay | Objects/Plane.cs:30-32 | the signed distance to the plane changes linearly along the ray |
| Planes.PlaneCrossing | Objects/Plane.cs:30-34 | no hit when abs(dir·n) < EPS; a hit has t >= EPS and its point lies on the plane, and it is the only such t; a miss of a non-parallel ray means the plane lies behind EPS |
| Planes.CrossingIsUnique | Objects/Plane.cs:32 | for a non-parallel ray, the computed t is the one and only parameter on the plane |
| Planes.PlaneIntersect | Objects/Plane.cs:28-35 | `Plane.Intersect`: the crossing reported with the plane's normal and material, or null as above |
| PlaneXYs.PlaneXYIntersect | Objects/PlaneXY.cs:12-19 | `Miss()` when abs(dir.z) < EPS; a hit has t >= 0 (not EPS), lies on z = 0 and has normal (0,0,1); a miss of a non-parallel ray means z = 0 lies behind the start |
| CheckerBoards.MakeCheckerBoard | Objects/CheckerBoard.cs:27-37 | the two pattern directions are orthogonal to the constructor's normal and to each other; centre, pattern direction and materials are kept |
| CheckerBoards.CsRem | Objects/CheckerBoard.cs:54 | C#'s `%` truncates: for k >= 0 the remainder lies in [0, abs(n)), for k < 0 in (-abs(n), 0] |
| CheckerBoards.ModIsEuclidean | Objects/CheckerBoard.cs:54 | for n > 0, `Mod` (the truncating remainder moved into range) lies in [0, n) and equals the Euclidean remainder |
| CheckerBoards.Mod | Objects/CheckerBoard.cs:54 | for a positive modulus the result lies in [0, n), whatever the sign of k |
| CheckerBoards.PicksFirstIffEvenSum | Objects/CheckerBoard.cs:49 | the first material is taken exactly on cells whose index sum is even |
| CheckerBoards.NeighbourCellsAlternate | Objects/CheckerBoard.cs:47-49 | stepping one cell along either pattern direction switches material |
| CheckerBoards.CellIndex | Objects/CheckerBoard.cs:47-48 | the cell index is the floor of the projection over the cell size |
| CheckerBoards.CheckerIntersect | Objects/CheckerBoard.cs:39-52 | the plane crossing (as for `Plane`), with the material chosen by the parity of its two cell indices |
| Quadratics.PickRoot | Objects/Sphere.cs:43-46 | the smaller of the valid roots, the only valid one, or -1 when neither is valid |
| Quadratics.QuadraticHit | Objects/Sphere.cs:31-49 | no hit for a negative discriminant; the tangent root when abs(discr) < EPS; otherwise the smaller valid root of the two; never a hit before EPS |
| Quadratics.RootSolves | Objects/Sphere.cs:41-42 | with an exact square root, both computed roots solve a·t² + b·t + c = 0 |
| Quadratics.ZeroNeedsDiscriminant | Objects/Sphere.cs:33 | a real zero forces a non-negative discriminant, so the early null is sound |
| Quadratics.LineQuadratic | Objects/Sphere.cs:28-30 | the squared distance along a line minus R is the quadratic with coefficients Square(w), 2·u·w and Square(u) - R |
| Spheres.QuadraticMeasuresSurface | Objects/Sphere.cs:28-30 | the sphere's quadratic at t is the squared distance of the ray point from the centre minus radius² |
| Spheres.SphereIntersect | Objects/Sphere.cs:26-52 | `Sphere.Intersect`: no hit for a negative discriminant; a hit has t >= EPS, the sphere's material and normal hitPoint - center; with two roots it is the smaller root beyond EPS |
| Spheres.NegativeDiscriminantMisses | Objects/Sphere.cs:33 | a negative discriminant means no point of the ray's line is on the sphere |
| Spheres.TwoRootHitIsOnSurface | Objects/Sphere.cs:39-50 | a hit from the two-root branch lies on the sphere: its normal has length radius |
| Caps.AcrossAlongLine | Objects/Cylinder.cs:35-37 | the across-axis part `v - va * (v * va)` of a point moving along a line moves along a line |
| Caps.AxialAlongLine | Objects/Cone.cs:44-49 | the axial offset of a point moving along a line changes linearly |
| Caps.AcrossSquareAlongLine | Objects/Cylinder.cs:35-37 | the squared across-axis distance along a line is a quadratic in t |
| Caps.DiskCap | Objects/Cylinder.cs:64-74 | a cap hit crosses the cap's plane at t >= EPS with the cap's normal and lies within the radius; a miss of a non-parallel ray means every crossing beyond EPS is outside the disk |
| Caps.OutsideDiskOnSquares | Objects/Cylinder.cs:72 | with an exact root, `(pt - c).Length > r` is the squared comparison, and a negative radius rejects every point |
| Cylinders.SideQuadraticMeasuresSurface | Objects/Cylinder.cs:33-38 | the side quadratic at t is the squared distance of the ray point from the axis minus r² |
| Cylinders.CylinderSide | Objects/Cylinder.cs:31-62 | `IntersectSide`: no hit for a negative discriminant; with two roots, the smaller root beyond EPS that lies between the caps |
| Cylinders.TwoRootSideHitIsOnSurface | Objects/Cylinder.cs:46-59 | a two-root side hit lies at distance r from the axis |
| Cylinders.CylinderBottom | Objects/Cylinder.cs:64-74 | `IntersectBottomCap`: a hit lies within r of c1 and carries the normal (c1 - c2) normalised |
| Cylinders.CylinderTop | Objects/Cylinder.cs:76-86 | `IntersectTopCap`: a hit lies within r of c2 and carries the normal (c2 - c1) normalised |
| Cylinders.CylinderIntersect | Objects/Cylinder.cs:88-101 | no hit exactly when side, top and bottom all miss; otherwise the nearest of the three, ties to the earlier in that order |
| Cones.MakeCone | Objects/Cone.cs:26-35 | the constructor fails (the source throws) exactly when abs(r1 - r2) < EPS; otherwise it stores its arguments |
| Cones.Apex | Objects/Cone.cs:40 | the apex c1 + (c2 - c1)·r1/(r1 - r2) is the point of the axis line where the radius, interpolated from r1 at c1 to r2 at c2, is zero |
| Cones.SideQuadraticMeasuresSurface | Objects/Cone.cs:39-50 | the side quadratic at t is the double cone's implicit surface function cos²α·(squared across-axis distance) - sin²α·(axial offset)² at the ray point |
| Cones.SurfaceAlongLine | Objects/Cone.cs:44-49 | along a line, the surface function is the quadratic with the source's a, b and c |
| Cones.ConeExpansion | Objects/Cone.cs:44-49 | the surface function along a line, written in the scalars the coefficients use, expands to a·t² + b·t + c |
| Cones.ConeSide | Objects/Cone.cs:37-77 | `IntersectSide`: no hit for a negative discriminant; with two roots, the smaller root beyond EPS that lies between the caps |
| Cones.TwoRootSideHitIsOnSurface | Objects/Cone.cs:58-71 | a two-root side hit lies on the cone's surface |
| Cones.ConeBottom | Objects/Cone.cs:79-89 | `IntersectBottomCap`: a hit lies within r1 of c1 and carries the normal (c1 - c2) normalised |
| Cones.ConeTop | Objects/Cone.cs:91-101 | `IntersectTopCap`: a hit lies within r2 of c2 and carries the normal (c2 - c1) normalised |
| Cones.ConeIntersect | Objects/Cone.cs:103-116 | no hit exactly when side, top and bottom all miss; otherwise the nearest of the three, ties to the earlier in that order |
| Meshes.TriangleIntersect | Objects/MeshObject.cs:49-60 | the result is -1 or at least EPS; it is not -1 exactly when the plane parameter is at least EPS and the plane point passes all three edge tests, and then it is that parameter |
| Meshes.PlaneParameterIsOnPlane | Objects/MeshObject.cs:51-54 | for a ray not parallel to the face, the computed parameter reaches the triangle's plane |
| Meshes.HitIsOnTriangle | Objects/MeshObject.cs:49-60 | a triangle hit lies in the triangle's plane and inside all three edges |
| Meshes.EdgeCrossesAgree | Objects/MeshObject.cs:51-57 | the edge cross products from B and from C span the same face normal as the one from A |
| Meshes.CornersAreInside | Objects/MeshObject.cs:55-57 | the edge tests never reject the triangle's own corners |
| Meshes.WeightsOf | Objects/MeshObject.cs:75-78 | the three interpolation weights sum to 1, and wa, wb are the sub-area ratios when the area is non-zero |
| Meshes.AreaIsSymmetric | Objects/MeshObject.cs:83-90 | Heron's formula gives the same area for every ordering of the corners |
| Meshes.DegenerateArea | Objects/MeshObject.cs:83-90 | a triangle with two equal corners has area 0 |
| Meshes.WeightsAtCorners | Objects/MeshObject.cs:73-80 | at each corner of a triangle of non-zero area the weights are that corner's unit vector |
| Meshes.ShadingNormalAtCornerA | Objects/MeshObject.cs:67-81 | with shading normals, the normal at corner A is A's own shading normal, normalised |
| Meshes.TriangleHit | Objects/MeshObject.cs:128-129 | a triangle is a candidate exactly when its parameter exceeds EPS |
| Meshes.GetNormal | Objects/MeshObject.cs:67-81 | under a sound square root the normal returned is a unit vector, or the zero vector when the face normal or the weighted vertex normals vanish |
| Meshes.MeshIntersect | Objects/MeshObject.cs:116-138 | definition: null on a missed bound, else the nearest triangle candidate; no contract of its own, its meaning is `MeshIntersectIsNearest` |
| Meshes.MeshIntersectIsNearest | Objects/MeshObject.cs:116-138 | a missed bound gives no hit; otherwise no hit exactly when no triangle yields t > EPS, and a hit is that of the first triangle of least t, with the mesh's material |
| Meshes.MeshObject.constructor | Objects/MeshObject.cs:97-102 | a new mesh has no triangles, no bound and the given material |
| Meshes.MeshObject.AddTriangle | Objects/MeshObject.cs:108 | appends one triangle and keeps the bound |
| Meshes.MeshObject.SetBound | Objects/MeshObject.cs:114 | replaces the bound and keeps the triangles |
| Meshes.MeshObject.Intersect | Objects/MeshObject.cs:116-138 | the loop keeping (ints, tmin, imin) returns exactly the nearest-hit scan `MeshIntersect` |
| Cubes.CornersAreCorners | Objects/Cube.cs:9-17 | every corner a..h is center + (±side/2, ±side/2, ±side/2) |
| Cubes.CubeTopology | Objects/Cube.cs:19-30 | twelve triangles without shading normals over the eight corners; for a non-zero side, triangle i lies in face i / 2 and in no other, so each face is covered by exactly two triangles |
| Cubes.CubeFaces | Objects/Cube.cs:19-30 | the twelve triangles are six face pairs: x = +s, y = +s, z = +s, x = -s, y = -s, z = -s in turn |
| Cubes.BoundEnclosesCorners | RayTracer/Objects/Cube.cs:42 | the bounding radius sqrt(3·side²)/2 + EPS is positive and every corner lies strictly inside the bounding sphere |
| Cubes.CornerDistance | RayTracer/Objects/Cube.cs:20-27 | every corner is at squared distance 3·(side/2)² from the centre |
| Cubes.NewCube | Objects/Cube.cs:7-31 | a fresh mesh holding exactly the twelve triangles in the constructor's order, with no bound |
| Cubes.NewBoundedCube | RayTracer/Objects/Cube.cs:17-43 | the same twelve triangles, then the bounding sphere at the centre with radius sqrt(3·side²)/2 + EPS |
| Cubes.AddCubeTriangles | Objects/Cube.cs:19-30 | the twelve `AddTriangle` calls append exactly `CubeTriangles` and leave the bound alone |
| Cubes.AddFace | Objects/Cube.cs:19-20 | two consecutive `AddTriangle` calls append the face pair (p, q, r), (p, w, q) |
| Tori.GridIndicesShape | Objects/Torus.cs:45-54 | the index triangles number 2·u·tessv after u rows, and every grid position used lies in the (tessu+1)×(tessv+1) grid |
| Tori.TorusTopology | Objects/Torus.cs:45-54 | exactly 2·tessu·tessv triangles, u-major then v, with in-grid corners (u,v),(u+1,v),(u,v+1) and (u+1,v),(u+1,v+1),(u,v+1); shading normals exactly when asked for, taken at the corners' grid positions |
| Tori.RealiseAllAppends | Objects/Torus.cs:45-54 | turning index triangles into triangles distributes over concatenation |
| Tori.FillGrid | Objects/Torus.cs:24-43 | fresh (tessu+1)×(tessv+1) point grid, and a normal grid exactly when shading normals are used; afterwards every position holds its surface point and normal |
| Tori.FillRow | Objects/Torus.cs:30-42 | the inner loop fills row u of both grids and keeps the rows before it |
| Tori.AddGridTriangles | Objects/Torus.cs:45-54 | the second loop nest appends exactly `TorusTriangles` and leaves the bound alone |
| Tori.AddRow | Objects/Torus.cs:47-53 | the inner loop appends the 2·tessv triangles of row u |
| Tori.RowStep | Objects/Torus.cs:47-53 | appending quad (u, v) to row u up to v gives row u up to v + 1 |
| Tori.AddQuad | Objects/Torus.cs:49-52 | the loop body appends the two triangles of quad (u, v), with shading normals from the same positions when there is a normal grid |
| Tori.QuadOfGrid | Objects/Torus.cs:49-52 | a filled grid holds the four corners of every quad |
| Tori.NewTorus | Objects/Torus.cs:21-57 | a fresh mesh holding exactly `TorusTriangles` and the bound sphere at the centre with radius ro + ri + EPS |
| Tori.Tessellate | Objects/Torus.cs:24-54 | both loop nests: the grids, then the triangles appended in order |
| Tori.NewToroid | Objects/Toroid.cs:10-44 | the toroid is the torus with shading normals always on: the same triangles and the same bound |
| BmpImages.U32 | RayTracer/Composition/RawImage.cs:46 | `uint` arithmetic: the value modulo 2^32, unchanged when it fits |
| BmpImages.IntOfU32 | RayTracer/Composition/RawImage.cs:96 | the `(int)` cast of a `uint` is the value below 2^31 and wraps to a negative number from 2^31 up |
| BmpImages.RowSizeIsLeastMultipleOfFour | RayTracer/Composition/RawImage.cs:44-49 | without wrap-around, `GetRowSize` is the least multiple of four that is at least 3·Width |
| BmpImages.RowSizeIsMultipleOfFour | RayTracer/Composition/RawImage.cs:44-49 | even with `uint` wrap-around the row size is a multiple of four below 2³²: the wrapped 3·Width rounded up, or 0 when rounding up passes 2³² |
| BmpImages.RowSize | RayTracer/Composition/RawImage.cs:44-49 | definition: 3·Width rounded up to a multiple of four in `uint` arithmetic; no contract of its own, see `RowSizeIsMultipleOfFour` and `RowSizeIsLeastMultipleOfFour` |
| BmpImages.LittleEndianRoundTrip | RayTracer/Composition/RawImage.cs:57-61 | the n little-endian bytes of i < 256^n read back as i |
| BmpImages.HostOrderIsIrrelevant | RayTracer/Composition/RawImage.cs:51-61 | `WriteLittleEndianBytes` of the host's `GetBytes` is little-endian on either host order |
| BmpImages.ZerosAreZero | RayTracer/Composition/RawImage.cs:63-66 | `WriteZeros(n)` writes n zero bytes, the little-endian encoding of 0 |
| BmpImages.ReadField | RayTracer/Composition/RawImage.cs:68-92 | each header field reads back at its offset, whatever follows the headers |
| BmpImages.HeadersRoundTrip | RayTracer/Composition/RawImage.cs:68-92 | the two headers are 54 bytes and read back as 'B','M', the file size, zero reserved fields, offset 54, then 40, Width, Height, 1, 24, 0, Height·rowSize, 2835, 2835, 0, 0 |
| BmpImages.FileHeaderRoundTrip | RayTracer/Composition/RawImage.cs:68-77 | the 14-byte file header reads back as 'B','M', the size, two zero reserved fields and offset 54 |
| BmpImages.DibSizesRoundTrip | RayTracer/Composition/RawImage.cs:81-85 | the DIB header's first five fields read back as 40, Width, Height, 1 and 24 |
| BmpImages.DibLayoutRoundTrip | RayTracer/Composition/RawImage.cs:86-91 | the DIB header's last six fields read back as 0, the pixel array size, 2835, 2835, 0 and 0 |
| BmpImages.ChannelByteRange | RayTracer/Composition/RawImage.cs:102-104 | a channel at or below 0 gives byte 0, at or above 1 gives 255, and in between the truncated c·255 |
| BmpImages.ChannelByteIsMonotone | RayTracer/Composition/RawImage.cs:102-104 | the channel byte never decreases as the channel grows |
| BmpImages.FloorAgreesAfterClamp | RayTracer/Composition/RawImage.cs:102-104 | flooring in place of the `(int)` truncation gives the same byte once clamped |
| BmpImages.PaddingCompletesRow | RayTracer/Composition/RawImage.cs:96 | without wrap-around the padding is 0 to 3 bytes and completes 3·Width to `GetRowSize()` |
| BmpImages.SizesDoNotWrap | RayTracer/Composition/RawImage.cs:72-87 | below 2^31 bytes the size fields are the true sizes Height·rowSize and 54 + Height·rowSize |
| BmpImages.RawImage.constructor | RayTracer/Composition/RawImage.cs:18-25 | requires positive width and height, and allocates a Width × Height buffer |
| BmpImages.RawImage.Get | RayTracer/Composition/RawImage.cs:32 | the getter returns the stored colour of (x, y) |
| BmpImages.RawImage.Set | RayTracer/Composition/RawImage.cs:33 | the setter stores the colour at (x, y) and changes no other pixel |
| BmpImages.RawImage.RowLayout | RayTracer/Composition/RawImage.cs:99-106 | pixel x of row y sits at offset 3x of the row in B, G, R order, and the padding bytes are zero |
| BmpImages.RawImage.RowLength | RayTracer/Composition/RawImage.cs:96-106 | without wrap-around every row written is exactly `GetRowSize()` bytes |
| BmpImages.RawImage.RowAt | RayTracer/Composition/RawImage.cs:97-107 | row j of the pixel array starts at offset j·rowSize, rows y = 0 first |
| BmpImages.RawImage.FileSizeIsRecorded | RayTracer/Composition/RawImage.cs:72-106 | the file is 54 + Height·rowSize bytes, which is exactly the file size its header records; the pixel-array size field is the length of the rows |
| BmpImages.RawImage.WriteBmpHeader | RayTracer/Composition/RawImage.cs:68-77 | appends exactly the encoded file header fields |
| BmpImages.RawImage.WriteDibHeader | RayTracer/Composition/RawImage.cs:79-92 | appends exactly the encoded DIB header fields |
| BmpImages.RawImage.WritePixelArray | RayTracer/Composition/RawImage.cs:94-108 | appends rows y = 0 .. Height - 1, each its BGR pixels then the padding |
| BmpImages.RawImage.RowsStep | RayTracer/Composition/RawImage.cs:97-107 | one more row's pixels and padding extend the rows written so far by one |
| BmpImages.RawImage.WriteRowPixels | RayTracer/Composition/RawImage.cs:99-105 | the inner loop appends pixels x = 0 .. Width - 1 of row y |
| BmpImages.RawImage.WriteToFile | RayTracer/Composition/RawImage.cs:114-120 | the stream receives exactly the file: both headers, then the pixel rows |
| BmpImages.EncodeAppends | RayTracer/Composition/RawImage.cs:117-118 | encoding two field lists one after the other is encoding their concatenation |
| BmpImages.WritePixel | RayTracer/Composition/RawImage.cs:102-104 | one pixel is written as its blue, green, red bytes |
| BmpImages.WriteUint | RayTracer/Composition/RawImage.cs:57-58 | appends the four little-endian bytes of i |
| BmpImages.WriteUshort | RayTracer/Composition/RawImage.cs:60-61 | appends the two little-endian bytes of i |
| BmpImages.WriteZeros | RayTracer/Composition/RawImage.cs:63-66 | appends n zero bytes, none when n is not positive |
| ToneMappers.NonLinearPixel | Filters/NonLinearToneMapper.cs:24 | the new colour of a pixel is c / (c·p + 1) in each channel, from that pixel's own old colour only |
| ToneMappers.NonLinearRange | Filters/NonLinearToneMapper.cs:24 | for p >= 1 a non-negative channel lands in [0, 1), and 0 stays 0 |
| ToneMappers.NonLinearIsMonotone | Filters/NonLinearToneMapper.cs:24 | for p >= 0 the map is non-decreasing on non-negative channels |
| ToneMappers.NonLinearRoundTrip | Filters/NonLinearToneMapper.cs:24 | for p >= 0 the map is undone by q / (1 - q·p) on every non-negative channel |
| ToneMappers.NonLinearToneMapper.constructor | Filters/NonLinearToneMapper.cs:14-17 | stores p, which defaults to 1 |
| ToneMappers.NonLinearToneMapper.ToneMap | Filters/NonLinearToneMapper.cs:18-28 | every pixel is rewritten once, in place, to `NonLinearPixel` of its old colour; the dimensions are unchanged |
| ToneMappers.Max | Filters/MaxLinearToneMapper.cs:19 | `Math.Max` is an upper bound of both arguments and equals one of them |
| ToneMappers.ChannelMax | Filters/MaxLinearToneMapper.cs:19 | the largest of the three channels of a pixel |
| ToneMappers.ColumnFoldIsMax | Filters/MaxLinearToneMapper.cs:18-19 | the running maximum down one column is the larger of its start and every channel it passes, and is one of them |
| ToneMappers.GridMaxIsMax | Filters/MaxLinearToneMapper.cs:15-21 | the reduction starting at 0 is non-negative, bounds every channel of every pixel, and is 0 or some pixel's largest channel |
| ToneMappers.MaxLinearBounds | Filters/MaxLinearToneMapper.cs:15-28 | with non-negative channels and a positive maximum, every channel ends in [0, 1] and the largest becomes exactly 1 |
| ToneMappers.ScaledPixel | Filters/MaxLinearToneMapper.cs:23-26 | a non-negative pixel below the maximum, multiplied by 1/max, lies in [0, 1], and a pixel at the maximum reaches 1 |
| ToneMappers.ImageMaximum | Filters/MaxLinearToneMapper.cs:15-21 | the reduction loop computes exactly `GridMax`: start at 0, columns x = 0, 1, … and rows within them in order |
| ToneMappers.MaxLinearToneMapper.ToneMap | Filters/MaxLinearToneMapper.cs:12-30 | every channel of every pixel is multiplied by 1/max once, in place |
| Images.FlipIsInvolution | Composition/RawImage.cs:53 | the row flip Height - y - 1 undoes itself, so it is a bijection on the rows |
| Images.ToneMappedIsInUnit | Composition/RawImage.cs:37-41 | after both mappers, an image with non-negative channels keeps its shape and has every channel in [0, 1], the largest exactly 1 unless the image is black |
| Images.RawImage.constructor | Composition/RawImage.cs:18-23 | a w × h buffer of black (default) colours |
| Images.RawImage.Set | Composition/RawImage.cs:31 | the setter stores the colour at (x, y), read back by the getter, and changes no other pixel |
| Images.RawImage.ToneMap | Composition/RawImage.cs:37-41 | the non-linear mapper with p = 1, then the max-linear mapper, both in place |
| Images.RawImage.ToBitmap | Composition/RawImage.cs:47-58 | a fresh Width × Height bitmap whose pixel (x, Height - 1 - y) holds the clamped bytes of image pixel (x, y), so every bitmap pixel is written exactly once |
| AreaLights.OffsetsAreInside | Composition/Light/AreaLight.cs:49-58 | the outer loop ends with exactly Samples offsets, each accepted by the do-while test x² + y² + z² ≤ Radius² |
| AreaLights.SampledLightsSplitLum | Composition/Light/AreaLight.cs:41-60 | one sample yields the centre with the full luminance; otherwise Samples lights, each within Radius of Pos with Lum/Samples, whose luminances add up to Lum |
| AreaLights.LegacySampledLightsShape | Composition/AreaLight.cs:28-44 | the older expansion fails on a negative count (list capacity), gives no light for 0 samples and otherwise Samples lights within Radius of Pos adding up to Lum, even for one sample |
| AreaLights.SampledLights | Composition/Light/AreaLight.cs:41-60 | definition: the centre for one sample, else the jittered lights; no contract of its own, its meaning is `SampledLightsSplitLum` |
| AreaLights.LegacySampledLights | Composition/AreaLight.cs:28-44 | definition: a failure for a negative count, else the jittered lights; no contract of its own, its meaning is `LegacySampledLightsShape` |
| AreaLights.DrawInside | Composition/Light/AreaLight.cs:51-56 | the do-while loop returns the first candidate inside the sphere and the next unused draw, or reports that the draws ran out |
| AreaLights.Jitter | Composition/Light/AreaLight.cs:46-59 | the outer loop yields exactly the lights of `Jittered`: accepted offsets in drawing order, placed at Pos + offset with Lum/Samples |
| AreaLights.ToPointLights | Composition/Light/AreaLight.cs:41-60 | equals `SampledLights`: the one-sample shortcut, else the jittered lights |
| AreaLights.LegacyToPointLights | Composition/AreaLight.cs:28-44 | equals `LegacySampledLights`: a negative count fails, else the jittered lights |
| Animations.IndexOf | RayTracer/Composition/AnimationPreprocessor.cs:63-65 | `IndexOf` is −1 exactly when the character is absent, and otherwise the position of its first occurrence |
| Animations.SplitPieces | RayTracer/Composition/AnimationPreprocessor.cs:67 | no field produced by `Split(';')` contains a ';' |
| Animations.JoinSplit | RayTracer/Composition/AnimationPreprocessor.cs:67 | the fields of `Split(';')`, joined with ';', give back the text between the braces |
| Animations.SplitJoin | RayTracer/Composition/AnimationPreprocessor.cs:67 | fields without ';' joined with ';' split back into the same fields |
| Animations.Value | RayTracer/Composition/AnimationPreprocessor.cs:51-52 | definition: start + (end − start)·frame/frames before frame `frames`, end from then on; no contract of its own, its meaning is `ValueInterpolates` |
| Animations.ToStr | RayTracer/Composition/AnimationPreprocessor.cs:30-54 | definition: a block's text, or the printed `Value`; no contract of its own, see `RenderPlaceholder` |
| Animations.Render | RayTracer/Composition/AnimationPreprocessor.cs:82 | definition: the chunks' texts concatenated in order; no contract of its own, see `RenderAppends` |
| Animations.GetFrame | RayTracer/Composition/AnimationPreprocessor.cs:80-83 | definition: `Render` of the parsed chunks; no contract of its own, see `PlainTextIsUnchanged` |
| Animations.NextStepFindsFirstBraces | RayTracer/Composition/AnimationPreprocessor.cs:63-74 | the loop stops exactly when no '{' is left; it throws "Missing closing bracket" exactly when a '{' but no '}' is left; a placeholder splits the text at its first '{' and first '}' into the text before, the fields and the rest |
| Animations.NextStep | RayTracer/Composition/AnimationPreprocessor.cs:63-74 | one pass of the loop; its contract only says the remaining text shrinks, its meaning is `NextStepFindsFirstBraces` |
| Animations.ParseFrom | RayTracer/Composition/AnimationPreprocessor.cs:61-76 | definition: the constructor's loop from a remaining text; no contract of its own, see `ParseStep`, `BracketErrors` and `FramesOfLastPlaceholder` |
| Animations.Parse | RayTracer/Composition/AnimationPreprocessor.cs:57-77 | definition: `ParseFrom` with no chunk and one frame; no contract of its own, see `Preprocess` and `PlainTextIsUnchanged` |
| Animations.ValueInterpolates | RayTracer/Composition/AnimationPreprocessor.cs:49-54 | frame 0 prints start, every frame from `frames` on prints end, and a frame in between prints a value between start and end |
| Animations.RenderAppends | RayTracer/Composition/AnimationPreprocessor.cs:80-83 | the frame text of a concatenation of chunks is the concatenation of their frame texts |
| Animations.RenderPlaceholder | RayTracer/Composition/AnimationPreprocessor.cs:30-83 | a block followed by an animation renders as the block's text verbatim followed by the printed interpolated value |
| Animations.PlainTextIsUnchanged | RayTracer/Composition/AnimationPreprocessor.cs:57-77 | a text without '{' parses, has one frame and renders as itself in every frame |
| Animations.BracketErrors | RayTracer/Composition/AnimationPreprocessor.cs:65-67 | a '{' with no '}' throws "Missing closing bracket", and a first '}' before the first '{' makes `Substring` throw |
| Animations.ParseStep | RayTracer/Composition/AnimationPreprocessor.cs:63-74 | for text `prefix{body}rest` the loop adds the block `prefix` and the animation read from `body`, then resumes on `rest` with that animation's frame count |
| Animations.FramesOfLastPlaceholder | RayTracer/Composition/AnimationPreprocessor.cs:60-76 | parsing only appends chunks, and `Frames` ends as the frame count of the last placeholder, or 1 without any, since `Math.Max(frames, frames)` keeps no maximum |
| Animations.Preprocess | RayTracer/Composition/AnimationPreprocessor.cs:57-77 | the constructor's loop builds exactly `Parse`: the chunks and frame count, or the exception the text raises |
| Animations.ReadAnimation | RayTracer/Composition/AnimationPreprocessor.cs:67-70 | the three fields are converted in order, a missing or unreadable one throwing before the later ones are read |
| Cameras.CoefficientInRange | Composition/Camera/PerspectiveCamera.cs:47 | a sample inside the screen (offset in [0, 1]) has screen coefficient 2(p + off)/size − 1 in [−1, 1] |
| Cameras.PixelCentreInside | Composition/Camera.cs:49 | the centre of a pixel on the screen has a coefficient strictly inside (−1, 1) |
| Cameras.CoefficientMirrors | Composition/Camera/PerspectiveCamera.cs:47 | pixels p and size − 1 − p have opposite coefficients |
| Cameras.Coefficient | Composition/Camera/PerspectiveCamera.cs:47 | definition: 2(p + off)/size − 1; no contract of its own, see `CoefficientInRange`, `PixelCentreInside` and `CoefficientMirrors` |
| Cameras.BasisIsOrthogonal | Composition/Camera/PerspectiveCamera.cs:36-41 | right = (vup × w) scaled and up = (w × right) scaled are across the view, across each other, and right is horizontal |
| Cameras.MakeCamera | Composition/Camera.cs:26-39 | keeps eye, lookat and the pixel size, with right and up across the view and across each other |
| Cameras.GetRay | Composition/Camera.cs:47-51 | every ray starts at the eye and, unless the direction is zero, has a unit direction |
| Cameras.CentrePixelLooksAtLookat | Composition/Camera.cs:49 | on an odd screen the centre pixel's ray points from the eye to lookat |
| Cameras.DefaultFocalKeepsLookat | Composition/Camera/PerspectiveCamera.cs:32-33 | without a focal distance, `eye + (lookat − eye).Normalize() * fd` is lookat itself |
| Cameras.FocalLookatAtFocalDistance | Composition/Camera/PerspectiveCamera.cs:32-33 | with a focal distance fd, the re-projected lookat lies at distance fd from the eye |
| Cameras.MakePerspective | Composition/Camera/PerspectiveCamera.cs:27-42 | lookat is moved onto the focal plane; right and up are across the re-projected view and across each other; right spans f·tan(hfov·π/360) |
| Cameras.PerspectiveHalfWidth | Composition/Camera/PerspectiveCamera.cs:29-39 | unless the view is vertical, the right vector's length is f·tan(hfov·π/360), the half-width of the screen |
| Cameras.PerspectiveRayEnd | Composition/Camera/PerspectiveCamera.cs:45-48 | the perspective camera never returns null |
| Cameras.PerspectiveEndsAreSymmetric | Composition/Camera/PerspectiveCamera.cs:47 | the centres of opposite pixels end at points symmetric about lookat |
| Cameras.MakeOrthogonal | RayTracer/Composition/Camera/OrthogonalCamera.cs:24-37 | lookat is moved onto the focal plane, with right and up across the view and across each other |
| Cameras.OrthogonalRayEnd | RayTracer/Composition/Camera/OrthogonalCamera.cs:40-41 | the orthogonal camera never returns null |
| Cameras.OrthogonalRaysAreParallel | RayTracer/Composition/Camera/OrthogonalCamera.cs:40-45 | end minus eye is lookat′ − eye for every pixel and offset: all rays are parallel |
| Cameras.FisheyePoint | Composition/Camera/FisheyeCamera.cs:55-58 | the end point is null exactly when xNorm² + yNorm² > 1 |
| Cameras.FisheyeCentreLooksAhead | Composition/Camera/FisheyeCamera.cs:55-58 | the sample at the centre of the disk ends at eye + dir·focalDist |
| Cameras.FisheyePointOnSphere | Composition/Camera/FisheyeCamera.cs:55-58 | with an orthonormal frame every end point lies at distance focalDist from the eye |
| Cameras.FrameCombination | Composition/Camera/FisheyeCamera.cs:58 | the squared length of right·a + up·b + dir·c is a² + b² + c² for an orthonormal frame |
| Cameras.FisheyeFrameIsOrthonormal | Composition/Camera/FisheyeCamera.cs:34-47 | unless the view is vertical, dir, right and up are unit vectors at right angles |
| Cameras.CrossOfPerpendicular | Composition/Camera/FisheyeCamera.cs:47 | w × right is not zero when w ≠ 0 and right is a unit vector across w |
| Cameras.Lagrange | Composition/Camera/FisheyeCamera.cs:47 | Lagrange's identity \|a × b\|² = \|a\|²\|b\|² − (a·b)² for the cross product of Common/Vec3.cs |
| Cameras.MakeCircularFisheye | Composition/FisheyeCamera.cs:20-32 | the disk spans min(w, h), and the frame is the normalised view, vup × w and w × right |
| Cameras.CircularFisheyeSeesDisk | Composition/FisheyeCamera.cs:34-42 | a sample gives a ray exactly when it lies in the centred disk of diameter min(w, h) |
| Cameras.CircularFisheyeCentre | Composition/FisheyeCamera.cs:34-42 | the sample at the centre of the screen looks straight along the view |
| Cameras.MakeFisheye | Composition/Camera/FisheyeCamera.cs:30-48 | the focal distance defaults to \|lookat − eye\|, the disk spans min(w, h), and the normaliser is 1 or, in diagonal mode, the positive root of w²/s² + h²/s² |
| Cameras.DiagonalSquareAboveOne | Composition/Camera/FisheyeCamera.cs:40-42 | on a screen with positive sides the squared diagonal normaliser is at least 1 |
| Cameras.FisheyeRayEnd | Composition/Camera/FisheyeCamera.cs:51-59 | null exactly when the normalised sample lies outside the unit disk |
| Cameras.FisheyeEye | RayTracer/Composition/Camera/FisheyeCamera.cs:62 | every fisheye ray starts at the eye |
| Cameras.DiagonalFisheyeCoversScreen | Composition/Camera/FisheyeCamera.cs:39-56 | in diagonal mode every sample point on the screen rectangle yields a ray |
| Cameras.DiagonalFisheyeCornersOnCircle | Composition/Camera/FisheyeCamera.cs:39-55 | in diagonal mode the four screen corners land exactly on the unit circle |
| Cameras.CircularFisheyeModeSeesDisk | Composition/Camera/FisheyeCamera.cs:44-56 | outside diagonal mode a sample gives a ray exactly when it lies in the centred disk of diameter min(w, h) |
| Cameras.FisheyeEndOnSphere | Composition/Camera/FisheyeCamera.cs:30-59 | unless the view is vertical, every end point lies at distance focalDist from the eye |
| Scenes.FirstHitIsNearest | Composition/Scene.cs:126-136 | no hit exactly when every object misses; otherwise the hit of some object with the least t, every earlier hit object being strictly farther (ties go to the first added) |
| Scenes.ClampCos | Composition/Scene.cs:158-159 | a cosine below EPS becomes 0, any other is kept |
| Scenes.VisibleBySquares | Composition/Scene.cs:154 | under a sound square root, the shadow test compares squared distances: the light is seen when the shadow ray hits nothing or hits beyond the light |
| Scenes.Visible | Composition/Scene.cs:151-154 | definition: the shadow ray hits nothing, or hits beyond the light; no contract of its own, see `VisibleBySquares` |
| Scenes.LightTerm | Composition/Scene.cs:149-166 | definition: black for a hidden light, else its diffuse and specular terms; no contract of its own, see `DarkWhenAllHidden` and `Scene.Illuminate` |
| Scenes.DarkWhenAllHidden | Composition/Scene.cs:146-168 | a point that no light reaches gets black from the direct light |
| Scenes.Direct | Composition/Scene.cs:144-169 | definition: the light terms added light by light; no contract of its own, see `DarkWhenAllHidden` and `Scene.DirectLightSource` |
| Scenes.DiffuseIsNonNegative | Composition/Scene.cs:156-160 | with non-negative light and diffuse colours the diffuse term is non-negative in every channel |
| Scenes.OrientFacesRay | Composition/Scene.cs:222-227 | `inside` holds exactly when the reversed ray makes a negative dot product with the normal; the normal used then faces the ray and is the normal or its opposite |
| Scenes.RefractiveIndex | Composition/Scene.cs:261-262 | the luminance of N outside, its reciprocal inside |
| Scenes.RefractRay | Composition/Scene.cs:178-188 | no refracted direction exactly at grazing incidence (\|cos\| < EPS) or under total internal reflection (1 − (1 − cos²)/n/n < 0) |
| Scenes.ReflectionMirrors | Composition/Scene.cs:274 | about a unit normal the reflected direction has the opposite normal component and the same length |
| Scenes.RndVecWithinRadius | Composition/Scene.cs:195-204 | with sin² + cos² = 1 and a length draw in [0, 1], the random vector has length draw·radius and lies in the ball of that radius |
| Scenes.SphericalSquare | Composition/Scene.cs:200-202 | the point at distance r along a polar angle and an azimuth has squared length r² |
| Scenes.FacingCos | Composition/Scene.cs:254-255 | the cosine handed to `GetFresnel` is never negative |
| Scenes.AmbientWhenNothingToShade | Composition/Scene.cs:215-219 | past DMAX, or when every object misses, the trace is the ambient colour |
| Scenes.Trace | Composition/Scene.cs:212-219 | definition: ambient past DMAX or on a miss, else `Shade`; no contract of its own, see `AmbientWhenNothingToShade` and `Scene.TraceRay` |
| Scenes.Shade | Composition/Scene.cs:221-281 | definition: the rough part times Rough plus the smooth part times Smooth; no contract of its own, see `Scene.TraceRay` |
| Scenes.Bounce | Composition/Scene.cs:254-276 | definition: the refracted part weighted 1 − kr, then the reflected part weighted kr (White when refraction fails); no contract of its own, see `TotalInternalReflection` and `Scene.TraceBounce` |
| Scenes.BlurOnlyAtFirstHit | Composition/Scene.cs:243-252 | below the first hit a smooth surface takes one sample along its unperturbed normal, undivided |
| Scenes.TotalInternalReflection | Composition/Scene.cs:264-275 | when a refractive, reflective surface cannot refract, the reflected ray carries the whole sample with weight (1, 1, 1) |
| Scenes.SampleOffsetInside | Composition/Scene.cs:111-114 | the sample offsets are (2k + 1)/(2N), centred in N equal parts and strictly inside the pixel |
| Scenes.UniformMean | Composition/Scene.cs:108-118 | when all N × N samples have the same colour, the pixel has that colour: the division by N² gives a true mean |
| Scenes.EmptySceneIsAmbient | Composition/Scene.cs:102-119 | a scene without objects shows the ambient colour in every pixel, for any number of samples |
| Scenes.PixelColor | Composition/Scene.cs:102-119 | definition: one centred trace, or the mean of the N × N samples; no contract of its own, see `UniformMean`, `EmptySceneIsAmbient` and `Scene.TracePixel` |
| Scenes.Scene.constructor | Composition/Scene.cs:41-56 | positive sizes and sample count are required; the ambient colour is (0.8, 0.9, 1) and no object, light or tone mapper is held |
| Scenes.Scene.AddObject | Composition/Scene.cs:62 | appends the object and changes nothing else |
| Scenes.Scene.AddLight | Composition/Scene.cs:68 | appends the light and changes nothing else |
| Scenes.Scene.AddToneMapper | Composition/Scene.cs:70 | appends the tone mapper and changes nothing else |
| Scenes.Scene.FirstIntersection | Composition/Scene.cs:126-136 | the scan keeping a strictly nearer hit computes `FirstHit` |
| Scenes.Scene.DirectLightSource | Composition/Scene.cs:144-169 | the loop over the lights computes `Direct`: the sum, light by light, of the terms of the lights the shadow ray sees |
| Scenes.Scene.Illuminate | Composition/Scene.cs:148-166 | one pass of the loop adds the light's term, black when the shadow ray is blocked |
| Scenes.Scene.AddShine | Composition/Scene.cs:156-165 | the diffuse term lum/dist·diffuse·cos, then the specular term lum/dist·specular·cos2^shine, are added |
| Scenes.Scene.TraceRay | Composition/Scene.cs:212-282 | computes `Trace`: ambient past DMAX or on a miss, else rough part times Rough plus smooth part times Smooth |
| Scenes.Scene.RoughPart | Composition/Scene.cs:230-235 | the material's ambient times the scene's plus the direct light, for rough materials only |
| Scenes.Scene.SmoothPart | Composition/Scene.cs:238-279 | the blur samples (one below the first hit) summed and divided by their number |
| Scenes.Scene.BlurSample | Composition/Scene.cs:248-252 | at the first hit of a blurring material the normal is perturbed by a random vector and renormalised, then one bounce is traced |
| Scenes.Scene.TraceBounce | Composition/Scene.cs:254-276 | the refracted colour weighted by 1 − kr, then the reflected colour weighted by kr, or by (1, 1, 1) when refraction fails |
| Scenes.Scene.TraceRefracted | Composition/Scene.cs:267-268 | the secondary ray starts at the hit point, is offset by EPS and is traced one level deeper |
| Scenes.Scene.TracePixel | Composition/Scene.cs:102-119 | computes `PixelColor`: the centred ray for one sample, else the N × N samples summed and divided by N² |
| Scenes.Scene.TraceGrid | Composition/Scene.cs:109-117 | the outer sample loop adds the N columns in order |
| Scenes.Scene.TraceColumn | Composition/Scene.cs:112-116 | the inner sample loop adds the N samples of one column in order |
| Scenes.Scene.TraceSample | Composition/Scene.cs:114-115 | the sample of column dx and row dy is the trace of the camera ray through offsets SampleOffset(dx), SampleOffset(dy) |
| Scenes.Scene.Render | Composition/Scene.cs:76-94 | a fresh image of the scene's size holding the traced pixels after every tone mapper, in the order added |
| Scenes.Scene.RenderPixels | Composition/Scene.cs:80-85 | after the pixel loops the buffer holds `PixelColor` of every pixel |
| Scenes.Scene.RenderColumn | Composition/Scene.cs:83 | column x gets its traced colours and the other columns are kept |
| Scenes.Scene.ApplyToneMappers | Composition/Scene.cs:88-92 | the tone mappers map the buffer one after the other, in the order they were added |
| Images.Flip | Composition/RawImage.cs:53 | the flipped row Height − y − 1 of a row on the image is again on the image |

## Left out

- Floating point: the model computes in exact reals. Rounding, NaN, infinities and float-to-int cast overflow are not modelled.
- `Global.Div` stands in for float division wherever the divisor can be 0, and gives 0 there; the source gives an infinity or NaN. This covers several places:
  - normalising a zero vector;
  - a light at the hit point;
  - a mesh ray parallel to the triangle's plane (x·dir = 0);
  - torus tessellation counts of 0;
  - a screen side of 0;
  - an animation with 0 frames;
  - a smooth material with `blursamples="0"` (read at Composition/SceneBuilder.cs:76): `smoothColor /= blurSamples` (Composition/Scene.cs:278) divides 0 by 0, NaN in every channel, while `Scenes.Over` in `Scenes.SmoothColor` gives black.
- ToneMappers.MaxLinearToneMapper.ToneMap: when every channel is 0 (or below), the source divides 1 by 0 and fills the image with NaN or infinities; the model scales by 0 and gives black.
- The max-linear mapper's `NoNaN` check is not modelled: reals have no NaN, so it has nothing to test.
- Square root, trigonometry, `tan` and non-integer powers are uninterpreted. The following values are therefore only computed, with nothing proved about them:
  - the roots of the quadratics;
  - Heron's area in the mesh;
  - the side normals of the cone and the cylinder;
  - `FromAngle` and the torus grid points.
- Randomness: `ThreadSafeRandom` and `System.Random` are an oracle. The area lights read a finite sequence, three draws per candidate, and running out is the error `RandomExhausted`; the rejection loops of the source end only with probability 1. The blur reads a function of the primary ray and a draw index.
- `Parallel.For` in `Scene.Render` and in the tone mappers is modelled as sequential loops. The unsynchronised shared `max` update of the max-linear mapper is modelled as the intended sequential reduction.
- Progress reporting (`Reporter`), the Schlick tone mappers, the scene loaders and the entry points are not part of this model. The "shlick" name of the older loader builds a max-linear mapper (Composition/SceneBuilder.cs:124-125).
- `ThreadSafeRandom`'s locking and seeding are not part of this model.
- Opening the output file in `WriteToFile` and System.Drawing's `Bitmap` are not modelled. The stream is a byte sequence (`ByteStream`), and the bitmap is an array of byte triples.
- Scenes.Scene.TraceSample: `Cam.GetRay(x, y, xOff, yOff)` has no four-argument overload in Composition/Camera.cs. It is the world's `sampleRay` parameter, and nothing is assumed of it.
- The integrator's material (`Scenes.Surface`): Composition/Scene.cs reads `IsRough`, `Rough`, `Smooth`, `Blur` and `BlurSamples`, which Objects/Material.cs lacks. The integrator's material is that record plus these fields.
- The integrator's materials (`Scenes.SceneSurface`) are restricted to materials whose Fresnel term is defined, so that no channel's f0 divides by zero.
- Scenes.Scene.ApplyToneMappers: each tone mapper is a `ToneMapper` value and is created fresh when it is applied. Its `Reporter` property is not modelled.
- `IntsPt` is not a stored field. It is the ray's point at t (`Rays.PointAt`), as in the source's intersection constructors.
- The source updates `ints.Normal` inside the trace, on a shared intersection record. The model carries the normal as a value (`Scenes.Orientation`, then the blurred normal).
- Color by float (`Lum / Samples`) has no operator in Common/Color.cs, whose division is colour by colour. It is modelled channel by channel (`AreaLights.Share`, `Scenes.Over`).
- `RealMath.PI` is the float constant `MathF.PI` as a real, 3.14159265.
- Meshes.MeshObject.SetBound: the source's bound is any object. The model's bound is a sphere, the only kind the source ever sets.
- Tori.NewTorus: the tessellation counts are naturals. In the source a count of −1 gives an empty grid, and a lower count makes the array allocation throw.
- Tori.NewTorus: the source builds the mesh object before its point grids, while the model fills the grids first. Nothing observable differs.
- Tori.NewToroid reuses the torus construction with shading normals on; Objects/Toroid.cs is the same code with the normals always present.
- Cameras.MakeFisheye: the diagonal normaliser's `width * width` is an `int` product in the source and can overflow past 46340 pixels. The model's product is exact.
- BmpImages.Padding: `GetRowSize` works in `uint` and the model wraps it (`BmpImages.RowSize`), but the padding's `int` product `Width * 3` (RayTracer/Composition/RawImage.cs:96) is taken as exact, with no 32-bit overflow.
- Animations.Preprocess: the animation loop is proved through the step function `NextStep` and the recursive `ParseFrom`. `Convert.ToSingle`, `Convert.ToInt32` and `float.ToString` belong to .NET's culture handling and are the `NumberFormat` parameter.
- Some methods split one source method so that each loop is its own method:
  - Scenes: TraceGrid, TraceColumn, TraceSample, RoughPart, SmoothPart, BlurSample, TraceBounce, TraceRefracted, Illuminate, AddShine, RenderPixels, RenderColumn, ApplyToneMappers;
  - Animations.ReadAnimation;
  - the BMP field writers and row writers;
  - the cube's AddCubeTriangles and AddFace;
  - the torus's Tessellate, FillGrid, FillRow, AddGridTriangles, AddRow and AddQuad;
  - ToneMappers.ImageMaximum.
  Each is cited at the lines it covers.
