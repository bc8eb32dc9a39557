/**
 * The cameras: how a pixel (x, y) and an offset (ox, oy) inside it become
 * the end point (and, for the orthogonal camera, the start point) of a ray.
 *
 *  - Camera:       Composition/Camera.cs, the first generation's camera with `GetRay`
 *  - Perspective:  Composition/Camera/PerspectiveCamera.cs
 *  - Orthogonal:   RayTracer/Composition/Camera/OrthogonalCamera.cs
 *  - CircularFisheye: Composition/FisheyeCamera.cs (no diagonal mode)
 *  - Fisheye:      Composition/Camera/FisheyeCamera.cs and
 *                  RayTracer/Composition/Camera/FisheyeCamera.cs, whose
 *                  constructors and GetRayEnd are the same code
 *
 * Every camera takes the world's up vector to be (0, 0, 1).
 */
module Cameras {
  import opened Wrappers
  import opened Global
  import opened RealMath
  import opened Vectors
  import opened Rays

  const VUp: Vec3 := Vec3(0.0, 0.0, 1.0)

  // ---------------------------------------------------------------------
  // Screen coefficients shared by the planar cameras
  // ---------------------------------------------------------------------

  /** The place 2(p + off)/size − 1 of a sample along one screen axis. */
  function Coefficient(p: int, off: real, size: int): real
  {
    Div(2.0 * (p as real + off), size as real) - 1.0
  }

  /** A sample inside the screen (offset in [0, 1]) lies in [−1, 1]. */
  lemma {:induction false} CoefficientInRange(p: int, off: real, size: int)
    requires 0 <= p < size && 0.0 <= off <= 1.0
    ensures -1.0 <= Coefficient(p, off, size) <= 1.0
  {
    RatioBetween(2.0 * (p as real + off), size as real, 0.0, 2.0);
  }

  /** A quotient n/d with d > 0 lies between lo and hi when lo·d ≤ n ≤ hi·d. */
  lemma RatioBetween(n: real, d: real, lo: real, hi: real)
    requires d > 0.0 && lo * d <= n <= hi * d
    ensures lo <= Div(n, d) <= hi
  {
    assert Div(n, d) == n / d;
    assert lo == lo * d / d && hi == hi * d / d;
  }

  /** The same with strict bounds. */
  lemma RatioStrictlyBetween(n: real, d: real, lo: real, hi: real)
    requires d > 0.0 && lo * d < n < hi * d
    ensures lo < Div(n, d) < hi
  {
    assert Div(n, d) == n / d;
    assert lo == lo * d / d && hi == hi * d / d;
  }

  /** The centre of a pixel on the screen lies strictly inside (−1, 1). */
  lemma {:induction false} PixelCentreInside(p: int, size: int)
    requires 0 <= p < size
    ensures -1.0 < Coefficient(p, 0.5, size) < 1.0
  {
    RatioStrictlyBetween(2.0 * (p as real + 0.5), size as real, 0.0, 2.0);
  }

  /** Pixels p and size − 1 − p sit at opposite places on their axis. */
  lemma {:induction false} CoefficientMirrors(p: int, size: int)
    requires 0 <= p < size
    ensures Coefficient(size - 1 - p, 0.5, size) == -Coefficient(p, 0.5, size)
  {
    var s := size as real;
    var a := Div(2.0 * (p as real + 0.5), s);
    var b := Div(2.0 * ((size - 1 - p) as real + 0.5), s);
    assert a * s == 2.0 * (p as real + 0.5);
    assert b * s == 2.0 * s - 2.0 * (p as real + 0.5);
    assert (a + b) * s == a * s + b * s;
    Cancel(a + b, s, 2.0);
  }

  /** A factor other than zero cancels. */
  lemma Cancel(q: real, s: real, v: real)
    requires s != 0.0 && q * s == v * s
    ensures q == v
  {
    assert (q - v) * s == 0.0;
  }

  /** The point reached from c by moving cx along right and cy along up. */
  function OnScreen(c: Vec3, right: Vec3, up: Vec3, cx: real, cy: real): Vec3
  {
    Add(Add(c, Scale(right, cx)), Scale(up, cy))
  }

  /** The right and up vectors the planar cameras derive from the viewing vector w = eye − lookat. */
  function RightOf(w: Vec3, size: real, m: MathF): Vec3
  {
    Scale(Normalize(Cross(VUp, w), m), size)
  }

  function UpOf(w: Vec3, right: Vec3, size: real, m: MathF): Vec3
  {
    Scale(Normalize(Cross(w, right), m), size)
  }

  /** Right is horizontal and across the view, up is across both. */
  lemma {:induction false} BasisIsOrthogonal(w: Vec3, rs: real, us: real, m: MathF)
    ensures var right := RightOf(w, rs, m);
            var up := UpOf(w, right, us, m);
            Dot(right, w) == 0.0 && Dot(up, w) == 0.0 && Dot(up, right) == 0.0 && Dot(right, VUp) == 0.0
  {
    var c := Cross(VUp, w);
    CrossIsOrthogonal(VUp, w);
    var k := Div(1.0, Length(c, m));
    ScalePreservesOrthogonality(c, k, w);
    ScalePreservesOrthogonality(Scale(c, k), rs, w);
    ScalePreservesOrthogonality(c, k, VUp);
    ScalePreservesOrthogonality(Scale(c, k), rs, VUp);
    var right := RightOf(w, rs, m);
    var u := Cross(w, right);
    CrossIsOrthogonal(w, right);
    var j := Div(1.0, Length(u, m));
    ScalePreservesOrthogonality(u, j, w);
    ScalePreservesOrthogonality(Scale(u, j), us, w);
    ScalePreservesOrthogonality(u, j, right);
    ScalePreservesOrthogonality(Scale(u, j), us, right);
  }

  // ---------------------------------------------------------------------
  // Composition/Camera.cs
  // ---------------------------------------------------------------------

  datatype Camera = Camera(eye: Vec3, lookat: Vec3, right: Vec3, up: Vec3, w: int, h: int)

  /**
   * `new Camera(eye, lookat, hfov, w, h)` with hfov in radians: right spans
   * f·tan(hfov/2) and up that times h/w, f the distance from eye to lookat;
   * both are across the view.
   */
  function MakeCamera(eye: Vec3, lookat: Vec3, hfov: real, w: int, h: int, m: MathF): (c: Camera)
    ensures c.eye == eye && c.lookat == lookat && c.w == w && c.h == h
    ensures Dot(c.right, Sub(eye, lookat)) == 0.0 && Dot(c.up, Sub(eye, lookat)) == 0.0
    ensures Dot(c.up, c.right) == 0.0
  {
    var wv := Sub(eye, lookat);
    var size := Length(wv, m) * m.tan(hfov / 2.0);
    var right := RightOf(wv, size, m);
    var up := UpOf(wv, right, size * Div(h as real, w as real), m);
    BasisIsOrthogonal(wv, size, size * Div(h as real, w as real), m);
    Camera(eye, lookat, right, up, w, h)
  }

  /** The un-normalised direction of the ray through the centre of pixel (x, y). */
  function Direction(c: Camera, x: int, y: int): Vec3
  {
    Sub(OnScreen(c.lookat, c.right, c.up, Coefficient(x, 0.5, c.w), Coefficient(y, 0.5, c.h)), c.eye)
  }

  /** `GetRay(x, y)`: every ray starts at the eye and has a unit direction (unless degenerate). */
  function GetRay(c: Camera, x: int, y: int, m: MathF): (r: Ray)
    ensures r.start == c.eye
    ensures SqrtSound(m) && Direction(c, x, y) != Zero ==> Square(r.dir) == 1.0
  {
    var d := Direction(c, x, y);
    NormalizeIsUnitWhenSound(d, m);
    MakeRay(c.eye, d, m)
  }

  /** With zero coefficients (the centre pixel of an odd screen) the ray points from eye to lookat. */
  lemma CentrePixelLooksAtLookat(c: Camera, x: int, y: int)
    requires 0 <= x && 0 <= y && 2 * x + 1 == c.w && 2 * y + 1 == c.h
    ensures Direction(c, x, y) == Sub(c.lookat, c.eye)
  {
    var cw, ch := c.w as real, c.h as real;
    assert 2.0 * (x as real + 0.5) == cw > 0.0;
    assert 2.0 * (y as real + 0.5) == ch > 0.0;
    assert Coefficient(x, 0.5, c.w) == 0.0;
    assert Coefficient(y, 0.5, c.h) == 0.0;
  }

  // ---------------------------------------------------------------------
  // Focal re-projection of lookat (perspective and orthogonal cameras)
  // ---------------------------------------------------------------------

  /** `focalDist ?? (lookat − eye).Length`. */
  function FocalDistance(eye: Vec3, lookat: Vec3, focalDist: Option<real>, m: MathF): real
  {
    if focalDist.Some? then focalDist.value else Length(Sub(lookat, eye), m)
  }

  /** `eye + (lookat − eye).Normalize() * fd`: lookat moved along the view onto the focal plane. */
  function FocalLookat(eye: Vec3, lookat: Vec3, focalDist: Option<real>, m: MathF): Vec3
  {
    Add(eye, Scale(Normalize(Sub(lookat, eye), m), FocalDistance(eye, lookat, focalDist, m)))
  }

  /** Without a focal distance lookat stays where it is. */
  lemma {:induction false} DefaultFocalKeepsLookat(eye: Vec3, lookat: Vec3, m: MathF)
    requires SqrtSound(m)
    ensures FocalLookat(eye, lookat, None, m) == lookat
  {
    var v := Sub(lookat, eye);
    var len := Length(v, m);
    if v == Zero {
      assert lookat == eye;
    } else {
      LengthPositive(v, m);
      var k := Div(1.0, len);
      assert k * len == 1.0;
      assert Scale(Scale(v, k), len) == v by {
        assert v.x * k * len == v.x * (k * len);
        assert v.y * k * len == v.y * (k * len);
        assert v.z * k * len == v.z * (k * len);
      }
    }
  }

  /** With a focal distance fd ≥ 0 the new lookat lies at distance fd from the eye. */
  lemma {:induction false} FocalLookatAtFocalDistance(eye: Vec3, lookat: Vec3, fd: real, m: MathF)
    requires SqrtSound(m) && lookat != eye
    ensures Square(Sub(FocalLookat(eye, lookat, Some(fd), m), eye)) == fd * fd
  {
    var v := Sub(lookat, eye);
    assert v != Zero;
    var n := Normalize(v, m);
    NormalizeIsUnit(v, m);
    assert Sub(FocalLookat(eye, lookat, Some(fd), m), eye) == Scale(n, fd);
    SquareOfScale(n, fd);
  }

  // ---------------------------------------------------------------------
  // Composition/Camera/PerspectiveCamera.cs
  // ---------------------------------------------------------------------

  datatype Perspective = Perspective(eye: Vec3, lookat: Vec3, right: Vec3, up: Vec3, screenWidth: int, screenHeight: int)

  /** tan of half the field of view, the field of view given in degrees. */
  function HalfFovTan(hfov: real, m: MathF): real
  {
    m.tan(hfov * PI / 180.0 / 2.0)
  }

  /** f·tan(hfov/2), f the length of the view vector: the half-width of the screen. */
  function HalfWidth(wv: Vec3, hfov: real, m: MathF): real
  {
    Length(wv, m) * HalfFovTan(hfov, m)
  }

  /**
   * `new PerspectiveCamera(eye, lookat, hfov, w, h, focalDist)`: lookat is
   * re-projected onto the focal plane, and right and up span f·tan(hfov/2)
   * and that times h/w across the view, f the focal distance.
   */
  function MakePerspective(eye: Vec3, lookat: Vec3, hfov: real, screenWidth: int, screenHeight: int,
                           focalDist: Option<real>, m: MathF): (c: Perspective)
    ensures c.eye == eye && c.lookat == FocalLookat(eye, lookat, focalDist, m)
    ensures c.screenWidth == screenWidth && c.screenHeight == screenHeight
    ensures Dot(c.right, Sub(eye, c.lookat)) == 0.0 && Dot(c.up, Sub(eye, c.lookat)) == 0.0
    ensures Dot(c.up, c.right) == 0.0
    ensures c.right == RightOf(Sub(eye, c.lookat), HalfWidth(Sub(eye, c.lookat), hfov, m), m)
  {
    var look := FocalLookat(eye, lookat, focalDist, m);
    var wv := Sub(eye, look);
    var size := HalfWidth(wv, hfov, m);
    var aspect := Div(screenHeight as real, screenWidth as real);
    var right := RightOf(wv, size, m);
    BasisIsOrthogonal(wv, size, size * aspect, m);
    Perspective(eye, look, right, UpOf(wv, right, size * aspect, m), screenWidth, screenHeight)
  }

  /** The half-width of the screen is f·tan(hfov·π/360), f the distance to the focal plane. */
  lemma {:induction false} PerspectiveHalfWidth(eye: Vec3, lookat: Vec3, hfov: real, screenWidth: int, screenHeight: int,
                                                focalDist: Option<real>, m: MathF)
    requires SqrtSound(m)
    requires Cross(VUp, Sub(eye, FocalLookat(eye, lookat, focalDist, m))) != Zero
    ensures var c := MakePerspective(eye, lookat, hfov, screenWidth, screenHeight, focalDist, m);
            var size := HalfWidth(Sub(eye, c.lookat), hfov, m);
            Square(c.right) == size * size
  {
    HalfWidthOf(MakePerspective(eye, lookat, hfov, screenWidth, screenHeight, focalDist, m), eye, hfov, m);
  }

  lemma HalfWidthOf(c: Perspective, eye: Vec3, hfov: real, m: MathF)
    requires SqrtSound(m) && Cross(VUp, Sub(eye, c.lookat)) != Zero
    requires c.right == RightOf(Sub(eye, c.lookat), HalfWidth(Sub(eye, c.lookat), hfov, m), m)
    ensures var size := HalfWidth(Sub(eye, c.lookat), hfov, m);
            Square(c.right) == size * size
  {
    RightOfLength(Sub(eye, c.lookat), HalfWidth(Sub(eye, c.lookat), hfov, m), m);
  }

  /** The right vector has the length it is scaled to. */
  lemma RightOfLength(w: Vec3, size: real, m: MathF)
    requires SqrtSound(m) && Cross(VUp, w) != Zero
    ensures Square(RightOf(w, size, m)) == size * size
  {
    var n := Normalize(Cross(VUp, w), m);
    NormalizeIsUnit(Cross(VUp, w), m);
    SquareOfScale(n, size);
  }

  /** `GetRayEnd(x, y, ox, oy)`: never null. */
  function PerspectiveRayEnd(c: Perspective, x: int, y: int, ox: real, oy: real): (r: Option<Vec3>)
    ensures r.Some?
  {
    Some(OnScreen(c.lookat, c.right, c.up, Coefficient(x, ox, c.screenWidth), Coefficient(y, oy, c.screenHeight)))
  }

  /** The centres of opposite pixels end at points symmetric about lookat. */
  lemma {:induction false} PerspectiveEndsAreSymmetric(c: Perspective, x: int, y: int)
    requires 0 <= x < c.screenWidth && 0 <= y < c.screenHeight
    ensures var a := PerspectiveRayEnd(c, x, y, 0.5, 0.5).value;
            var b := PerspectiveRayEnd(c, c.screenWidth - 1 - x, c.screenHeight - 1 - y, 0.5, 0.5).value;
            Add(a, b) == Scale(c.lookat, 2.0)
  {
    CoefficientMirrors(x, c.screenWidth);
    CoefficientMirrors(y, c.screenHeight);
  }

  // ---------------------------------------------------------------------
  // RayTracer/Composition/Camera/OrthogonalCamera.cs
  // ---------------------------------------------------------------------

  datatype Orthogonal = Orthogonal(eye: Vec3, lookat: Vec3, right: Vec3, up: Vec3, screenWidth: int, screenHeight: int)

  /**
   * `new OrthogonalCamera(eye, lookat, width, w, h, focalDist)`: the sensor
   * spans width/2 to the right and that times h/w upwards.
   */
  function MakeOrthogonal(eye: Vec3, lookat: Vec3, width: real, screenWidth: int, screenHeight: int,
                          focalDist: Option<real>, m: MathF): (c: Orthogonal)
    ensures c.eye == eye && c.lookat == FocalLookat(eye, lookat, focalDist, m)
    ensures c.screenWidth == screenWidth && c.screenHeight == screenHeight
    ensures Dot(c.right, Sub(eye, c.lookat)) == 0.0 && Dot(c.up, Sub(eye, c.lookat)) == 0.0
    ensures Dot(c.up, c.right) == 0.0
  {
    var look := FocalLookat(eye, lookat, focalDist, m);
    var wv := Sub(eye, look);
    var aspect := Div(screenHeight as real, screenWidth as real);
    var right := RightOf(wv, width / 2.0, m);
    BasisIsOrthogonal(wv, width / 2.0, width / 2.0 * aspect, m);
    Orthogonal(eye, look, right, UpOf(wv, right, width / 2.0 * aspect, m), screenWidth, screenHeight)
  }

  /** `GetRayEnd`: never null. */
  function OrthogonalRayEnd(c: Orthogonal, x: int, y: int, ox: real, oy: real): (r: Option<Vec3>)
    ensures r.Some?
  {
    Some(OnScreen(c.lookat, c.right, c.up, Coefficient(x, ox, c.screenWidth), Coefficient(y, oy, c.screenHeight)))
  }

  /** `GetEye`: the start of the ray moves with the pixel as its end does. */
  function OrthogonalEye(c: Orthogonal, x: int, y: int, ox: real, oy: real): Vec3
  {
    OnScreen(c.eye, c.right, c.up, Coefficient(x, ox, c.screenWidth), Coefficient(y, oy, c.screenHeight))
  }

  /** Every ray of the orthogonal camera has the direction lookat′ − eye: all rays are parallel. */
  lemma OrthogonalRaysAreParallel(c: Orthogonal, x: int, y: int, ox: real, oy: real)
    ensures Sub(OrthogonalRayEnd(c, x, y, ox, oy).value, OrthogonalEye(c, x, y, ox, oy)) == Sub(c.lookat, c.eye)
  {
  }

  // ---------------------------------------------------------------------
  // Fisheye projection
  // ---------------------------------------------------------------------

  /** A right-handed-or-not frame of three unit vectors at right angles. */
  ghost predicate Orthonormal(a: Vec3, b: Vec3, c: Vec3)
  {
    Square(a) == 1.0 && Square(b) == 1.0 && Square(c) == 1.0
    && Dot(a, b) == 0.0 && Dot(a, c) == 0.0 && Dot(b, c) == 0.0
  }

  /** The position (p + off − size/2)/(screenSize/2)/normalizer of a sample relative to the screen centre. */
  function FisheyeCoordinate(p: int, off: real, size: int, screenSize: int, normalizer: real): real
  {
    Div(Div((p as real + off) - (size as real) / 2.0, (screenSize as real) / 2.0), normalizer)
  }

  /** a² + b²: the squared distance of normalised screen coordinates from the centre. */
  function Norm2(a: real, b: real): real
  {
    a * a + b * b
  }

  /**
   * The end point on the sphere of radius focalDist around the eye, or none
   * when the sample (xNorm, yNorm) lies outside the unit disk.
   */
  function FisheyePoint(eye: Vec3, right: Vec3, up: Vec3, dir: Vec3, xNorm: real, yNorm: real,
                        focalDist: real, m: MathF): (r: Option<Vec3>)
    ensures r.None? <==> Norm2(xNorm, yNorm) > 1.0
  {
    var diag := Norm2(xNorm, yNorm);
    if diag > 1.0 then None
    else Some(Add(eye, Scale(Add(Add(Scale(right, xNorm), Scale(up, yNorm)), Scale(dir, m.sqrt(1.0 - diag))), focalDist)))
  }

  /** The sample at the centre of the disk looks straight along the view. */
  lemma {:induction false} FisheyeCentreLooksAhead(eye: Vec3, right: Vec3, up: Vec3, dir: Vec3, focalDist: real, m: MathF)
    requires SqrtSound(m)
    ensures FisheyePoint(eye, right, up, dir, 0.0, 0.0, focalDist, m) == Some(Add(eye, Scale(dir, focalDist)))
  {
    SqrtOfSquare(m, 1.0);
    CentreAhead(eye, right, up, dir, focalDist, m);
  }

  lemma {:induction false} CentreAhead(eye: Vec3, right: Vec3, up: Vec3, dir: Vec3, focalDist: real, m: MathF)
    requires m.sqrt(1.0 * 1.0) == 1.0
    ensures FisheyePoint(eye, right, up, dir, 0.0, 0.0, focalDist, m) == Some(Add(eye, Scale(dir, focalDist)))
  {
    var ahead := Add(Add(Scale(right, 0.0), Scale(up, 0.0)), Scale(dir, m.sqrt(1.0 - (0.0 * 0.0 + 0.0 * 0.0))));
    assert 1.0 - (0.0 * 0.0 + 0.0 * 0.0) == 1.0 * 1.0;
    calc {
      ahead;
      Add(Add(Scale(right, 0.0), Scale(up, 0.0)), Scale(dir, 1.0));
      dir;
    }
  }

  /** With an orthonormal frame every end point lies at distance focalDist from the eye. */
  lemma {:induction false} FisheyePointOnSphere(eye: Vec3, right: Vec3, up: Vec3, dir: Vec3, xNorm: real, yNorm: real,
                                                focalDist: real, m: MathF)
    requires SqrtSound(m) && Orthonormal(right, up, dir)
    ensures var r := FisheyePoint(eye, right, up, dir, xNorm, yNorm, focalDist, m);
            r.Some? ==> Square(Sub(r.value, eye)) == focalDist * focalDist
  {
    var diag := Norm2(xNorm, yNorm);
    if diag <= 1.0 {
      var z := m.sqrt(1.0 - diag);
      assert z * z == 1.0 - diag;
      var v := Add(Add(Scale(right, xNorm), Scale(up, yNorm)), Scale(dir, z));
      FrameCombination(right, up, dir, xNorm, yNorm, z);
      assert Square(v) == 1.0;
      assert Sub(Add(eye, Scale(v, focalDist)), eye) == Scale(v, focalDist);
      SquareOfScale(v, focalDist);
    }
  }

  /** The squared length of a combination of an orthonormal frame is the sum of the squared weights. */
  lemma {:induction false} FrameCombination(a: Vec3, b: Vec3, c: Vec3, p: real, q: real, r: real)
    requires Orthonormal(a, b, c)
    ensures Square(Add(Add(Scale(a, p), Scale(b, q)), Scale(c, r))) == p * p + q * q + r * r
  {
    var u, v, w := Scale(a, p), Scale(b, q), Scale(c, r);
    var s := Add(Add(u, v), w);
    DotAddLeft(Add(u, v), w, s);
    DotAddLeft(u, v, s);
    assert Square(s) == Dot(u, s) + Dot(v, s) + Dot(w, s);
    DotComponents(a, b, c, p, q, r, u, v, w);
  }

  lemma {:induction false} DotComponents(a: Vec3, b: Vec3, c: Vec3, p: real, q: real, r: real, u: Vec3, v: Vec3, w: Vec3)
    requires Orthonormal(a, b, c)
    requires u == Scale(a, p) && v == Scale(b, q) && w == Scale(c, r)
    ensures var s := Add(Add(u, v), w);
            Dot(u, s) == p * p && Dot(v, s) == q * q && Dot(w, s) == r * r
  {
    var s := Add(Add(u, v), w);
    ScaledAgainstFrame(a, b, c, p, q, r, s);
    DotCommutes(a, b);
    DotCommutes(a, c);
    DotCommutes(b, c);
    ScaledAgainstFrame(b, a, c, q, p, r, Add(Add(v, u), w));
    assert Add(Add(v, u), w) == s;
    ScaledAgainstFrame(c, a, b, r, p, q, Add(Add(w, u), v));
    assert Add(Add(w, u), v) == s;
  }

  /** a·p against a p + b q + c r, with a a unit vector at right angles to b and c. */
  lemma {:induction false} ScaledAgainstFrame(a: Vec3, b: Vec3, c: Vec3, p: real, q: real, r: real, s: Vec3)
    requires Square(a) == 1.0 && Dot(a, b) == 0.0 && Dot(a, c) == 0.0
    requires s == Add(Add(Scale(a, p), Scale(b, q)), Scale(c, r))
    ensures Dot(Scale(a, p), s) == p * p
  {
    DotScaleLeft(a, p, s);
    DotCommutes(a, s);
    DotAddLeft(Add(Scale(a, p), Scale(b, q)), Scale(c, r), a);
    DotAddLeft(Scale(a, p), Scale(b, q), a);
    DotScaleLeft(a, p, a);
    DotScaleLeft(b, q, a);
    DotScaleLeft(c, r, a);
    DotCommutes(b, a);
    DotCommutes(c, a);
    assert Dot(s, a) == p;
  }

  /** The fisheye frame: dir along the view, right horizontal and across it, up across both. */
  function FisheyeFrame(eye: Vec3, lookat: Vec3, m: MathF): (Vec3, Vec3, Vec3)
  {
    var w := Sub(eye, lookat);
    var right := Normalize(Cross(VUp, w), m);
    (Normalize(Sub(lookat, eye), m), right, Normalize(Cross(w, right), m))
  }

  /** Unless the view is vertical, the fisheye frame is orthonormal. */
  lemma {:induction false} FisheyeFrameIsOrthonormal(eye: Vec3, lookat: Vec3, m: MathF)
    requires SqrtSound(m) && Cross(VUp, Sub(eye, lookat)) != Zero
    ensures var f := FisheyeFrame(eye, lookat, m);
            Orthonormal(f.1, f.2, f.0)
  {
    var w := Sub(eye, lookat);
    var right := Normalize(Cross(VUp, w), m);
    var up := Normalize(Cross(w, right), m);
    var dir := Normalize(Sub(lookat, eye), m);
    assert FisheyeFrame(eye, lookat, m) == (dir, right, up);
    UnitRightAndUp(w, m);
    DotCommutes(right, w);
    assert Sub(lookat, eye) == Scale(w, -1.0);
    AgainstTheView(w, Div(1.0, Length(Scale(w, -1.0), m)), right, up);
    NormalizeIsUnit(Scale(w, -1.0), m);
    DotCommutes(up, right);
  }

  /** Right and up, each normalised, are unit vectors across the view and across each other. */
  lemma {:induction false} UnitRightAndUp(w: Vec3, m: MathF)
    requires SqrtSound(m) && Cross(VUp, w) != Zero
    ensures var right := Normalize(Cross(VUp, w), m);
            var up := Normalize(Cross(w, right), m);
            && Square(right) == 1.0 && Square(up) == 1.0
            && Dot(right, w) == 0.0 && Dot(up, w) == 0.0 && Dot(up, right) == 0.0
            && Scale(w, -1.0) != Zero
  {
    var right := Normalize(Cross(VUp, w), m);
    ViewIsNotZero(w);
    NormalizeIsUnit(Cross(VUp, w), m);
    UnitFrameIsOrthogonal(w, m);
    DotCommutes(right, w);
    UpIsUnit(w, right, m);
  }

  /** A view with a horizontal cross product is not zero, nor is its opposite. */
  lemma ViewIsNotZero(w: Vec3)
    requires Cross(VUp, w) != Zero
    ensures w != Zero && Scale(w, -1.0) != Zero
  {
    CrossOfZero(w);
    OppositeIsNotZero(w);
  }

  lemma CrossOfZero(w: Vec3)
    ensures w == Zero ==> Cross(VUp, w) == Zero
  {
  }

  lemma OppositeIsNotZero(w: Vec3)
    ensures w != Zero ==> Scale(w, -1.0) != Zero
  {
    assert Scale(Scale(w, -1.0), -1.0) == w;
    assert Scale(Zero, -1.0) == Zero;
  }

  /** `BasisIsOrthogonal` for unit sizes. */
  lemma {:induction false} UnitFrameIsOrthogonal(w: Vec3, m: MathF)
    ensures var right := Normalize(Cross(VUp, w), m);
            var up := Normalize(Cross(w, right), m);
            Dot(right, w) == 0.0 && Dot(up, w) == 0.0 && Dot(up, right) == 0.0
  {
    var right := Normalize(Cross(VUp, w), m);
    ScaleByOne(right);
    ScaleByOne(Normalize(Cross(w, right), m));
    BasisIsOrthogonal(w, 1.0, 1.0, m);
  }

  /** w × right, normalised, is a unit vector when right is a unit vector across w ≠ 0. */
  lemma {:induction false} UpIsUnit(w: Vec3, right: Vec3, m: MathF)
    requires SqrtSound(m) && w != Zero && Square(right) == 1.0 && Dot(w, right) == 0.0
    ensures Square(Normalize(Cross(w, right), m)) == 1.0
  {
    CrossOfPerpendicular(w, right);
    NormalizeIsUnit(Cross(w, right), m);
  }

  /** The cross product of w ≠ 0 with a unit vector across it is not zero. */
  lemma {:induction false} CrossOfPerpendicular(w: Vec3, right: Vec3)
    requires w != Zero && Square(right) == 1.0 && Dot(w, right) == 0.0
    ensures Cross(w, right) != Zero
  {
    Lagrange(w, right);
    SquareIsNonNegative(w);
    calc {
      Square(Cross(w, right));
      Square(w) * Square(right) - Dot(w, right) * Dot(w, right);
      Square(w);
    >
      0.0;
    ==
      Square(Zero);
    }
  }

  /** A multiple of the view vector is across whatever is across the view. */
  lemma AgainstTheView(w: Vec3, k: real, right: Vec3, up: Vec3)
    requires Dot(right, w) == 0.0 && Dot(up, w) == 0.0
    ensures var dir := Scale(Scale(w, -1.0), k);
            Dot(right, dir) == 0.0 && Dot(up, dir) == 0.0
  {
    DotCommutes(right, w);
    DotCommutes(up, w);
    ScalePreservesOrthogonality(w, -1.0, right);
    ScalePreservesOrthogonality(Scale(w, -1.0), k, right);
    ScalePreservesOrthogonality(w, -1.0, up);
    ScalePreservesOrthogonality(Scale(w, -1.0), k, up);
  }

  lemma ScaleByOne(a: Vec3)
    ensures Scale(a, 1.0) == a
  {
  }

  /** Lagrange's identity |a × b|² = |a|²|b|² − (a·b)². */
  lemma {:induction false} Lagrange(a: Vec3, b: Vec3)
    ensures Square(Cross(a, b)) == Square(a) * Square(b) - Dot(a, b) * Dot(a, b)
  {
    var (x1, y1, z1, x2, y2, z2) := (a.x, a.y, a.z, b.x, b.y, b.z);
    assert Cross(a, b) == Vec3(y1 * z2 - z1 * y2, z1 * x2 - x1 * z2, x1 * y2 - y1 * x2);
    LagrangeIdentity(x1, y1, z1, x2, y2, z2);
  }

  /** Lagrange's identity on coordinates. */
  lemma LagrangeIdentity(x1: real, y1: real, z1: real, x2: real, y2: real, z2: real)
    ensures (y1 * z2 - z1 * y2) * (y1 * z2 - z1 * y2) + (z1 * x2 - x1 * z2) * (z1 * x2 - x1 * z2)
            + (x1 * y2 - y1 * x2) * (x1 * y2 - y1 * x2)
         == (x1 * x1 + y1 * y1 + z1 * z1) * (x2 * x2 + y2 * y2 + z2 * z2)
            - (x1 * x2 + y1 * y2 + z1 * z2) * (x1 * x2 + y1 * y2 + z1 * z2)
  {
  }

  // ---------------------------------------------------------------------
  // Composition/FisheyeCamera.cs: the circular fisheye
  // ---------------------------------------------------------------------

  datatype CircularFisheye = CircularFisheye(eye: Vec3, dir: Vec3, right: Vec3, up: Vec3,
                                             width: int, height: int, screenSize: int, focalDist: real)

  /** `new FisheyeCamera(eye, lookat, focalDist, w, h)`: the disk spans the smaller screen side. */
  function MakeCircularFisheye(eye: Vec3, lookat: Vec3, focalDist: real, width: int, height: int, m: MathF): (c: CircularFisheye)
    ensures c.screenSize == if height < width then height else width
    ensures c.eye == eye && c.focalDist == focalDist && c.width == width && c.height == height
    ensures (c.dir, c.right, c.up) == FisheyeFrame(eye, lookat, m)
  {
    var (dir, right, up) := FisheyeFrame(eye, lookat, m);
    CircularFisheye(eye, dir, right, up, width, height, if height < width then height else width, focalDist)
  }

  /** `GetRayEnd`: coordinates divided by half the smaller side, with no further normaliser. */
  function CircularFisheyeRayEnd(c: CircularFisheye, x: int, y: int, ox: real, oy: real, m: MathF): Option<Vec3>
  {
    FisheyePoint(c.eye, c.right, c.up, c.dir,
                 FisheyeCoordinate(x, ox, c.width, c.screenSize, 1.0),
                 FisheyeCoordinate(y, oy, c.height, c.screenSize, 1.0), c.focalDist, m)
  }

  /** A sample yields a ray exactly when it lies in the centred disk of diameter min(w, h). */
  lemma {:induction false} CircularFisheyeSeesDisk(c: CircularFisheye, x: int, y: int, ox: real, oy: real, m: MathF)
    requires c.screenSize > 0
    ensures var dx := x as real + ox - c.width as real / 2.0;
            var dy := y as real + oy - c.height as real / 2.0;
            var half := c.screenSize as real / 2.0;
            CircularFisheyeRayEnd(c, x, y, ox, oy, m).Some? <==> dx * dx + dy * dy <= half * half
  {
    var dx := x as real + ox - c.width as real / 2.0;
    var dy := y as real + oy - c.height as real / 2.0;
    DiskTest(dx, dy, c.screenSize as real / 2.0);
  }

  /** The sample at the centre of the screen looks straight along the view. */
  lemma {:induction false} CircularFisheyeCentre(c: CircularFisheye, x: int, y: int, ox: real, oy: real, m: MathF)
    requires SqrtSound(m) && c.screenSize > 0
    requires 2.0 * (x as real + ox) == c.width as real && 2.0 * (y as real + oy) == c.height as real
    ensures CircularFisheyeRayEnd(c, x, y, ox, oy, m) == Some(Add(c.eye, Scale(c.dir, c.focalDist)))
  {
    CentreCoordinate(x, ox, c.width, c.screenSize, 1.0);
    CentreCoordinate(y, oy, c.height, c.screenSize, 1.0);
    FisheyeCentreLooksAhead(c.eye, c.right, c.up, c.dir, c.focalDist, m);
  }

  /** The centre of the screen has coordinate 0. */
  lemma CentreCoordinate(p: int, off: real, size: int, screenSize: int, normalizer: real)
    requires 2.0 * (p as real + off) == size as real
    ensures FisheyeCoordinate(p, off, size, screenSize, normalizer) == 0.0
  {
    assert (p as real + off) - (size as real) / 2.0 == 0.0;
  }

  /** (dx/k)² + (dy/k)² ≤ 1 exactly when dx² + dy² ≤ k², for k > 0. */
  lemma {:induction false} DiskTest(dx: real, dy: real, k: real)
    requires k > 0.0
    ensures var a, b := Div(Div(dx, k), 1.0), Div(Div(dy, k), 1.0);
            Norm2(a, b) <= 1.0 <==> dx * dx + dy * dy <= k * k
  {
    var a, b := Div(Div(dx, k), 1.0), Div(Div(dy, k), 1.0);
    assert a * k == dx && b * k == dy;
    DiskScales(a, b, k, dx, dy);
  }

  /** Scaling a point by k > 0 scales the unit disk to the disk of radius k. */
  lemma {:induction false} DiskScales(a: real, b: real, k: real, dx: real, dy: real)
    requires k > 0.0 && a * k == dx && b * k == dy
    ensures Norm2(a, b) <= 1.0 <==> dx * dx + dy * dy <= k * k
  {
    if a * a + b * b <= 1.0 {
      calc {
        dx * dx + dy * dy;
        (a * a + b * b) * (k * k);
      <=  { assert (1.0 - (a * a + b * b)) * (k * k) >= 0.0; }
        k * k;
      }
    } else {
      calc {
        dx * dx + dy * dy;
        (a * a + b * b) * (k * k);
      >   { assert ((a * a + b * b) - 1.0) * (k * k) > 0.0; }
        k * k;
      }
    }
  }

  /** The same for the circle: dx² + dy² = k² puts (dx/k, dy/k) on the unit circle. */
  lemma {:induction false} CircleScales(a: real, b: real, k: real, dx: real, dy: real)
    requires k > 0.0 && a * k == dx && b * k == dy && dx * dx + dy * dy == k * k
    ensures Norm2(a, b) == 1.0
  {
    DiskScales(a, b, k, dx, dy);
    if a * a + b * b < 1.0 {
      calc {
        dx * dx + dy * dy;
        (a * a + b * b) * (k * k);
      <   { assert (1.0 - (a * a + b * b)) * (k * k) > 0.0; }
        k * k;
      }
    }
  }

  // ---------------------------------------------------------------------
  // Composition/Camera/FisheyeCamera.cs and RayTracer/Composition/Camera/FisheyeCamera.cs
  // ---------------------------------------------------------------------

  datatype Fisheye = Fisheye(eye: Vec3, dir: Vec3, right: Vec3, up: Vec3, screenWidth: int, screenHeight: int,
                             screenSize: int, focalDist: real, normalizer: real)

  /** The squared normaliser of the diagonal mode, w²/s² + h²/s². */
  function DiagonalSquare(width: int, height: int, screenSize: int): real
  {
    SquareRatio(width as real, screenSize as real) + SquareRatio(height as real, screenSize as real)
  }

  /** n is the positive root of the squared diagonal normaliser. */
  predicate NormalizesDiagonal(n: real, width: int, height: int, screenSize: int)
  {
    n > 0.0 && n * n == DiagonalSquare(width, height, screenSize)
  }

  /** x·x / s / s, the integer square x·x being exact. */
  function SquareRatio(x: real, s: real): real
  {
    Div(Div(x * x, s), s)
  }

  /**
   * `new FisheyeCamera(eye, lookat, w, h, focalDist, diagonal)`: the focal
   * distance defaults to the distance from eye to lookat, and the
   * normaliser is 1, or in diagonal mode the half-diagonal of the screen in
   * units of half its smaller side.
   */
  function MakeFisheye(eye: Vec3, lookat: Vec3, screenWidth: int, screenHeight: int, focalDist: Option<real>,
                       diagonal: bool, m: MathF): (c: Fisheye)
    ensures c.focalDist == if focalDist.Some? then focalDist.value else Length(Sub(lookat, eye), m)
    ensures c.screenSize == if screenHeight < screenWidth then screenHeight else screenWidth
    ensures !diagonal ==> c.normalizer == 1.0
    ensures diagonal && SqrtSound(m) && screenWidth > 0 && screenHeight > 0 ==>
              NormalizesDiagonal(c.normalizer, screenWidth, screenHeight, c.screenSize)
    ensures c.eye == eye && c.screenWidth == screenWidth && c.screenHeight == screenHeight
    ensures (c.dir, c.right, c.up) == FisheyeFrame(eye, lookat, m)
  {
    var fd := if focalDist.Some? then focalDist.value else Length(Sub(lookat, eye), m);
    var size := if screenHeight < screenWidth then screenHeight else screenWidth;
    var normalizer := if diagonal then m.sqrt(DiagonalSquare(screenWidth, screenHeight, size)) else 1.0;
    DiagonalSquareAboveOne(screenWidth, screenHeight, size);
    var (dir, right, up) := FisheyeFrame(eye, lookat, m);
    Fisheye(eye, dir, right, up, screenWidth, screenHeight, size, fd, normalizer)
  }

  /** The larger of w/s and h/s is 1, so the diagonal normaliser is at least 1. */
  lemma {:induction false} DiagonalSquareAboveOne(width: int, height: int, size: int)
    requires size == (if height < width then height else width)
    ensures width > 0 && height > 0 ==> DiagonalSquare(width, height, size) >= 1.0
  {
    if width > 0 && height > 0 {
      DiagonalSquareAtLeastOne(width, height, size);
    }
  }

  lemma {:induction false} DiagonalSquareAtLeastOne(width: int, height: int, size: int)
    requires width > 0 && height > 0 && size == (if height < width then height else width)
    ensures DiagonalSquare(width, height, size) >= 1.0
  {
    var s := size as real;
    SquareRatioIsNonNegative(width as real, s);
    SquareRatioIsNonNegative(height as real, s);
    SelfRatio(s);
  }

  lemma SquareRatioIsNonNegative(x: real, s: real)
    requires s > 0.0
    ensures SquareRatio(x, s) >= 0.0
  {
    NonNegativeQuotient(x * x, s);
    NonNegativeQuotient(Div(x * x, s), s);
  }

  lemma SelfRatio(s: real)
    requires s > 0.0
    ensures SquareRatio(s, s) == 1.0
  {
    DivCancels(s * s, s);
    Cancel(Div(s * s, s), s, s);
    assert SquareRatio(s, s) == Div(s, s) == 1.0;
  }

  lemma DivCancels(n: real, d: real)
    requires d != 0.0
    ensures Div(n, d) * d == n
  {
  }

  lemma NonNegativeQuotient(n: real, d: real)
    requires n >= 0.0 && d > 0.0
    ensures Div(n, d) >= 0.0
  {
    assert Div(n, d) == n / d;
  }

  /** The normalised coordinates of a sample. */
  function FisheyeX(c: Fisheye, x: int, ox: real): real
  {
    FisheyeCoordinate(x, ox, c.screenWidth, c.screenSize, c.normalizer)
  }

  function FisheyeY(c: Fisheye, y: int, oy: real): real
  {
    FisheyeCoordinate(y, oy, c.screenHeight, c.screenSize, c.normalizer)
  }

  /** `GetRayEnd(x, y, ox, oy)`: null exactly outside the unit disk of normalised coordinates. */
  function FisheyeRayEnd(c: Fisheye, x: int, y: int, ox: real, oy: real, m: MathF): (r: Option<Vec3>)
    ensures r.None? <==> Norm2(FisheyeX(c, x, ox), FisheyeY(c, y, oy)) > 1.0
  {
    FisheyePoint(c.eye, c.right, c.up, c.dir, FisheyeX(c, x, ox), FisheyeY(c, y, oy), c.focalDist, m)
  }

  /** `GetEye`: every ray of the fisheye starts at the eye, whatever the pixel. */
  function FisheyeEye(c: Fisheye, x: int, y: int, ox: real, oy: real): (e: Vec3)
    ensures e == c.eye
  {
    c.eye
  }

  /** A camera as `MakeFisheye` builds it on a screen with positive sides. */
  ghost predicate ValidFisheye(c: Fisheye, m: MathF)
  {
    && SqrtSound(m) && c.screenWidth > 0 && c.screenHeight > 0
    && c.screenSize == (if c.screenHeight < c.screenWidth then c.screenHeight else c.screenWidth)
    && c.normalizer > 0.0
  }

  /** In diagonal mode every sample point on the screen rectangle yields a ray. */
  lemma {:induction false} DiagonalFisheyeCoversScreen(c: Fisheye, x: int, y: int, ox: real, oy: real, m: MathF)
    requires ValidFisheye(c, m)
    requires NormalizesDiagonal(c.normalizer, c.screenWidth, c.screenHeight, c.screenSize)
    requires 0.0 <= x as real + ox <= c.screenWidth as real && 0.0 <= y as real + oy <= c.screenHeight as real
    ensures FisheyeRayEnd(c, x, y, ox, oy, m).Some?
  {
    var a := FisheyeX(c, x, ox);
    var b := FisheyeY(c, y, oy);
    var dx := x as real + ox - c.screenWidth as real / 2.0;
    var dy := y as real + oy - c.screenHeight as real / 2.0;
    AtMostHalf(dx, c.screenWidth as real);
    AtMostHalf(dy, c.screenHeight as real);
    DiagonalBound(dx, dy, c.screenWidth as real, c.screenHeight as real, c.screenSize as real, c.normalizer, a, b);
  }

  /** |d| ≤ size/2 gives d² ≤ (size/2)². */
  lemma AtMostHalf(d: real, size: real)
    requires -size / 2.0 <= d <= size / 2.0
    ensures d * d <= (size / 2.0) * (size / 2.0)
  {
    var k := size / 2.0;
    assert (k - d) * (k + d) >= 0.0;
  }

  lemma {:induction false} DiagonalBound(dx: real, dy: real, w: real, h: real, s: real, n: real, a: real, b: real)
    requires s > 0.0 && n > 0.0 && w >= 0.0 && h >= 0.0
    requires dx * dx <= (w / 2.0) * (w / 2.0) && dy * dy <= (h / 2.0) * (h / 2.0)
    requires n * n == SquareRatio(w, s) + SquareRatio(h, s)
    requires a == Div(Div(dx, s / 2.0), n) && b == Div(Div(dy, s / 2.0), n)
    ensures Norm2(a, b) <= 1.0
  {
    HalfDiagonal(w, h, s, n);
    assert a * (s / 2.0 * n) == dx && b * (s / 2.0 * n) == dy;
    DiskScales(a, b, s / 2.0 * n, dx, dy);
  }

  /** With n² = w²/s² + h²/s², the half-diagonal (w² + h²)/4 is (s/2 · n)². */
  lemma {:induction false} HalfDiagonal(w: real, h: real, s: real, n: real)
    requires s > 0.0 && n * n == SquareRatio(w, s) + SquareRatio(h, s)
    ensures (w / 2.0) * (w / 2.0) + (h / 2.0) * (h / 2.0) == (s / 2.0 * n) * (s / 2.0 * n)
  {
    TwiceDivided(w, s);
    TwiceDivided(h, s);
    calc {
      (s / 2.0 * n) * (s / 2.0 * n);
      (n * n) * (s * s) / 4.0;
      (SquareRatio(w, s) * (s * s) + SquareRatio(h, s) * (s * s)) / 4.0;
      (w * w + h * h) / 4.0;
      (w / 2.0) * (w / 2.0) + (h / 2.0) * (h / 2.0);
    }
  }

  lemma TwiceDivided(x: real, s: real)
    requires s > 0.0
    ensures SquareRatio(x, s) * (s * s) == x * x
  {
    assert Div(x * x, s) * s == x * x;
    assert Div(Div(x * x, s), s) * s == Div(x * x, s);
  }

  /** In diagonal mode the four screen corners land exactly on the unit circle. */
  lemma {:induction false} DiagonalFisheyeCornersOnCircle(c: Fisheye, x: int, y: int, ox: real, oy: real)
    requires c.screenWidth > 0 && c.screenHeight > 0 && c.normalizer > 0.0
    requires c.screenSize == (if c.screenHeight < c.screenWidth then c.screenHeight else c.screenWidth)
    requires NormalizesDiagonal(c.normalizer, c.screenWidth, c.screenHeight, c.screenSize)
    requires x as real + ox == 0.0 || x as real + ox == c.screenWidth as real
    requires y as real + oy == 0.0 || y as real + oy == c.screenHeight as real
    ensures Norm2(FisheyeX(c, x, ox), FisheyeY(c, y, oy)) == 1.0
  {
    AtTheEdge(x as real + ox - c.screenWidth as real / 2.0, c.screenWidth as real);
    AtTheEdge(y as real + oy - c.screenHeight as real / 2.0, c.screenHeight as real);
    CornerOnCircle(c, x, y, ox, oy);
  }

  lemma {:induction false} CornerOnCircle(c: Fisheye, x: int, y: int, ox: real, oy: real)
    requires c.screenSize > 0 && c.normalizer > 0.0
    requires NormalizesDiagonal(c.normalizer, c.screenWidth, c.screenHeight, c.screenSize)
    requires var dx := x as real + ox - c.screenWidth as real / 2.0;
             dx * dx == (c.screenWidth as real / 2.0) * (c.screenWidth as real / 2.0)
    requires var dy := y as real + oy - c.screenHeight as real / 2.0;
             dy * dy == (c.screenHeight as real / 2.0) * (c.screenHeight as real / 2.0)
    ensures Norm2(FisheyeX(c, x, ox), FisheyeY(c, y, oy)) == 1.0
  {
    FisheyeCoordinates(c, x, y, ox, oy);
    CornerExact(x as real + ox - c.screenWidth as real / 2.0, y as real + oy - c.screenHeight as real / 2.0,
                c.screenWidth as real, c.screenHeight as real, c.screenSize as real, c.normalizer,
                FisheyeX(c, x, ox), FisheyeY(c, y, oy));
  }

  lemma FisheyeCoordinates(c: Fisheye, x: int, y: int, ox: real, oy: real)
    ensures FisheyeX(c, x, ox) == Div(Div(x as real + ox - c.screenWidth as real / 2.0, c.screenSize as real / 2.0), c.normalizer)
    ensures FisheyeY(c, y, oy) == Div(Div(y as real + oy - c.screenHeight as real / 2.0, c.screenSize as real / 2.0), c.normalizer)
  {
  }

  /** An edge at ±size/2 from the centre lies at squared distance (size/2)². */
  lemma AtTheEdge(d: real, size: real)
    requires d == -size / 2.0 || d == size / 2.0
    ensures d * d == (size / 2.0) * (size / 2.0)
  {
  }

  lemma {:induction false} CornerExact(dx: real, dy: real, w: real, h: real, s: real, n: real, a: real, b: real)
    requires s > 0.0 && n > 0.0
    requires dx * dx == (w / 2.0) * (w / 2.0) && dy * dy == (h / 2.0) * (h / 2.0)
    requires n * n == SquareRatio(w, s) + SquareRatio(h, s)
    requires a == Div(Div(dx, s / 2.0), n) && b == Div(Div(dy, s / 2.0), n)
    ensures Norm2(a, b) == 1.0
  {
    HalfDiagonal(w, h, s, n);
    assert a * (s / 2.0 * n) == dx && b * (s / 2.0 * n) == dy;
    CircleScales(a, b, s / 2.0 * n, dx, dy);
  }

  /** Outside diagonal mode the visible region is the centred disk of diameter min(w, h). */
  lemma {:induction false} CircularFisheyeModeSeesDisk(c: Fisheye, x: int, y: int, ox: real, oy: real, m: MathF)
    requires c.screenSize > 0 && c.normalizer == 1.0
    ensures var dx := x as real + ox - c.screenWidth as real / 2.0;
            var dy := y as real + oy - c.screenHeight as real / 2.0;
            var half := c.screenSize as real / 2.0;
            FisheyeRayEnd(c, x, y, ox, oy, m).Some? <==> dx * dx + dy * dy <= half * half
  {
    var dx := x as real + ox - c.screenWidth as real / 2.0;
    var dy := y as real + oy - c.screenHeight as real / 2.0;
    DiskTest(dx, dy, c.screenSize as real / 2.0);
  }

  /** Unless the view is vertical, every end point lies at distance focalDist from the eye. */
  lemma {:induction false} FisheyeEndOnSphere(eye: Vec3, lookat: Vec3, screenWidth: int, screenHeight: int,
                                              focalDist: Option<real>, diagonal: bool, m: MathF,
                                              x: int, y: int, ox: real, oy: real)
    requires SqrtSound(m) && Cross(VUp, Sub(eye, lookat)) != Zero
    ensures var c := MakeFisheye(eye, lookat, screenWidth, screenHeight, focalDist, diagonal, m);
            var r := FisheyeRayEnd(c, x, y, ox, oy, m);
            r.Some? ==> Square(Sub(r.value, c.eye)) == c.focalDist * c.focalDist
  {
    var c := MakeFisheye(eye, lookat, screenWidth, screenHeight, focalDist, diagonal, m);
    FisheyeFrameIsOrthonormal(eye, lookat, m);
    FisheyeEndOnSphereOf(c, x, y, ox, oy, m);
  }

  lemma {:induction false} FisheyeEndOnSphereOf(c: Fisheye, x: int, y: int, ox: real, oy: real, m: MathF)
    requires SqrtSound(m) && Orthonormal(c.right, c.up, c.dir)
    ensures var r := FisheyeRayEnd(c, x, y, ox, oy, m);
            r.Some? ==> Square(Sub(r.value, c.eye)) == c.focalDist * c.focalDist
  {
    FisheyePointOnSphere(c.eye, c.right, c.up, c.dir, FisheyeX(c, x, ox), FisheyeY(c, y, oy), c.focalDist, m);
  }
}
