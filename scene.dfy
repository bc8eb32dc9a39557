/**
 * The integrator of the first generation (Composition/Scene.cs): a scene of
 * objects, point lights and tone mappers that renders a width × height
 * image by recursive ray tracing.
 *
 * The specification is a family of functions over a `World`, a value that
 * holds everything the integrator reads: the screen, the camera, the
 * ambient colour, the objects, the lights, the maths library and the
 * random source. The `Scene` class holds the same state as fields and its
 * methods are the source's loops, each proved equal to its function.
 */
module Scenes {
  import opened Wrappers
  import opened Global
  import opened RealMath
  import opened Vectors
  import opened Rays
  import opened Intersections
  import C = Colors
  import M = Materials
  import L = AreaLights
  import Cameras
  import T = ToneMappers
  import Images

  // ---------------------------------------------------------------------
  // The data the integrator reads
  // ---------------------------------------------------------------------

  /**
   * The material record the integrator reads: the Fresnel material of
   * Objects/Material.cs, plus the rough/smooth weights and the blur
   * settings that the integrator uses and that record lacks.
   */
  datatype Surface = Surface(
    base: M.Material,
    isRough: bool,
    isSmooth: bool,
    rough: real,
    smooth: real,
    blur: real,
    blurSamples: int)

  /** Surfaces whose reflectance is defined (no channel's f0 divides by zero). */
  type SceneSurface = s: Surface | M.FresnelDefined(s.base)
    witness Surface(M.Material(C.Black, C.Black, C.Black, 0.0, false, false, C.Black, C.Black),
                    false, false, 0.0, 0.0, 0.0, 1)

  /** An object is its `Intersect`: a ray gives no hit or a hit record. */
  type Object = Ray -> Option<Hit<SceneSurface>>

  /** The tone mappers a scene may hold, applied in the order they were added. */
  datatype ToneMapper = NonLinear(p: real) | MaxLinear

  /**
   * Everything one rendering reads. `sampleRay` is the camera's ray through
   * an offset inside a pixel, and `rnd(r, k)` is the k-th random number in
   * [0, 1) drawn while tracing the primary ray r.
   */
  datatype World = World(
    width: int,
    height: int,
    samples: int,
    cam: Cameras.Camera,
    sampleRay: (int, int, real, real) -> Ray,
    ambient: C.Color,
    objects: seq<Object>,
    lights: seq<L.PointLight>,
    m: MathF,
    rnd: (Ray, nat) -> real)

  /** The colour of the sky: what every ray that hits nothing sees. */
  const Sky: C.Color := C.Color(0.8, 0.9, 1.0)

  // ---------------------------------------------------------------------
  // The nearest object (FirstInteresction)
  // ---------------------------------------------------------------------

  function Hits(objects: seq<Object>, ray: Ray): (hs: seq<Option<Hit<SceneSurface>>>)
    ensures |hs| == |objects|
    ensures forall i :: 0 <= i < |objects| ==> hs[i] == objects[i](ray)
  {
    seq(|objects|, i requires 0 <= i < |objects| => objects[i](ray))
  }

  /** The first of the nearest hits, in the order the objects were added. */
  function FirstHit(objects: seq<Object>, ray: Ray): Option<Hit<SceneSurface>>
  {
    Nearest(Hits(objects, ray))
  }

  /**
   * No object is hit exactly when every object misses; otherwise the result
   * is the hit of some object i with the least t, and every object before i
   * that is hit is strictly farther (ties go to the earliest added).
   */
  lemma FirstHitIsNearest(objects: seq<Object>, ray: Ray)
    ensures FirstHit(objects, ray).None? <==> forall i :: 0 <= i < |objects| ==> objects[i](ray).None?
    ensures FirstHit(objects, ray).Some? ==>
              exists i :: 0 <= i < |objects| && objects[i](ray) == FirstHit(objects, ray)
                && (forall j :: 0 <= j < |objects| && objects[j](ray).Some? ==>
                      FirstHit(objects, ray).value.t <= objects[j](ray).value.t)
                && (forall j :: 0 <= j < i && objects[j](ray).Some? ==>
                      objects[j](ray).value.t > FirstHit(objects, ray).value.t)
  {
    var hs := Hits(objects, ray);
    NearestIsNearest(hs);
    if Nearest(hs).Some? {
      var i :| IsNearestAt(hs, i) && hs[i] == Nearest(hs);
      assert objects[i](ray) == FirstHit(objects, ray);
    }
  }

  // ---------------------------------------------------------------------
  // Direct light (DirectLightSource)
  // ---------------------------------------------------------------------

  /** A cosine below EPS counts as 0. */
  function ClampCos(c: real): (r: real)
    ensures r == 0.0 || (r >= EPS && r == c)
    ensures c >= EPS ==> r == c
  {
    if c < EPS then 0.0 else c
  }

  /** The point a shadow ray starts from: the hit point moved EPS along the normal. */
  function ShadowStart(pt: Vec3, normal: Vec3): Vec3
  {
    Add(pt, Scale(normal, EPS))
  }

  function ShadowRay(pt: Vec3, normal: Vec3, light: L.PointLight, m: MathF): Ray
  {
    MakeRay(ShadowStart(pt, normal), Sub(light.pos, ShadowStart(pt, normal)), m)
  }

  /**
   * The light is seen from pOffset when the shadow ray hits nothing, or its
   * hit is farther from pOffset than the light is.
   */
  predicate Visible(pOffset: Vec3, light: L.PointLight, shadowRay: Ray,
                    shadow: Option<Hit<SceneSurface>>, m: MathF)
  {
    shadow.None?
    || Length(Sub(pOffset, PointAt(shadowRay, shadow.value.t)), m) > Length(Sub(pOffset, light.pos), m)
  }

  /** Under a sound square root the visibility test compares squared distances. */
  lemma VisibleBySquares(pOffset: Vec3, light: L.PointLight, shadowRay: Ray,
                         shadow: Option<Hit<SceneSurface>>, m: MathF)
    requires SqrtSound(m)
    ensures Visible(pOffset, light, shadowRay, shadow, m) <==>
              shadow.None?
              || Square(Sub(pOffset, PointAt(shadowRay, shadow.value.t))) > Square(Sub(pOffset, light.pos))
  {
    if shadow.Some? {
      var a := Sub(pOffset, PointAt(shadowRay, shadow.value.t));
      var b := Sub(pOffset, light.pos);
      SquareIsNonNegative(a);
      SquareIsNonNegative(b);
      SqrtMonotone(m, Square(b), Square(a));
    }
  }

  /** Whether the light reaches the hit point pt with (outward) normal `normal`. */
  predicate Lit(w: World, pt: Vec3, normal: Vec3, light: L.PointLight)
  {
    var shadowRay := ShadowRay(pt, normal, light, w.m);
    Visible(ShadowStart(pt, normal), light, shadowRay, FirstHit(w.objects, shadowRay), w.m)
  }

  /** The diffuse term lum/dist · diffuse · cos. */
  function DiffuseTerm(lum: C.Color, s: SceneSurface, costh: real): C.Color
  {
    C.Scale(C.Mul(lum, s.base.diffuse), costh)
  }

  /** The specular term lum/dist · (specular · cos2^shine). */
  function SpecularTerm(lum: C.Color, s: SceneSurface, costh2: real, m: MathF): C.Color
  {
    C.Mul(lum, C.Scale(s.base.specular, m.pow(costh2, s.base.shine)))
  }

  /** What one light adds: nothing when it is hidden, else its diffuse and specular terms. */
  function LightTerm(w: World, ray: Ray, pt: Vec3, normal: Vec3, s: SceneSurface, light: L.PointLight): C.Color
  {
    if !Lit(w, pt, normal, light) then C.Black else Shine(ray, pt, normal, s, light, w.m)
  }

  /** The diffuse and specular terms of a light that is seen, its colour divided by the squared distance. */
  function Shine(ray: Ray, pt: Vec3, normal: Vec3, s: SceneSurface, light: L.PointLight, m: MathF): C.Color
  {
    var pOffset := ShadowStart(pt, normal);
    var shadowRay := ShadowRay(pt, normal, light, m);
    var lum := Attenuated(light.lum, Length(Sub(pOffset, light.pos), m));
    var costh := ClampCos(Dot(shadowRay.dir, normal));
    var costh2 := ClampCos(Dot(Normalize(Sub(shadowRay.dir, ray.dir), m), normal));
    C.Add(DiffuseTerm(lum, s, costh), SpecularTerm(lum, s, costh2, m))
  }

  /** A light's colour over the squared distance `len²` (0 when the distance is 0). */
  function Attenuated(lum: C.Color, len: real): C.Color
  {
    C.Scale(lum, Div(1.0, len * len))
  }

  lemma LitIsVisible(w: World, pt: Vec3, normal: Vec3, light: L.PointLight, shadow: Option<Hit<SceneSurface>>)
    requires shadow == FirstHit(w.objects, ShadowRay(pt, normal, light, w.m))
    ensures Lit(w, pt, normal, light) <==>
              Visible(ShadowStart(pt, normal), light, ShadowRay(pt, normal, light, w.m), shadow, w.m)
  {
  }

  /** Adding the diffuse term and then the specular term adds what the light shines. */
  lemma ShineIs(ray: Ray, pt: Vec3, normal: Vec3, s: SceneSurface, light: L.PointLight, m: MathF,
                c0: C.Color, shadowRay: Ray, len: real, lum: C.Color, costh: real, costh2: real)
    requires shadowRay == ShadowRay(pt, normal, light, m)
    requires len == Length(Sub(ShadowStart(pt, normal), light.pos), m)
    requires lum == Attenuated(light.lum, len)
    requires costh == ClampCos(Dot(shadowRay.dir, normal))
    requires costh2 == ClampCos(Dot(Normalize(Sub(shadowRay.dir, ray.dir), m), normal))
    ensures C.Add(C.Add(c0, DiffuseTerm(lum, s, costh)), SpecularTerm(lum, s, costh2, m)) == C.Add(c0, Shine(ray, pt, normal, s, light, m))
  {
    var diffuse := DiffuseTerm(lum, s, costh);
    var specular := SpecularTerm(lum, s, costh2, m);
    assert Shine(ray, pt, normal, s, light, m) == C.Add(diffuse, specular);
    AddIsAssociative(c0, diffuse, specular);
  }

  lemma AddIsAssociative(a: C.Color, b: C.Color, c: C.Color)
    ensures C.Add(C.Add(a, b), c) == C.Add(a, C.Add(b, c))
  {
  }

  /** The sum of the light terms, light by light in order. */
  function Direct(w: World, ray: Ray, pt: Vec3, normal: Vec3, s: SceneSurface, lights: seq<L.PointLight>): C.Color
  {
    if |lights| == 0 then C.Black
    else C.Add(Direct(w, ray, pt, normal, s, lights[..|lights| - 1]), LightTerm(w, ray, pt, normal, s, lights[|lights| - 1]))
  }

  /** A point that no light reaches gets no direct light at all. */
  lemma {:induction false} DarkWhenAllHidden(w: World, ray: Ray, pt: Vec3, normal: Vec3, s: SceneSurface,
                                             lights: seq<L.PointLight>)
    requires forall i :: 0 <= i < |lights| ==> !Lit(w, pt, normal, lights[i])
    ensures Direct(w, ray, pt, normal, s, lights) == C.Black
  {
    if |lights| > 0 {
      var prefix := lights[..|lights| - 1];
      assert forall i :: 0 <= i < |prefix| ==> prefix[i] == lights[i];
      DarkWhenAllHidden(w, ray, pt, normal, s, prefix);
    }
  }

  /**
   * With non-negative light colours and a non-negative diffuse colour, the
   * diffuse term of every light is non-negative in every channel: the
   * squared distance and the clamped cosine are never negative.
   */
  lemma DiffuseIsNonNegative(light: L.PointLight, len: real, s: SceneSurface, c: real)
    requires light.lum.r >= 0.0 && light.lum.g >= 0.0 && light.lum.b >= 0.0
    requires s.base.diffuse.r >= 0.0 && s.base.diffuse.g >= 0.0 && s.base.diffuse.b >= 0.0
    ensures var d := DiffuseTerm(C.Scale(light.lum, Div(1.0, len * len)), s, ClampCos(c));
            d.r >= 0.0 && d.g >= 0.0 && d.b >= 0.0
  {
    var f := Div(1.0, len * len);
    assert len * len >= 0.0;
    assert f >= 0.0;
    var k := ClampCos(c);
    NonNegativeTriple(light.lum.r, f, s.base.diffuse.r, k);
    NonNegativeTriple(light.lum.g, f, s.base.diffuse.g, k);
    NonNegativeTriple(light.lum.b, f, s.base.diffuse.b, k);
  }

  lemma NonNegativeTriple(a: real, b: real, c: real, d: real)
    requires a >= 0.0 && b >= 0.0 && c >= 0.0 && d >= 0.0
    ensures a * b * c * d >= 0.0
  {
    calc {
      a * b * c * d;
    >= { assert a * b >= 0.0; assert (a * b) * c >= 0.0; }
      0.0;
    }
  }

  // ---------------------------------------------------------------------
  // Orientation, refraction, reflection, blur
  // ---------------------------------------------------------------------

  datatype Orientation = Orientation(inside: bool, normal: Vec3)

  /** A hit from inside an object: the normal is turned to face the ray. */
  function Orient(dir: Vec3, n: Vec3): Orientation
  {
    if Dot(Neg(dir), n) < 0.0 then Orientation(true, Neg(n)) else Orientation(false, n)
  }

  /**
   * The ray is inside exactly when its reversed direction makes a negative
   * dot product with the normal, and afterwards the normal used faces the ray.
   */
  lemma OrientFacesRay(dir: Vec3, n: Vec3)
    ensures Orient(dir, n).inside <==> Dot(Neg(dir), n) < 0.0
    ensures Dot(Neg(dir), Orient(dir, n).normal) >= 0.0
    ensures Orient(dir, n).normal == n || Orient(dir, n).normal == Neg(n)
  {
    DotScaleRight(Neg(dir), -1.0, n);
  }

  /** The luminance of the material's index, inverted when the ray leaves the object. */
  function RefractiveIndex(s: SceneSurface, inside: bool): (nv: real)
    ensures !inside ==> nv == C.Lum(s.base.n)
    ensures inside && C.Lum(s.base.n) != 0.0 ==> nv * C.Lum(s.base.n) == 1.0
  {
    if inside then Div(1.0, C.Lum(s.base.n)) else C.Lum(s.base.n)
  }

  function CosIn(ray: Ray, normal: Vec3): real
  {
    Dot(Neg(ray.dir), normal)
  }

  /** 1 − (1 − cos²)/n/n, the squared cosine of the refracted angle. */
  function Disc(cosIn: real, n: real): real
  {
    1.0 - Div(Div(1.0 - cosIn * cosIn, n), n)
  }

  /** Snell's law: no direction at grazing incidence or under total internal reflection. */
  function RefractRay(ray: Ray, normal: Vec3, n: real, m: MathF): (r: Option<Vec3>)
    ensures r.None? <==> Abs(CosIn(ray, normal)) < EPS || Disc(CosIn(ray, normal), n) < 0.0
  {
    var cosIn := CosIn(ray, normal);
    if Abs(cosIn) < EPS then None
    else if Disc(cosIn, n) < 0.0 then None
    else Some(Add(Scale(normal, Div(cosIn, n) - m.sqrt(Disc(cosIn, n))), Scale(ray.dir, Div(1.0, n))))
  }

  /** dir − 2 (normal·dir) normal. */
  function Reflect(dir: Vec3, normal: Vec3): Vec3
  {
    Sub(dir, Scale(Scale(normal, 2.0), Dot(normal, dir)))
  }

  /**
   * About a unit normal the reflection negates the normal component and
   * keeps the length.
   */
  lemma {:induction false} ReflectionMirrors(dir: Vec3, normal: Vec3)
    requires Square(normal) == 1.0
    ensures Dot(Reflect(dir, normal), normal) == -Dot(dir, normal)
    ensures Square(Reflect(dir, normal)) == Square(dir)
  {
    var k := Dot(normal, dir);
    DotCommutes(normal, dir);
    var v := Scale(Scale(normal, 2.0), k);
    assert v == Scale(normal, 2.0 * k);
    DotScaleLeft(normal, 2.0 * k, normal);
    DotSubLeft(dir, v, normal);
    assert Reflect(dir, normal) == Add(dir, Scale(normal, -2.0 * k));
    SquareAlongLine(dir, normal, -2.0 * k);
    calc {
      Square(Reflect(dir, normal));
    ==
      Square(dir) + 2.0 * (-2.0 * k) * Dot(dir, normal) + (-2.0 * k) * (-2.0 * k) * Square(normal);
    ==
      Square(dir) - 4.0 * k * k + 4.0 * k * k;
    }
  }

  /**
   * A random offset of length at most `radius`: three draws give the polar
   * angle, the azimuth and the length.
   */
  function RndVec(radius: real, u1: real, u2: real, u3: real, m: MathF): Vec3
  {
    Spherical(u3 * radius, m.sin(u1 * PI), m.cos(u1 * PI), m.cos(u2 * PI * 2.0), m.sin(u2 * PI * 2.0))
  }

  /** The point at distance r along polar angle (s = sin, c = cos) and azimuth (p = cos, q = sin). */
  function Spherical(r: real, s: real, c: real, p: real, q: real): Vec3
  {
    Vec3(r * s * p, r * s * q, r * c)
  }

  /** With sin² + cos² = 1 and a length draw in [0, 1], the offset lies in the ball of that radius. */
  lemma RndVecWithinRadius(radius: real, u1: real, u2: real, u3: real, m: MathF)
    requires TrigSound(m)
    requires radius >= 0.0 && 0.0 <= u3 <= 1.0
    ensures Square(RndVec(radius, u1, u2, u3, m)) == (u3 * radius) * (u3 * radius)
    ensures Square(RndVec(radius, u1, u2, u3, m)) <= radius * radius
  {
    RndVecLength(radius, u1, u2, u3, m);
    Shorter(u3, radius);
  }

  /** The offset's length is the length draw times the radius. */
  lemma RndVecLength(radius: real, u1: real, u2: real, u3: real, m: MathF)
    requires TrigSound(m)
    ensures Square(RndVec(radius, u1, u2, u3, m)) == (u3 * radius) * (u3 * radius)
  {
    RndVecIsSpherical(radius, u1, u2, u3, m);
    DrawInBall(u3, radius, u1 * PI, u2 * PI * 2.0, m);
  }

  lemma RndVecIsSpherical(radius: real, u1: real, u2: real, u3: real, m: MathF)
    ensures RndVec(radius, u1, u2, u3, m) == Spherical(u3 * radius, m.sin(u1 * PI), m.cos(u1 * PI), m.cos(u2 * PI * 2.0), m.sin(u2 * PI * 2.0))
  {
  }

  lemma DrawInBall(u: real, radius: real, a1: real, a2: real, m: MathF)
    requires TrigSound(m)
    ensures Square(Spherical(u * radius, m.sin(a1), m.cos(a1), m.cos(a2), m.sin(a2))) == (u * radius) * (u * radius)
  {
    SphericalSquare(u * radius, m.sin(a1), m.cos(a1), m.cos(a2), m.sin(a2));
  }

  lemma SphericalSquare(r: real, s: real, c: real, p: real, q: real)
    requires s * s + c * c == 1.0 && q * q + p * p == 1.0
    ensures Square(Spherical(r, s, c, p, q)) == r * r
  {
    calc {
      Square(Spherical(r, s, c, p, q));
    ==
      (r * s * p) * (r * s * p) + (r * s * q) * (r * s * q) + (r * c) * (r * c);
    ==
      r * r * (s * s) * (p * p + q * q) + r * r * (c * c);
    ==
      r * r * (s * s) + r * r * (c * c);
    ==
      r * r * (s * s + c * c);
    ==
      r * r;
    }
  }

  lemma Shorter(u: real, radius: real)
    requires radius >= 0.0 && 0.0 <= u <= 1.0
    ensures (u * radius) * (u * radius) <= radius * radius
  {
    calc {
      (u * radius) * (u * radius);
    ==
      (u * u) * (radius * radius);
    <= { M.UnitProduct(u, u); M.MulMonotone(radius, 0.0, radius); M.MulMonotone(radius * radius, u * u, 1.0); }
      radius * radius;
    }
  }

  /** The normal of blur sample k: perturbed only when the material blurs and the hit is the first. */
  function BlurredNormal(w: World, ray: Ray, d: nat, s: SceneSurface, normal: Vec3, k: nat): Vec3
  {
    if s.blur > EPS && d == 0 then
      Normalize(Add(normal, RndVec(s.blur, w.rnd(ray, 3 * k), w.rnd(ray, 3 * k + 1), w.rnd(ray, 3 * k + 2), w.m)), w.m)
    else normal
  }

  /** Blur samples are taken only at the first hit; deeper hits take one. */
  function BlurCount(s: SceneSurface, d: nat): int
  {
    if d > 0 then 1 else s.blurSamples
  }

  /** A colour divided channel by channel by a number. */
  function Over(c: C.Color, f: real): C.Color
  {
    C.Color(Div(c.r, f), Div(c.g, f), Div(c.b, f))
  }

  // ---------------------------------------------------------------------
  // The recursive trace
  // ---------------------------------------------------------------------

  /** The colour seen along a ray at recursion depth d. */
  function Trace(w: World, ray: Ray, d: nat): C.Color
    decreases DMAX + 1 - d, 5, 0
  {
    if d > DMAX then w.ambient
    else match FirstHit(w.objects, ray)
      case None => w.ambient
      case Some(hit) => Shade(w, ray, d, hit)
  }

  /** The colour at a hit: rough part times Rough plus smooth part times Smooth. */
  function Shade(w: World, ray: Ray, d: nat, hit: Hit<SceneSurface>): C.Color
    requires d <= DMAX
    decreases DMAX + 1 - d, 4, 0
  {
    var o := Orient(ray.dir, hit.normal);
    var pt := PointAt(ray, hit.t);
    C.Add(C.Scale(RoughColor(w, ray, pt, o.normal, hit.mat), hit.mat.rough),
          C.Scale(SmoothColor(w, ray, d, pt, o, hit.mat), hit.mat.smooth))
  }

  /** Ambient times the scene's ambient plus the direct light, for rough materials. */
  function RoughColor(w: World, ray: Ray, pt: Vec3, normal: Vec3, s: SceneSurface): C.Color
  {
    if s.isRough then C.Add(C.Mul(s.base.ambient, w.ambient), Direct(w, ray, pt, normal, s, w.lights))
    else C.Black
  }

  /** The mean of the blur samples, for smooth materials. */
  function SmoothColor(w: World, ray: Ray, d: nat, pt: Vec3, o: Orientation, s: SceneSurface): C.Color
    requires d <= DMAX
    decreases DMAX + 1 - d, 3, 0
  {
    if s.isSmooth then Over(BlurSum(w, ray, d, pt, o, s, BlurCount(s, d)), BlurCount(s, d) as real)
    else C.Black
  }

  /** The sum of the first n blur samples. */
  function BlurSum(w: World, ray: Ray, d: nat, pt: Vec3, o: Orientation, s: SceneSurface, n: int): C.Color
    requires d <= DMAX
    decreases DMAX + 1 - d, 2, n
  {
    if n <= 0 then C.Black
    else C.Add(BlurSum(w, ray, d, pt, o, s, n - 1), Sample(w, ray, d, pt, o, s, n - 1))
  }

  /** Blur sample k: a bounce off the (possibly perturbed) normal. */
  function Sample(w: World, ray: Ray, d: nat, pt: Vec3, o: Orientation, s: SceneSurface, k: nat): C.Color
    requires d <= DMAX
    decreases DMAX + 1 - d, 1, 0
  {
    Bounce(w, ray, d, pt, o.inside, BlurredNormal(w, ray, d, s, o.normal, k), s)
  }

  /** The cosine between the reversed ray and the normal, negative values counting as 0. */
  function FacingCos(ray: Ray, normal: Vec3): (c: real)
    ensures c >= 0.0
  {
    if CosIn(ray, normal) < 0.0 then 0.0 else CosIn(ray, normal)
  }

  function RefractedRay(pt: Vec3, dir: Vec3, m: MathF): Ray
  {
    Offset(MakeRay(pt, dir, m), m)
  }

  /**
   * Starting from black: the refracted part weighted by kt = 1 − kr is
   * added when the ray refracts, then the reflected part weighted by kr;
   * when refraction fails kr becomes (1, 1, 1).
   */
  function Bounce(w: World, ray: Ray, d: nat, pt: Vec3, inside: bool, normal: Vec3, s: SceneSurface): C.Color
    requires d <= DMAX
    decreases DMAX + 1 - d, 0, 0
  {
    var kr := M.GetFresnel(s.base, FacingCos(ray, normal));
    var refracted := if s.base.isRefractive then RefractRay(ray, normal, RefractiveIndex(s, inside), w.m) else None;
    var transmitted :=
      if refracted.Some? then C.Add(C.Black, C.Mul(C.Sub(C.White, kr), Trace(w, RefractedRay(pt, refracted.value, w.m), d + 1)))
      else C.Black;
    var reflectance := if s.base.isRefractive && refracted.None? then C.White else kr;
    if s.base.isReflective then C.Add(transmitted, C.Mul(reflectance, Trace(w, RefractedRay(pt, Reflect(ray.dir, normal), w.m), d + 1)))
    else transmitted
  }

  /** A hit shades as its rough part plus its smooth part, each weighted. */
  lemma ShadeIs(w: World, ray: Ray, d: nat, hit: Hit<SceneSurface>, pt: Vec3, o: Orientation, rough: C.Color, smooth: C.Color)
    requires d <= DMAX && FirstHit(w.objects, ray) == Some(hit)
    requires o == Orient(ray.dir, hit.normal) && pt == PointAt(ray, hit.t)
    requires rough == RoughColor(w, ray, pt, o.normal, hit.mat)
    requires smooth == SmoothColor(w, ray, d, pt, o, hit.mat)
    ensures Trace(w, ray, d) == C.Add(C.Scale(rough, hit.mat.rough), C.Scale(smooth, hit.mat.smooth))
  {
  }

  /** One more blur sample is added to the running sum. */
  lemma BlurStep(w: World, ray: Ray, d: nat, pt: Vec3, o: Orientation, s: SceneSurface, n: nat, sample: C.Color)
    requires d <= DMAX
    requires sample == Sample(w, ray, d, pt, o, s, n)
    ensures BlurSum(w, ray, d, pt, o, s, n + 1) == C.Add(BlurSum(w, ray, d, pt, o, s, n), sample)
  {
  }

  /** A blur sample is the bounce off the normal the sample draws. */
  lemma SampleIsBounce(w: World, ray: Ray, d: nat, pt: Vec3, o: Orientation, s: SceneSurface, k: nat, normal: Vec3, sample: C.Color)
    requires d <= DMAX
    requires normal == BlurredNormal(w, ray, d, s, o.normal, k)
    requires sample == Bounce(w, ray, d, pt, o.inside, normal, s)
    ensures sample == Sample(w, ray, d, pt, o, s, k)
  {
  }

  /** The smooth colour is the sum of its blur samples over their number. */
  lemma SmoothIs(w: World, ray: Ray, d: nat, pt: Vec3, o: Orientation, s: SceneSurface, n: int, sum: C.Color)
    requires d <= DMAX && s.isSmooth && n == BlurCount(s, d)
    requires sum == BlurSum(w, ray, d, pt, o, s, n)
    ensures SmoothColor(w, ray, d, pt, o, s) == Over(sum, n as real)
  {
  }

  /** A bounce assembled from its Fresnel weight, its refracted direction and the two traced colours. */
  lemma BounceIs(w: World, ray: Ray, d: nat, pt: Vec3, inside: bool, normal: Vec3, s: SceneSurface,
                 kr: C.Color, refracted: Option<Vec3>, transmitted: C.Color, reflected: C.Color, c: C.Color)
    requires d <= DMAX
    requires kr == M.GetFresnel(s.base, FacingCos(ray, normal))
    requires refracted == if s.base.isRefractive then RefractRay(ray, normal, RefractiveIndex(s, inside), w.m) else None
    requires refracted.Some? ==> transmitted == Trace(w, RefractedRay(pt, refracted.value, w.m), d + 1)
    requires s.base.isReflective ==> reflected == Trace(w, RefractedRay(pt, Reflect(ray.dir, normal), w.m), d + 1)
    requires c == (var c1 := if refracted.Some? then C.Add(C.Black, C.Mul(C.Sub(C.White, kr), transmitted)) else C.Black;
                   if s.base.isReflective
                   then C.Add(c1, C.Mul(if s.base.isRefractive && refracted.None? then C.White else kr, reflected))
                   else c1)
    ensures Bounce(w, ray, d, pt, inside, normal, s) == c
  {
  }

  /** Nothing is shaded past the depth limit, and a ray that hits nothing sees the ambient colour. */
  lemma AmbientWhenNothingToShade(w: World, ray: Ray, d: nat)
    requires d > DMAX || forall i :: 0 <= i < |w.objects| ==> w.objects[i](ray).None?
    ensures Trace(w, ray, d) == w.ambient
  {
    if d <= DMAX {
      FirstHitIsNearest(w.objects, ray);
    }
  }

  /**
   * Below the first hit a smooth surface takes exactly one sample, along
   * its unperturbed normal, and the division by the sample count leaves it
   * unchanged.
   */
  lemma {:induction false} BlurOnlyAtFirstHit(w: World, ray: Ray, d: nat, pt: Vec3, o: Orientation, s: SceneSurface)
    requires 0 < d <= DMAX && s.isSmooth
    ensures BlurCount(s, d) == 1
    ensures SmoothColor(w, ray, d, pt, o, s) == Bounce(w, ray, d, pt, o.inside, o.normal, s)
  {
    var b := Sample(w, ray, d, pt, o, s, 0);
    assert BlurredNormal(w, ray, d, s, o.normal, 0) == o.normal;
    assert b == Bounce(w, ray, d, pt, o.inside, o.normal, s);
    assert BlurSum(w, ray, d, pt, o, s, 1) == C.Add(C.Black, b);
    OverOne(b);
  }

  lemma OverOne(c: C.Color)
    ensures Over(C.Add(C.Black, c), 1.0) == c
  {
  }

  /**
   * When a refractive surface cannot refract (grazing incidence or total
   * internal reflection), the reflected ray carries the whole sample, with
   * weight (1, 1, 1).
   */
  lemma TotalInternalReflection(w: World, ray: Ray, d: nat, pt: Vec3, inside: bool, normal: Vec3, s: SceneSurface)
    requires d <= DMAX && s.base.isRefractive && s.base.isReflective
    requires Abs(CosIn(ray, normal)) < EPS || Disc(CosIn(ray, normal), RefractiveIndex(s, inside)) < 0.0
    ensures Bounce(w, ray, d, pt, inside, normal, s) ==
              Trace(w, RefractedRay(pt, Reflect(ray.dir, normal), w.m), d + 1)
  {
    C.WhiteIsMulIdentity(Trace(w, RefractedRay(pt, Reflect(ray.dir, normal), w.m), d + 1));
  }

  // ---------------------------------------------------------------------
  // Pixels
  // ---------------------------------------------------------------------

  /** The offset 1/N/2 + k/N of sample k of N along one pixel axis. */
  function SampleOffset(n: int, k: int): real
  {
    Div(Div(1.0, n as real), 2.0) + Div(k as real * 1.0, n as real)
  }

  /** The offsets are (2k + 1)/(2N): centred in N equal parts, strictly inside the pixel. */
  lemma SampleOffsetInside(n: int, k: int)
    requires 0 <= k < n
    ensures SampleOffset(n, k) * (2 * n) as real == (2 * k + 1) as real
    ensures 0.0 < SampleOffset(n, k) < 1.0
  {
    var nr, kr := n as real, k as real;
    var q := Div(1.0, nr);
    assert q * nr == 1.0;
    assert Div(q, 2.0) == q / 2.0;
    DivByInverse(kr * 1.0, nr, q);
    calc {
      SampleOffset(n, k) * (2.0 * nr);
    ==
      (q / 2.0 + kr * q) * (2.0 * nr);
    ==
      (1.0 + 2.0 * kr) * (q * nr);
    ==
      2.0 * kr + 1.0;
    }
    assert (2 * n) as real == 2.0 * nr && (2 * k + 1) as real == 2.0 * kr + 1.0;
    StrictlyBetween(SampleOffset(n, k), 2.0 * nr, 2.0 * kr + 1.0);
  }

  lemma DivByInverse(a: real, b: real, q: real)
    requires b != 0.0 && q * b == 1.0
    ensures Div(a, b) == a * q
  {
    calc {
      Div(a, b);
    ==
      Div(a, b) * (q * b);
    ==
      (Div(a, b) * b) * q;
    ==
      a * q;
    }
  }

  /** o·p = v with 0 < v < p puts o strictly between 0 and 1. */
  lemma StrictlyBetween(o: real, p: real, v: real)
    requires p > 0.0 && o * p == v && 0.0 < v < p
    ensures 0.0 < o < 1.0
  {
    if o <= 0.0 {
      M.MulMonotone(p, o, 0.0);
      assert false;
    }
    if o >= 1.0 {
      M.MulMonotone(p, 1.0, o);
      assert false;
    }
  }

  /** The trace of sample (dx, dy) of pixel (x, y). */
  function SampleTrace(w: World, x: int, y: int, dx: int, dy: int): C.Color
  {
    Trace(w, w.sampleRay(x, y, SampleOffset(w.samples, dx), SampleOffset(w.samples, dy)), 0)
  }

  /** The samples of pixel (x, y), indexed by their column and row. */
  function Samples(w: World, x: int, y: int): (int, int) -> C.Color
  {
    (dx, dy) => SampleTrace(w, x, y, dx, dy)
  }

  /** The samples f(dx, dy) of column dx with dy < n, added in order. */
  function ColumnSum(f: (int, int) -> C.Color, dx: int, n: int): C.Color
    decreases n
  {
    if n <= 0 then C.Black else C.Add(ColumnSum(f, dx, n - 1), f(dx, n - 1))
  }

  /** The columns dx < n of `rows` samples each, added in order. */
  function GridSum(f: (int, int) -> C.Color, rows: int, n: int): C.Color
    decreases n
  {
    if n <= 0 then C.Black else C.Add(GridSum(f, rows, n - 1), ColumnSum(f, n - 1, rows))
  }

  /** The N × N samples summed and divided by N², channel by channel. */
  function Mean(f: (int, int) -> C.Color, n: int): C.Color
  {
    Over(GridSum(f, n, n), (n * n) as real)
  }

  /** One centred sample, or the mean of the N × N grid of samples. */
  function PixelColor(w: World, x: int, y: int): C.Color
  {
    if w.samples == 1 then Trace(w, Cameras.GetRay(w.cam, x, y, w.m), 0)
    else Mean(Samples(w, x, y), w.samples)
  }

  /** With one sample per pixel, the pixel is the trace of the camera's ray through it. */
  lemma PixelIsTrace(w: World, x: int, y: int, c: C.Color)
    requires w.samples == 1 && c == Trace(w, Cameras.GetRay(w.cam, x, y, w.m), 0)
    ensures PixelColor(w, x, y) == c
  {
  }

  /** With several samples per pixel, the pixel is their sum over N². */
  lemma PixelIsMean(w: World, x: int, y: int, sum: C.Color)
    requires w.samples != 1 && sum == GridSum(Samples(w, x, y), w.samples, w.samples)
    ensures PixelColor(w, x, y) == Over(sum, (w.samples * w.samples) as real)
  {
  }

  /** One more sample added to a running column sum that started from r0. */
  lemma ColumnStep(f: (int, int) -> C.Color, dx: int, n: nat, r0: C.Color, prev: C.Color, t: C.Color)
    requires prev == C.Add(r0, ColumnSum(f, dx, n)) && t == f(dx, n)
    ensures C.Add(prev, t) == C.Add(r0, ColumnSum(f, dx, n + 1))
  {
  }

  lemma SampleIs(w: World, x: int, y: int, dx: int, dy: int, xOff: real, yOff: real)
    requires xOff == SampleOffset(w.samples, dx) && yOff == SampleOffset(w.samples, dy)
    ensures Samples(w, x, y)(dx, dy) == Trace(w, w.sampleRay(x, y, xOff, yOff), 0)
  {
  }

  /** When all N × N samples have the same colour, so has their mean: it is a true average. */
  lemma UniformMean(f: (int, int) -> C.Color, n: int, c: C.Color)
    requires n >= 1
    requires forall dx, dy :: 0 <= dx < n && 0 <= dy < n ==> f(dx, dy) == c
    ensures Mean(f, n) == c
  {
    GridSumOfUniform(f, n, n, c);
    var nn := (n * n) as real;
    assert nn > 0.0;
    CancelChannel(c.r, nn);
    CancelChannel(c.g, nn);
    CancelChannel(c.b, nn);
  }

  lemma CancelChannel(v: real, k: real)
    requires k > 0.0
    ensures Div(v * k, k) == v
  {
  }

  lemma {:induction false} ColumnSumOfUniform(f: (int, int) -> C.Color, rows: int, dx: int, n: int, c: C.Color)
    requires 0 <= n <= rows
    requires forall dy :: 0 <= dy < rows ==> f(dx, dy) == c
    ensures ColumnSum(f, dx, n) == C.Scale(c, n as real)
  {
    if n > 0 {
      ColumnSumOfUniform(f, rows, dx, n - 1, c);
      ScaleAdd(c, (n - 1) as real, 1.0);
    }
  }

  lemma {:induction false} GridSumOfUniform(f: (int, int) -> C.Color, rows: int, n: int, c: C.Color)
    requires 0 <= n && 0 <= rows
    requires forall dx, dy :: 0 <= dx < n && 0 <= dy < rows ==> f(dx, dy) == c
    ensures GridSum(f, rows, n) == C.Scale(c, (n * rows) as real)
  {
    if n > 0 {
      GridSumOfUniform(f, rows, n - 1, c);
      ColumnSumOfUniform(f, rows, n - 1, rows, c);
      assert (n - 1) * rows + rows == n * rows;
      ScaleAdd(c, ((n - 1) * rows) as real, rows as real);
    }
  }

  lemma ScaleAdd(c: C.Color, a: real, b: real)
    ensures C.Add(C.Scale(c, a), C.Scale(c, b)) == C.Scale(c, a + b)
  {
    assert c.r * a + c.r * b == c.r * (a + b);
    assert c.g * a + c.g * b == c.g * (a + b);
    assert c.b * a + c.b * b == c.b * (a + b);
  }

  /** A scene without objects shows the ambient colour in every pixel. */
  lemma EmptySceneIsAmbient(w: World, x: int, y: int)
    requires |w.objects| == 0 && w.samples >= 1
    ensures PixelColor(w, x, y) == w.ambient
  {
    forall ray: Ray, d: nat
      ensures Trace(w, ray, d) == w.ambient
    {
      AmbientWhenNothingToShade(w, ray, d);
    }
    if w.samples > 1 {
      var f := Samples(w, x, y);
      forall dx, dy | 0 <= dx < w.samples && 0 <= dy < w.samples
        ensures f(dx, dy) == w.ambient
      {
        assert f(dx, dy) == SampleTrace(w, x, y, dx, dy);
      }
      UniformMean(f, w.samples, w.ambient);
    }
  }

  // ---------------------------------------------------------------------
  // Rendering
  // ---------------------------------------------------------------------

  /** The raw image: pixel (x, y) traced as PixelColor. */
  ghost function Rendered(w: World, width: nat, height: nat): (g: seq<seq<C.Color>>)
    ensures T.IsGrid(g, width, height)
    ensures forall x, y :: 0 <= x < width && 0 <= y < height ==> g[x][y] == PixelColor(w, x, y)
  {
    seq(width, x requires 0 <= x < width => seq(height, y requires 0 <= y < height => PixelColor(w, x, y)))
  }

  ghost function ToneMapOne(tm: ToneMapper, g: seq<seq<C.Color>>): seq<seq<C.Color>>
  {
    match tm
    case NonLinear(p) => T.NonLinearGrid(g, p)
    case MaxLinear => T.MaxLinearGrid(g)
  }

  /** The tone mappers applied one after the other, in the order they were added. */
  ghost function ToneMapAll(tms: seq<ToneMapper>, g: seq<seq<C.Color>>): seq<seq<C.Color>>
  {
    if |tms| == 0 then g else ToneMapOne(tms[|tms| - 1], ToneMapAll(tms[..|tms| - 1], g))
  }

  class Scene {
    const width: int
    const height: int
    const samplesPerPixel: int
    const cam: Cameras.Camera
    const sampleRay: (int, int, real, real) -> Ray
    const ambient: C.Color
    const m: MathF
    const rnd: (Ray, nat) -> real
    var objects: seq<Object>
    var lights: seq<L.PointLight>
    var toneMappers: seq<ToneMapper>

    /** The state one rendering reads. */
    function Snapshot(): World
      reads this
    {
      World(width, height, samplesPerPixel, cam, sampleRay, ambient, objects, lights, m, rnd)
    }

    /** Positive dimensions and sample count; the ambient colour is (0.8, 0.9, 1); nothing added yet. */
    constructor (screenWidth: int, screenHeight: int, cam: Cameras.Camera,
                 sampleRay: (int, int, real, real) -> Ray, m: MathF, rnd: (Ray, nat) -> real,
                 samplesPerPixel: int := 1)
      requires screenWidth > 0 && screenHeight > 0 && samplesPerPixel > 0
      ensures width == screenWidth && height == screenHeight && this.samplesPerPixel == samplesPerPixel
      ensures this.cam == cam && this.sampleRay == sampleRay && this.m == m && this.rnd == rnd
      ensures ambient == Sky
      ensures objects == [] && lights == [] && toneMappers == []
    {
      width, height := screenWidth, screenHeight;
      this.cam, this.sampleRay := cam, sampleRay;
      this.samplesPerPixel := samplesPerPixel;
      ambient := Sky;
      lights, objects, toneMappers := [], [], [];
      this.m, this.rnd := m, rnd;
    }

    method AddObject(obj: Object)
      modifies this
      ensures objects == old(objects) + [obj]
      ensures lights == old(lights) && toneMappers == old(toneMappers)
    {
      objects := objects + [obj];
    }

    method AddLight(light: L.PointLight)
      modifies this
      ensures lights == old(lights) + [light]
      ensures objects == old(objects) && toneMappers == old(toneMappers)
    {
      lights := lights + [light];
    }

    method AddToneMapper(tm: ToneMapper)
      modifies this
      ensures toneMappers == old(toneMappers) + [tm]
      ensures objects == old(objects) && lights == old(lights)
    {
      toneMappers := toneMappers + [tm];
    }

    /** The scan over the objects in order, keeping a strictly nearer hit. */
    method FirstIntersection(ray: Ray) returns (first: Option<Hit<SceneSurface>>)
      ensures first == FirstHit(objects, ray)
    {
      first := None;
      var i := 0;
      while i < |objects|
        invariant 0 <= i <= |objects|
        invariant first == FirstHit(objects[..i], ray)
      {
        var ints := objects[i](ray);
        if ints.Some? && (first.None? || ints.value.t < first.value.t) {
          first := ints;
        }
        assert Hits(objects[..i + 1], ray)[..i] == Hits(objects[..i], ray);
        i := i + 1;
      }
      assert objects[..i] == objects;
    }

    /** The light-by-light sum of the visible lights' diffuse and specular terms. */
    method DirectLightSource(ray: Ray, pt: Vec3, normal: Vec3, s: SceneSurface) returns (color: C.Color)
      ensures color == Direct(Snapshot(), ray, pt, normal, s, lights)
    {
      ghost var w := Snapshot();
      color := C.Black;
      var i := 0;
      while i < |lights|
        invariant 0 <= i <= |lights|
        invariant color == Direct(w, ray, pt, normal, s, lights[..i])
      {
        color := Illuminate(w, color, lights[i], ray, pt, normal, s);
        assert lights[..i + 1][..i] == lights[..i];
        i := i + 1;
      }
      assert lights[..i] == lights;
    }

    /** The diffuse and specular contributions of a light that reaches `pt`. */
    method AddShine(color0: C.Color, light: L.PointLight, ray: Ray, pt: Vec3, normal: Vec3, s: SceneSurface,
                    pOffset: Vec3, shadowRay: Ray)
      returns (color: C.Color)
      requires pOffset == ShadowStart(pt, normal) && shadowRay == ShadowRay(pt, normal, light, m)
      ensures color == C.Add(color0, Shine(ray, pt, normal, s, light, m))
    {
      color := color0;
      var len := Length(Sub(pOffset, light.pos), m);
      var dist := len * len;
      var costh := Dot(shadowRay.dir, normal);
      if costh < EPS {
        costh := 0.0;
      }
      assert costh == ClampCos(Dot(shadowRay.dir, normal));
      var lum := C.Scale(light.lum, Div(1.0, dist));
      assert lum == Attenuated(light.lum, len);
      color := C.Add(color, DiffuseTerm(lum, s, costh));
      var h := Normalize(Sub(shadowRay.dir, ray.dir), m);
      var costh2 := Dot(h, normal);
      if costh2 < EPS {
        costh2 := 0.0;
      }
      assert costh2 == ClampCos(Dot(h, normal));
      ShineIs(ray, pt, normal, s, light, m, color0, shadowRay, len, lum, costh, costh2);
      color := C.Add(color, SpecularTerm(lum, s, costh2, m));
    }

    /** Adds one light's contribution at `pt`: nothing when the shadow ray is blocked. */
    method Illuminate(ghost w: World, color0: C.Color, light: L.PointLight, ray: Ray, pt: Vec3, normal: Vec3, s: SceneSurface)
      returns (color: C.Color)
      requires w == Snapshot()
      ensures color == C.Add(color0, LightTerm(w, ray, pt, normal, s, light))
    {
      color := color0;
      var pOffset := Add(pt, Scale(normal, EPS));
      var shadowRay := MakeRay(pOffset, Sub(light.pos, pOffset), m);
      assert pOffset == ShadowStart(pt, normal) && shadowRay == ShadowRay(pt, normal, light, w.m);
      var shadowInts := FirstIntersection(shadowRay);
      LitIsVisible(w, pt, normal, light, shadowInts);
      if Visible(pOffset, light, shadowRay, shadowInts, m) {
        color := AddShine(color0, light, ray, pt, normal, s, pOffset, shadowRay);
      } else {
        C.BlackIsAddIdentity(color0);
      }
    }

    /** The recursive trace: ambient past the depth limit or on a miss, else rough and smooth parts. */
    method TraceRay(ray: Ray, d: nat) returns (c: C.Color)
      ensures c == Trace(Snapshot(), ray, d)
      decreases DMAX + 1 - d, 4
    {
      ghost var w := Snapshot();
      if d > DMAX {
        return ambient;
      }
      var ints := FirstIntersection(ray);
      if ints.None? {
        return ambient;
      }
      var hit := ints.value;
      var inside := false;
      var normal := hit.normal;
      if Dot(Scale(ray.dir, -1.0), normal) < 0.0 {
        inside := true;
        normal := Scale(normal, -1.0);
      }
      assert Orientation(inside, normal) == Orient(ray.dir, hit.normal);
      var pt := PointAt(ray, hit.t);
      var s := hit.mat;
      var roughColor := RoughPart(w, ray, pt, normal, s);
      var smoothColor := C.Black;
      if s.isSmooth {
        smoothColor := SmoothPart(w, ray, d, pt, inside, normal, s);
      }
      ShadeIs(w, ray, d, hit, pt, Orientation(inside, normal), roughColor, smoothColor);
      c := C.Add(C.Scale(roughColor, s.rough), C.Scale(smoothColor, s.smooth));
    }

    /** The rough part of a hit: the material's ambient times the scene's, plus the direct light. */
    method RoughPart(ghost w: World, ray: Ray, pt: Vec3, normal: Vec3, s: SceneSurface) returns (roughColor: C.Color)
      requires w == Snapshot()
      ensures roughColor == RoughColor(w, ray, pt, normal, s)
    {
      roughColor := C.Black;
      if s.isRough {
        roughColor := C.Mul(s.base.ambient, ambient);
        var direct := DirectLightSource(ray, pt, normal, s);
        roughColor := C.Add(roughColor, direct);
      }
    }

    /**
     * The smooth part of a hit: blur samples, each along a normal perturbed
     * by a random vector at the first hit, averaged over their number.
     */
    method SmoothPart(ghost w: World, ray: Ray, d: nat, pt: Vec3, inside: bool, normal0: Vec3, s: SceneSurface)
      returns (smoothColor: C.Color)
      requires d <= DMAX && s.isSmooth && w == Snapshot()
      ensures smoothColor == SmoothColor(w, ray, d, pt, Orientation(inside, normal0), s)
      decreases DMAX + 1 - d, 3
    {
      ghost var o := Orientation(inside, normal0);
      smoothColor := C.Black;
      var blurSamples := s.blurSamples;
      if d > 0 {
        blurSamples := 1;
      }
      var blur := 0;
      while blur < blurSamples
        invariant 0 <= blur && (blur <= blurSamples || blur == 0)
        invariant smoothColor == BlurSum(w, ray, d, pt, o, s, blur)
      {
        var sample := BlurSample(w, ray, d, pt, inside, normal0, s, blur);
        BlurStep(w, ray, d, pt, o, s, blur, sample);
        smoothColor := C.Add(smoothColor, sample);
        blur := blur + 1;
      }
      SmoothIs(w, ray, d, pt, o, s, blurSamples, smoothColor);
      smoothColor := Over(smoothColor, blurSamples as real);
    }

    /**
     * The body of the blur loop: at the first hit of a blurring material the
     * normal is perturbed by a random vector and renormalised, then one
     * bounce is traced.
     */
    method BlurSample(ghost w: World, ray: Ray, d: nat, pt: Vec3, inside: bool, normal0: Vec3, s: SceneSurface, blur: nat)
      returns (sample: C.Color)
      requires d <= DMAX && w == Snapshot()
      ensures sample == Sample(w, ray, d, pt, Orientation(inside, normal0), s, blur)
      decreases DMAX + 1 - d, 2
    {
      var normal := normal0;
      if s.blur > EPS && d == 0 {
        var offset := RndVec(s.blur, rnd(ray, 3 * blur), rnd(ray, 3 * blur + 1), rnd(ray, 3 * blur + 2), m);
        normal := Normalize(Add(normal0, offset), m);
      }
      sample := TraceBounce(w, ray, d, pt, inside, normal, s);
      SampleIsBounce(w, ray, d, pt, Orientation(inside, normal0), s, blur, normal, sample);
    }

    /** One blur sample: refraction weighted by 1 − kr, reflection by kr. */
    method TraceBounce(ghost w: World, ray: Ray, d: nat, pt: Vec3, inside: bool, normal: Vec3, s: SceneSurface)
      returns (c: C.Color)
      requires d <= DMAX && w == Snapshot()
      ensures c == Bounce(w, ray, d, pt, inside, normal, s)
      decreases DMAX + 1 - d, 1
    {
      c := C.Black;
      var kr := M.GetFresnel(s.base, FacingCos(ray, normal));
      ghost var kr0 := kr;
      ghost var refracted: Option<Vec3> := None;
      ghost var transmitted := C.Black;
      ghost var reflected := C.Black;
      var kt := C.Sub(C.White, kr);
      if s.base.isRefractive {
        var refractedDir := RefractRay(ray, normal, RefractiveIndex(s, inside), m);
        refracted := refractedDir;
        if refractedDir.Some? {
          var t := TraceRefracted(w, pt, refractedDir.value, d);
          transmitted := t;
          c := C.Add(c, C.Mul(kt, t));
        } else {
          kr := C.White;
        }
      }
      if s.base.isReflective {
        var t := TraceRefracted(w, pt, Reflect(ray.dir, normal), d);
        reflected := t;
        c := C.Add(c, C.Mul(kr, t));
      }
      BounceIs(w, ray, d, pt, inside, normal, s, kr0, refracted, transmitted, reflected, c);
    }

    /** The colour along a secondary ray leaving pt in direction dir, one level deeper. */
    method TraceRefracted(ghost w: World, pt: Vec3, dir: Vec3, d: nat) returns (t: C.Color)
      requires d <= DMAX && w == Snapshot()
      ensures t == Trace(w, RefractedRay(pt, dir, m), d + 1)
      decreases DMAX + 1 - d, 0
    {
      var ray := Offset(MakeRay(pt, dir, m), m);
      t := TraceRay(ray, d + 1);
    }

    /** One centred trace, or the N × N samples summed column by column and divided by N². */
    method TracePixel(x: int, y: int) returns (c: C.Color)
      requires samplesPerPixel > 0
      ensures c == PixelColor(Snapshot(), x, y)
    {
      ghost var w := Snapshot();
      if samplesPerPixel == 1 {
        c := TraceRay(Cameras.GetRay(cam, x, y, m), 0);
        PixelIsTrace(w, x, y, c);
        return;
      }
      var result := TraceGrid(w, x, y);
      PixelIsMean(w, x, y, result);
      c := Over(result, (samplesPerPixel * samplesPerPixel) as real);
    }

    /** The outer loop of `TracePixel`: the N columns of samples added in order. */
    method TraceGrid(ghost w: World, x: int, y: int) returns (result: C.Color)
      requires samplesPerPixel > 0 && w == Snapshot()
      ensures result == GridSum(Samples(w, x, y), samplesPerPixel, samplesPerPixel)
    {
      ghost var f := Samples(w, x, y);
      var n := samplesPerPixel;
      result := C.Black;
      for dx := 0 to n
        invariant result == GridSum(f, n, dx)
      {
        var xOff := SampleOffset(n, dx);
        result := TraceColumn(w, result, x, y, dx, xOff);
      }
    }

    /** The inner loop of `TracePixel`: the N samples of column dx added to `result0` in order. */
    method TraceColumn(ghost w: World, result0: C.Color, x: int, y: int, dx: int, xOff: real) returns (result: C.Color)
      requires samplesPerPixel > 0 && xOff == SampleOffset(samplesPerPixel, dx) && w == Snapshot()
      ensures result == C.Add(result0, ColumnSum(Samples(w, x, y), dx, samplesPerPixel))
    {
      ghost var f := Samples(w, x, y);
      var n := samplesPerPixel;
      result := result0;
      for dy := 0 to n
        invariant result == C.Add(result0, ColumnSum(f, dx, dy))
      {
        var t := TraceSample(w, x, y, dx, dy, xOff);
        ColumnStep(f, dx, dy, result0, result, t);
        result := C.Add(result, t);
      }
    }

    /** The body of the inner pixel loop: the sample of column dx and row dy. */
    method TraceSample(ghost w: World, x: int, y: int, dx: int, dy: int, xOff: real) returns (t: C.Color)
      requires xOff == SampleOffset(samplesPerPixel, dx) && w == Snapshot()
      ensures t == Samples(w, x, y)(dx, dy)
    {
      var yOff := SampleOffset(samplesPerPixel, dy);
      t := TraceRay(sampleRay(x, y, xOff, yOff), 0);
      SampleIs(Snapshot(), x, y, dx, dy, xOff, yOff);
    }

    /**
     * Every pixel is traced and written once, column by column; then each
     * tone mapper in turn maps the whole image in place.
     */
    method Render() returns (img: Images.RawImage)
      requires width > 0 && height > 0 && samplesPerPixel > 0
      ensures fresh(img) && fresh(img.img) && img.Valid()
      ensures img.width == width && img.height == height
      ensures T.Grid(img.img) == ToneMapAll(toneMappers, Rendered(Snapshot(), width, height))
    {
      img := new Images.RawImage(width, height);
      RenderPixels(img);
      ApplyToneMappers(img);
    }

    /** The pixel loops of `Render`: afterwards the buffer holds the colour of every pixel. */
    method RenderPixels(img: Images.RawImage)
      requires samplesPerPixel > 0 && img.Valid() && img.width == width && img.height == height
      modifies img.img
      ensures T.Grid(img.img) == Rendered(Snapshot(), width, height)
    {
      ghost var w := Snapshot();
      var x := 0;
      while x < width
        invariant 0 <= x <= width || (width <= 0 && x == 0)
        invariant forall i, j :: 0 <= i < x && 0 <= j < height ==> img.Get(i, j) == PixelColor(w, i, j)
      {
        RenderColumn(img, x);
        x := x + 1;
      }
      ghost var raw := Rendered(w, width, height);
      forall i, j | 0 <= i < width && 0 <= j < height
        ensures img.img[i, j] == raw[i][j]
      {
        assert img.Get(i, j) == PixelColor(w, i, j);
      }
      T.GridIs(img.img, raw);
    }

    /** Column x of the pixel loops: its pixels are traced and written, the other columns are kept. */
    method RenderColumn(img: Images.RawImage, x: int)
      requires samplesPerPixel > 0 && img.Valid() && img.width == width && img.height == height && 0 <= x < width
      modifies img.img
      ensures forall j :: 0 <= j < height ==> img.Get(x, j) == PixelColor(Snapshot(), x, j)
      ensures forall i, j :: 0 <= i < width && i != x && 0 <= j < height ==> img.Get(i, j) == old(img.Get(i, j))
    {
      ghost var w := Snapshot();
      var y := 0;
      while y < height
        invariant 0 <= y <= height
        invariant forall j :: 0 <= j < y ==> img.Get(x, j) == PixelColor(w, x, j)
        invariant forall i, j :: 0 <= i < width && i != x && 0 <= j < height ==> img.Get(i, j) == old(img.Get(i, j))
      {
        var c := TracePixel(x, y);
        img.Set(x, y, c);
        y := y + 1;
      }
    }

    /** The tone mappers in the order they were added, each mapping the whole buffer in place. */
    method ApplyToneMappers(img: Images.RawImage)
      requires img.Valid()
      modifies img.img
      ensures T.Grid(img.img) == ToneMapAll(toneMappers, old(T.Grid(img.img)))
    {
      ghost var raw := T.Grid(img.img);
      var i := 0;
      while i < |toneMappers|
        invariant 0 <= i <= |toneMappers|
        invariant T.Grid(img.img) == ToneMapAll(toneMappers[..i], raw)
      {
        match toneMappers[i] {
          case NonLinear(p) =>
            var tm := new T.NonLinearToneMapper(p);
            tm.ToneMap(img.img);
          case MaxLinear =>
            var tm := new T.MaxLinearToneMapper();
            tm.ToneMap(img.img);
        }
        assert toneMappers[..i + 1][..i] == toneMappers[..i];
        i := i + 1;
      }
      assert toneMappers[..i] == toneMappers;
    }
  }
}
