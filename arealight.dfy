/**
 * Spherical area lights expanded into point lights by rejection sampling
 * (Composition/Light/AreaLight.cs and the older Composition/AreaLight.cs).
 * The random source is an oracle: a sequence of draws in [0, 1), three per
 * candidate offset. The rejection loops end only with probability 1, so a
 * finite oracle may run out; that outcome is an error.
 */
module AreaLights {
  import opened Wrappers
  import opened Global
  import opened Vectors
  import opened Sequences
  import C = Colors

  /** A point light: a position and a luminance. */
  datatype PointLight = PointLight(pos: Vec3, lum: C.Color)

  /** Position, luminance, radius and number of samples, as passed to either constructor. */
  datatype AreaLight = AreaLight(pos: Vec3, lum: C.Color, radius: real, samples: int)

  datatype Failure =
    | NegativeCapacity   // `new List<PointLight>(Samples)` with Samples < 0
    | RandomExhausted    // the oracle ran out before enough candidates were accepted

  /** A draw r in [0, 1) spread over [−radius, radius): r·2·radius − radius. */
  function Spread(r: real, radius: real): real
  {
    r * 2.0 * radius - radius
  }

  /** The candidate offset made of the draws 3k, 3k + 1 and 3k + 2. */
  function Candidate(draws: seq<real>, k: nat, radius: real): Vec3
    requires 3 * k + 3 <= |draws|
  {
    Vec3(Spread(draws[3 * k], radius), Spread(draws[3 * k + 1], radius), Spread(draws[3 * k + 2], radius))
  }

  /** The loop condition negated: x² + y² + z² ≤ radius². */
  predicate Inside(v: Vec3, radius: real)
  {
    v.x * v.x + v.y * v.y + v.z * v.z <= radius * radius
  }

  function Prepend(p: seq<Vec3>, r: Result<seq<Vec3>, Failure>): Result<seq<Vec3>, Failure>
  {
    if r.Ok? then Ok(p + r.value) else r
  }

  /**
   * The first n accepted candidates from candidate k on, in drawing order,
   * or `RandomExhausted` when the draws end first.
   */
  function Offsets(draws: seq<real>, radius: real, n: nat, k: nat): Result<seq<Vec3>, Failure>
    requires 3 * k <= |draws|
    decreases |draws| - 3 * k
  {
    if n == 0 then Ok([])
    else if 3 * k + 3 > |draws| then Err(RandomExhausted)
    else if Inside(Candidate(draws, k, radius), radius) then
      Prepend([Candidate(draws, k, radius)], Offsets(draws, radius, n - 1, k + 1))
    else Offsets(draws, radius, n, k + 1)
  }

  /** `Lum / Samples`, channel by channel. */
  function Share(lum: C.Color, samples: int): C.Color
  {
    C.Color(Div(lum.r, samples as real), Div(lum.g, samples as real), Div(lum.b, samples as real))
  }

  /** One point light per offset, at pos + offset, each with luminance `share`. */
  function Place(pos: Vec3, share: C.Color, offs: seq<Vec3>): (ls: seq<PointLight>)
    ensures |ls| == |offs|
  {
    seq(|offs|, i requires 0 <= i < |offs| => PointLight(Add(pos, offs[i]), share))
  }

  /** Samples jittered lights, or the failure of the draws. */
  function Jittered(light: AreaLight, draws: seq<real>): Result<seq<PointLight>, Failure>
    requires light.samples >= 0
  {
    match Offsets(draws, light.radius, light.samples, 0)
    case Ok(offs) => Ok(Place(light.pos, Share(light.lum, light.samples), offs))
    case Err(e) => Err(e)
  }

  /** `ToPointLights` of Composition/Light/AreaLight.cs: one sample is the centre itself. */
  function SampledLights(light: AreaLight, draws: seq<real>): Result<seq<PointLight>, Failure>
    requires light.samples > 0
  {
    if light.samples == 1 then Ok([PointLight(light.pos, light.lum)]) else Jittered(light, draws)
  }

  /** `ToPointLights` of Composition/AreaLight.cs: no shortcut, a negative count fails. */
  function LegacySampledLights(light: AreaLight, draws: seq<real>): Result<seq<PointLight>, Failure>
  {
    if light.samples < 0 then Err(NegativeCapacity) else Jittered(light, draws)
  }

  // ---------------------------------------------------------------------
  // Properties
  // ---------------------------------------------------------------------

  /** The accepted offsets are exactly n, all inside the sphere. */
  lemma {:induction false} OffsetsAreInside(draws: seq<real>, radius: real, n: nat, k: nat)
    requires 3 * k <= |draws|
    ensures Offsets(draws, radius, n, k).Ok? ==>
              var offs := Offsets(draws, radius, n, k).value;
              |offs| == n && forall i :: 0 <= i < n ==> Inside(offs[i], radius)
    decreases |draws| - 3 * k
  {
    if n > 0 && 3 * k + 3 <= |draws| {
      var v := Candidate(draws, k, radius);
      if Inside(v, radius) {
        OffsetsAreInside(draws, radius, n - 1, k + 1);
      } else {
        OffsetsAreInside(draws, radius, n, k + 1);
      }
    }
  }

  /** The sum of the luminances of a list of lights. */
  function TotalLum(ls: seq<PointLight>): C.Color
  {
    if |ls| == 0 then C.Black else C.Add(TotalLum(ls[..|ls| - 1]), ls[|ls| - 1].lum)
  }

  /** n lights of luminance s add up to n·s. */
  lemma {:induction false} TotalOfEqualShares(ls: seq<PointLight>, s: C.Color)
    requires forall i :: 0 <= i < |ls| ==> ls[i].lum == s
    ensures TotalLum(ls) == C.Scale(s, |ls| as real)
  {
    if |ls| > 0 {
      TotalOfEqualShares(ls[..|ls| - 1], s);
    }
  }

  lemma ShareTimesCount(lum: C.Color, n: nat)
    requires n > 0
    ensures C.Scale(Share(lum, n), n as real) == lum
  {
  }

  /**
   * A successful expansion of a light gives exactly Samples point lights,
   * each within Radius of Pos and with luminance Lum/Samples, so that the
   * luminances add up to Lum; a single sample is the light's centre.
   */
  lemma {:induction false} SampledLightsSplitLum(light: AreaLight, draws: seq<real>)
    requires light.samples > 0
    ensures light.samples == 1 ==> SampledLights(light, draws) == Ok([PointLight(light.pos, light.lum)])
    ensures SampledLights(light, draws).Ok? ==>
              var ls := SampledLights(light, draws).value;
              && |ls| == light.samples
              && (forall i :: 0 <= i < |ls| ==>
                    Inside(Sub(ls[i].pos, light.pos), light.radius) && ls[i].lum == Share(light.lum, light.samples))
              && TotalLum(ls) == light.lum
  {
    if light.samples > 1 {
      JitteredShape(light, draws);
    }
    var r := SampledLights(light, draws);
    if r.Ok? {
      TotalOfEqualShares(r.value, Share(light.lum, light.samples));
      ShareTimesCount(light.lum, light.samples);
    }
  }

  /**
   * The older expansion fails on a negative count, gives no light for a
   * count of 0 and otherwise the same jittered lights, even for one sample.
   */
  lemma {:induction false} LegacySampledLightsShape(light: AreaLight, draws: seq<real>)
    ensures light.samples < 0 ==> LegacySampledLights(light, draws) == Err(NegativeCapacity)
    ensures light.samples == 0 ==> LegacySampledLights(light, draws) == Ok([])
    ensures LegacySampledLights(light, draws).Ok? ==>
              var ls := LegacySampledLights(light, draws).value;
              && |ls| == light.samples
              && (forall i :: 0 <= i < |ls| ==>
                    Inside(Sub(ls[i].pos, light.pos), light.radius) && ls[i].lum == Share(light.lum, light.samples))
              && (light.samples > 0 ==> TotalLum(ls) == light.lum)
  {
    if light.samples >= 0 {
      JitteredShape(light, draws);
      var r := LegacySampledLights(light, draws);
      if r.Ok? && light.samples > 0 {
        TotalOfEqualShares(r.value, Share(light.lum, light.samples));
        ShareTimesCount(light.lum, light.samples);
      }
    }
  }

  lemma {:induction false} JitteredShape(light: AreaLight, draws: seq<real>)
    requires light.samples >= 0
    ensures Jittered(light, draws).Ok? ==>
              var ls := Jittered(light, draws).value;
              && |ls| == light.samples
              && forall i :: 0 <= i < |ls| ==>
                   Inside(Sub(ls[i].pos, light.pos), light.radius) && ls[i].lum == Share(light.lum, light.samples)
  {
    OffsetsAreInside(draws, light.radius, light.samples, 0);
    var r := Jittered(light, draws);
    if r.Ok? {
      var offs := Offsets(draws, light.radius, light.samples, 0).value;
      forall i | 0 <= i < |r.value|
        ensures Sub(r.value[i].pos, light.pos) == offs[i]
      {
      }
    }
  }

  // ---------------------------------------------------------------------
  // The loops
  // ---------------------------------------------------------------------

  lemma PrependPrepend(p: seq<Vec3>, v: Vec3, r: Result<seq<Vec3>, Failure>)
    ensures Prepend(p, Prepend([v], r)) == Prepend(p + [v], r)
  {
    if r.Ok? {
      AppendIsAssociative(p, [v], r.value);
    }
  }

  /**
   * The do-while loop: draw candidates from candidate k on until one falls
   * inside the sphere. It returns that offset and the next unused candidate,
   * or `None` when the draws run out.
   */
  method DrawInside(draws: seq<real>, radius: real, k0: nat, ghost n: nat) returns (r: Option<Vec3>, k: nat)
    requires 3 * k0 <= |draws| && n > 0
    ensures r.Some? ==> k0 < k && 3 * k <= |draws|
    ensures r.None? ==> Offsets(draws, radius, n, k0) == Err(RandomExhausted)
    ensures r.Some? ==> Offsets(draws, radius, n, k0) == Prepend([r.value], Offsets(draws, radius, n - 1, k))
  {
    k := k0;
    if 3 * k + 3 > |draws| {
      return None, k;
    }
    var x := draws[3 * k] * 2.0 * radius - radius;
    var y := draws[3 * k + 1] * 2.0 * radius - radius;
    var z := draws[3 * k + 2] * 2.0 * radius - radius;
    k := k + 1;
    while !Inside(Vec3(x, y, z), radius)
      invariant k0 < k && 3 * k <= |draws|
      invariant Vec3(x, y, z) == Candidate(draws, k - 1, radius)
      invariant Offsets(draws, radius, n, k0) == Offsets(draws, radius, n, k - 1)
      decreases |draws| - 3 * k
    {
      assert !Inside(Candidate(draws, k - 1, radius), radius);
      assert Offsets(draws, radius, n, k - 1) == Offsets(draws, radius, n, k);
      if 3 * k + 3 > |draws| {
        return None, k;
      }
      x := draws[3 * k] * 2.0 * radius - radius;
      y := draws[3 * k + 1] * 2.0 * radius - radius;
      z := draws[3 * k + 2] * 2.0 * radius - radius;
      k := k + 1;
    }
    assert Inside(Candidate(draws, k - 1, radius), radius);
    r := Some(Vec3(x, y, z));
  }

  /**
   * The loop shared by both classes: draw candidates until Samples of them
   * fall inside the sphere, adding a light at Pos + offset with Lum/Samples
   * for each.
   */
  method Jitter(light: AreaLight, draws: seq<real>) returns (r: Result<seq<PointLight>, Failure>)
    requires light.samples >= 0
    ensures r == Jittered(light, draws)
  {
    var radius := light.radius;
    var share := Share(light.lum, light.samples);
    ghost var all := Offsets(draws, radius, light.samples, 0);
    var pl: seq<PointLight> := [];
    ghost var offs: seq<Vec3> := [];
    var k := 0;
    if all.Ok? {
      assert [] + all.value == all.value;
    }
    while |pl| < light.samples
      invariant 3 * k <= |draws| && |pl| == |offs| <= light.samples
      invariant forall i :: 0 <= i < |pl| ==> pl[i] == PointLight(Add(light.pos, offs[i]), share)
      invariant all == Prepend(offs, Offsets(draws, radius, light.samples - |offs|, k))
      decreases |draws| - 3 * k
    {
      ghost var n := light.samples - |offs|;
      var v;
      v, k := DrawInside(draws, radius, k, n);
      if v.None? {
        return Err(RandomExhausted);
      }
      PrependPrepend(offs, v.value, Offsets(draws, radius, n - 1, k));
      pl := pl + [PointLight(Add(light.pos, v.value), share)];
      offs := offs + [v.value];
    }
    assert all == Ok(offs + []);
    assert offs + [] == offs;
    assert Place(light.pos, share, offs) == pl;
    r := Ok(pl);
  }

  /** `ToPointLights` of Composition/Light/AreaLight.cs; its constructor demands Samples > 0. */
  method ToPointLights(light: AreaLight, draws: seq<real>) returns (r: Result<seq<PointLight>, Failure>)
    requires light.samples > 0
    ensures r == SampledLights(light, draws)
  {
    if light.samples == 1 {
      return Ok([PointLight(light.pos, light.lum)]);
    }
    r := Jitter(light, draws);
  }

  /** `ToPointLights` of Composition/AreaLight.cs. */
  method LegacyToPointLights(light: AreaLight, draws: seq<real>) returns (r: Result<seq<PointLight>, Failure>)
    ensures r == LegacySampledLights(light, draws)
  {
    if light.samples < 0 {
      return Err(NegativeCapacity);
    }
    r := Jitter(light, draws);
  }
}
