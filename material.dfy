/** Surface materials and their Fresnel reflectance (Objects/Material.cs). */
module Materials {
  import opened Colors

  /** The eight-argument constructor of the source is the datatype constructor. */
  datatype Material = Material(
    ambient: Color,
    diffuse: Color,
    specular: Color,
    shine: real,
    isReflective: bool,
    isRefractive: bool,
    n: Color,    // real part of the index of refraction, per channel
    kap: Color)  // absorption coefficient, per channel

  /** The four-argument constructor: neither reflective nor refractive, N = Kap = 0. */
  function Plain(ambient: Color, diffuse: Color, specular: Color, shine: real): (m: Material)
    ensures !m.isReflective && !m.isRefractive
    ensures FresnelDefined(m) && F0(m) == White
  {
    Material(ambient, diffuse, specular, shine, false, false, Black, Black)
  }

  /** The denominator (n + 1)^2 + kap^2 of one channel, zero only for n = -1 and kap = 0. */
  function F0Denominator(n: real, k: real): real { (n + 1.0) * (n + 1.0) + k * k }

  /** Normal-incidence reflectance ((n - 1)^2 + kap^2) / ((n + 1)^2 + kap^2) of one channel. */
  function F0Channel(n: real, k: real): real
    requires F0Denominator(n, k) != 0.0
  {
    ((n - 1.0) * (n - 1.0) + k * k) / F0Denominator(n, k)
  }

  /** No channel divides by zero (the source would produce an infinity). */
  predicate FresnelDefined(m: Material)
  {
    F0Denominator(m.n.r, m.kap.r) != 0.0
    && F0Denominator(m.n.g, m.kap.g) != 0.0
    && F0Denominator(m.n.b, m.kap.b) != 0.0
  }

  /** Each channel of f0 is computed from that channel's n and kap alone. */
  function F0(m: Material): Color
    requires FresnelDefined(m)
  {
    Color(F0Channel(m.n.r, m.kap.r), F0Channel(m.n.g, m.kap.g), F0Channel(m.n.b, m.kap.b))
  }

  /** MathF.Pow(x, 5), an integer power. */
  function Pow5(x: real): real { x * x * x * x * x }

  /** Schlick's approximation f0 + (1 - f0) (1 - cos)^5, written as the source does. */
  function GetFresnel(m: Material, costh: real): Color
    requires FresnelDefined(m)
  {
    var f0 := F0(m);
    Add(f0, Scale(Add(Scale(f0, -1.0), White), Pow5(1.0 - costh)))
  }

  // ---------------------------------------------------------------------
  // Properties
  // ---------------------------------------------------------------------

  /** At normal incidence the grazing term vanishes and the reflectance is f0 exactly. */
  lemma FresnelAtNormalIncidence(m: Material)
    requires FresnelDefined(m)
    ensures GetFresnel(m, 1.0) == F0(m)
  {
  }

  /** At grazing incidence every channel reflects fully, whatever n and kap are. */
  lemma FresnelAtGrazingIncidence(m: Material)
    requires FresnelDefined(m)
    ensures GetFresnel(m, 0.0) == White
  {
  }

  /** A non-negative real index gives a defined reflectance in [0, 1]. */
  lemma {:induction false} F0ChannelIsFraction(n: real, k: real)
    requires n >= 0.0
    ensures F0Denominator(n, k) > 0.0
    ensures 0.0 <= F0Channel(n, k) <= 1.0
  {
    var num := (n - 1.0) * (n - 1.0) + k * k;
    var den := F0Denominator(n, k);
    calc {
      num;
    == 
      n * n - 2.0 * n + 1.0 + k * k;
    <= 
      n * n + 2.0 * n + 1.0 + k * k;
    ==
      den;
    }
    assert (n - 1.0) * (n - 1.0) >= 0.0 && k * k >= 0.0;
    assert (n + 1.0) * (n + 1.0) >= 1.0;
    assert 0.0 <= num <= den && den > 0.0;
    FractionInUnit(num, den);
  }

  lemma FractionInUnit(num: real, den: real)
    requires 0.0 <= num <= den && den > 0.0
    ensures 0.0 <= num / den <= 1.0
  {
    calc {
      num / den;
    <= 
      den / den;
    ==
      1.0;
    }
  }

  /** A fifth power of a number in [0, 1] stays in [0, 1]. */
  lemma {:induction false} Pow5InUnit(x: real)
    requires 0.0 <= x <= 1.0
    ensures 0.0 <= Pow5(x) <= 1.0
  {
    var p2 := x * x;
    assert 0.0 <= p2 <= 1.0 by { UnitProduct(x, x); }
    var p3 := p2 * x;
    assert 0.0 <= p3 <= 1.0 by { UnitProduct(p2, x); }
    var p4 := p3 * x;
    assert 0.0 <= p4 <= 1.0 by { UnitProduct(p3, x); }
    UnitProduct(p4, x);
  }

  lemma UnitProduct(a: real, b: real)
    requires 0.0 <= a <= 1.0 && 0.0 <= b <= 1.0
    ensures 0.0 <= a * b <= 1.0
  {
    calc {
      a * b;
    <= { MulMonotone(a, b, 1.0); }
      a * 1.0;
    <=
      1.0;
    }
  }

  lemma MulMonotone(c: real, x: real, y: real)
    requires 0.0 <= c && x <= y
    ensures c * x <= c * y
  {
    assert c * (y - x) >= 0.0;
  }

  /** A channel of Schlick's approximation lies between f0 and 1. */
  lemma {:induction false} SchlickChannelBetween(f0: real, costh: real)
    requires 0.0 <= f0 <= 1.0 && 0.0 <= costh <= 1.0
    ensures f0 <= f0 + (f0 * -1.0 + 1.0) * Pow5(1.0 - costh) <= 1.0
  {
    var p := Pow5(1.0 - costh);
    Pow5InUnit(1.0 - costh);
    calc {
      (f0 * -1.0 + 1.0) * p;
    <= { MulMonotone(1.0 - f0, p, 1.0); }
      (1.0 - f0) * 1.0;
    }
    calc {
      0.0;
    == 
      (1.0 - f0) * 0.0;
    <= { MulMonotone(1.0 - f0, 0.0, p); }
      (1.0 - f0) * p;
    ==
      (f0 * -1.0 + 1.0) * p;
    }
  }

  /** For a non-negative index in every channel and cos in [0, 1], each channel of kr lies between f0 and 1. */
  lemma {:induction false} FresnelBetweenF0AndOne(m: Material, costh: real)
    requires m.n.r >= 0.0 && m.n.g >= 0.0 && m.n.b >= 0.0
    requires 0.0 <= costh <= 1.0
    ensures FresnelDefined(m)
    ensures F0(m).r <= GetFresnel(m, costh).r <= 1.0
    ensures F0(m).g <= GetFresnel(m, costh).g <= 1.0
    ensures F0(m).b <= GetFresnel(m, costh).b <= 1.0
  {
    F0ChannelIsFraction(m.n.r, m.kap.r);
    F0ChannelIsFraction(m.n.g, m.kap.g);
    F0ChannelIsFraction(m.n.b, m.kap.b);
    var f0 := F0(m);
    SchlickChannelBetween(f0.r, costh);
    SchlickChannelBetween(f0.g, costh);
    SchlickChannelBetween(f0.b, costh);
  }
}
