/**
 * The tone mappers of the first generation (Filters/NonLinearToneMapper.cs,
 * Filters/MaxLinearToneMapper.cs). Both rewrite the colour buffer of a
 * `RawImage` in place; the buffer is the `array2<Color>` indexed [x, y],
 * x below the width. The parallel inner loops run in their index order.
 */
module ToneMappers {
  import opened Global
  import opened Colors

  /** A snapshot of the buffer as columns: g[x][y] is pixel (x, y). */
  ghost function Grid(a: array2<Color>): (g: seq<seq<Color>>)
    reads a
    ensures IsGrid(g, a.Length0, a.Length1)
    ensures forall x, y :: 0 <= x < a.Length0 && 0 <= y < a.Length1 ==> g[x][y] == a[x, y]
  {
    seq(a.Length0, x requires 0 <= x < a.Length0 reads a =>
      seq(a.Length1, y requires 0 <= y < a.Length1 reads a => a[x, y]))
  }

  ghost predicate IsGrid(g: seq<seq<Color>>, w: nat, h: nat)
  {
    |g| == w && forall x :: 0 <= x < w ==> |g[x]| == h
  }

  /** A buffer equal cell by cell to a grid of its shape has that grid as snapshot. */
  lemma GridIs(a: array2<Color>, g: seq<seq<Color>>)
    requires IsGrid(g, a.Length0, a.Length1)
    requires forall x, y :: 0 <= x < a.Length0 && 0 <= y < a.Length1 ==> a[x, y] == g[x][y]
    ensures Grid(a) == g
  {
    var s := Grid(a);
    forall x | 0 <= x < |g|
      ensures s[x] == g[x]
    {
    }
  }

  // ---------------------------------------------------------------------
  // The non-linear mapper: c / (c·p + 1) per channel
  // ---------------------------------------------------------------------

  /** One channel of `image[x, y] / (image[x, y] * p + one)`. */
  function NonLinearChannel(c: real, p: real): real
  {
    Div(c, c * p + 1.0)
  }

  /** The new colour of a pixel depends on its own old colour only. */
  function NonLinearPixel(c: Color, p: real): (n: Color)
    ensures n == Color(NonLinearChannel(c.r, p), NonLinearChannel(c.g, p), NonLinearChannel(c.b, p))
  {
    Quot(c, Add(Scale(c, p), White))
  }

  ghost function NonLinearGrid(g: seq<seq<Color>>, p: real): (n: seq<seq<Color>>)
  {
    seq(|g|, x requires 0 <= x < |g| => seq(|g[x]|, y requires 0 <= y < |g[x]| => NonLinearPixel(g[x][y], p)))
  }

  /** For p ≥ 1 a non-negative channel lands in [0, 1), and 0 stays 0. */
  lemma {:induction false} NonLinearRange(c: real, p: real)
    requires p >= 1.0 && c >= 0.0
    ensures 0.0 <= NonLinearChannel(c, p) < 1.0
    ensures c == 0.0 ==> NonLinearChannel(c, p) == 0.0
  {
    var d := c * p + 1.0;
    NonNegativeProduct(c, p - 1.0);
    assert d > c && d > 0.0;
    QuotientBelowOne(c, d);
  }

  lemma NonNegativeProduct(a: real, b: real)
    requires 0.0 <= a && 0.0 <= b
    ensures 0.0 <= a * b
  {
  }

  lemma QuotientBelowOne(c: real, d: real)
    requires 0.0 <= c < d
    ensures 0.0 <= c / d < 1.0
  {
  }

  /** For p ≥ 0 the map is non-decreasing on the non-negative channels. */
  lemma {:induction false} NonLinearIsMonotone(a: real, b: real, p: real)
    requires p >= 0.0 && 0.0 <= a <= b
    ensures NonLinearChannel(a, p) <= NonLinearChannel(b, p)
  {
    NonNegativeProduct(a, p);
    NonNegativeProduct(b, p);
    var da, db := a * p + 1.0, b * p + 1.0;
    // a·(b·p + 1) ≤ b·(a·p + 1) because a ≤ b.
    assert a * db == a * b * p + a && b * da == a * b * p + b;
    QuotientsCompare(a, da, b, db);
  }

  lemma QuotientsCompare(a: real, da: real, b: real, db: real)
    requires da > 0.0 && db > 0.0 && a * db <= b * da
    ensures a / da <= b / db
  {
    var k := da * db;
    assert k > 0.0;
    assert a / da == (a * db) / k && b / db == (b * da) / k;
  }

  /** The inverse of the channel map, q / (1 − q·p). */
  function NonLinearInverse(q: real, p: real): real
  {
    Div(q, 1.0 - q * p)
  }

  /** For p ≥ 0 the inverse recovers every non-negative channel, and the result satisfies q·p < 1. */
  lemma {:induction false} NonLinearRoundTrip(c: real, p: real)
    requires p >= 0.0 && c >= 0.0
    ensures NonLinearChannel(c, p) * p < 1.0
    ensures NonLinearInverse(NonLinearChannel(c, p), p) == c
  {
    NonNegativeProduct(c, p);
    var d := c * p + 1.0;
    var q := NonLinearChannel(c, p);
    assert q * d == c;
    var e := 1.0 - q * p;
    InverseFactor(c, p, d, q);
    assert e * d == 1.0;
    PositiveFactor(e, d);
    Undivide(q, e, d);
    assert NonLinearInverse(q, p) == c;
  }

  /** From q·d = c and d = c·p + 1 it follows that (1 − q·p)·d = 1. */
  lemma InverseFactor(c: real, p: real, d: real, q: real)
    requires d == c * p + 1.0 && q * d == c
    ensures (1.0 - q * p) * d == 1.0
  {
    calc {
      (1.0 - q * p) * d;
      d - p * (q * d);
      d - p * c;
      1.0;
    }
  }

  lemma PositiveFactor(e: real, d: real)
    requires d > 0.0 && e * d == 1.0
    ensures e > 0.0
  {
  }

  /** With e·d = 1, dividing by e is multiplying by d. */
  lemma Undivide(q: real, e: real, d: real)
    requires e > 0.0 && e * d == 1.0
    ensures Div(q, e) == q * d
  {
    assert (q * d) * e == q;
  }

  class NonLinearToneMapper {
    const p: real

    /** The exponent defaults to 1. */
    constructor (p: real := 1.0)
      ensures this.p == p
    {
      this.p := p;
    }

    /** Every pixel becomes image[x, y] / (image[x, y]·p + 1); the dimensions are unchanged. */
    method ToneMap(image: array2<Color>)
      modifies image
      ensures forall x, y :: 0 <= x < image.Length0 && 0 <= y < image.Length1 ==>
                image[x, y] == NonLinearPixel(old(image[x, y]), p)
      ensures Grid(image) == NonLinearGrid(old(Grid(image)), p)
    {
      ghost var g := Grid(image);
      var one := White;
      var x := 0;
      while x < image.Length0
        invariant 0 <= x <= image.Length0
        invariant forall i, j :: 0 <= i < x && 0 <= j < image.Length1 ==>
                    image[i, j] == NonLinearPixel(g[i][j], p)
        invariant forall i, j :: x <= i < image.Length0 && 0 <= j < image.Length1 ==> image[i, j] == g[i][j]
      {
        var y := 0;
        while y < image.Length1
          invariant 0 <= y <= image.Length1
          invariant forall i, j :: 0 <= i < x && 0 <= j < image.Length1 ==>
                      image[i, j] == NonLinearPixel(g[i][j], p)
          invariant forall j :: 0 <= j < y ==> image[x, j] == NonLinearPixel(g[x][j], p)
          invariant forall i, j :: x <= i < image.Length0 && 0 <= j < image.Length1 && (i > x || j >= y) ==>
                      image[i, j] == g[i][j]
        {
          image[x, y] := Quot(image[x, y], Add(Scale(image[x, y], p), one));
          y := y + 1;
        }
        x := x + 1;
      }
      GridIs(image, NonLinearGrid(g, p));
    }
  }

  // ---------------------------------------------------------------------
  // The max-linear mapper: divide by the largest channel
  // ---------------------------------------------------------------------

  /** `Math.Max`. */
  function Max(a: real, b: real): (m: real)
    ensures m >= a && m >= b && (m == a || m == b)
  {
    if a >= b then a else b
  }

  /** The largest channel of a pixel. */
  function ChannelMax(c: Color): (m: real)
    ensures m >= c.r && m >= c.g && m >= c.b
    ensures m == c.r || m == c.g || m == c.b
  {
    Max(c.r, Max(c.g, c.b))
  }

  /** The running maximum `acc` carried down one column, rows in increasing order. */
  function ColumnFold(acc: real, col: seq<Color>): real
  {
    if |col| == 0 then acc else Max(ColumnFold(acc, col[..|col| - 1]), ChannelMax(col[|col| - 1]))
  }

  /** The reduction of the source: start at 0, then columns x = 0, 1, … in turn. */
  function GridMax(g: seq<seq<Color>>): real
  {
    if |g| == 0 then 0.0 else ColumnFold(GridMax(g[..|g| - 1]), g[|g| - 1])
  }

  /** A column fold is the larger of its start and the largest channel it passes. */
  lemma {:induction false} ColumnFoldIsMax(acc: real, col: seq<Color>)
    ensures ColumnFold(acc, col) >= acc
    ensures forall y :: 0 <= y < |col| ==> ChannelMax(col[y]) <= ColumnFold(acc, col)
    ensures ColumnFold(acc, col) == acc || exists y :: 0 <= y < |col| && ChannelMax(col[y]) == ColumnFold(acc, col)
  {
    if |col| > 0 {
      var n := |col| - 1;
      ColumnFoldIsMax(acc, col[..n]);
      assert forall y :: 0 <= y < n ==> col[..n][y] == col[y];
      if ColumnFold(acc, col) != acc && ColumnFold(acc, col) != ChannelMax(col[n]) {
        var y :| 0 <= y < n && ChannelMax(col[..n][y]) == ColumnFold(acc, col[..n]);
        assert ChannelMax(col[y]) == ColumnFold(acc, col);
      }
    }
  }

  /**
   * The maximum is at least 0, at least every channel of every pixel, and
   * either 0 or the largest channel of some pixel.
   */
  lemma {:induction false} GridMaxIsMax(g: seq<seq<Color>>)
    ensures GridMax(g) >= 0.0
    ensures forall x, y :: 0 <= x < |g| && 0 <= y < |g[x]| ==> ChannelMax(g[x][y]) <= GridMax(g)
    ensures GridMax(g) == 0.0 || exists x, y :: 0 <= x < |g| && 0 <= y < |g[x]| && ChannelMax(g[x][y]) == GridMax(g)
  {
    if |g| > 0 {
      var n := |g| - 1;
      var prefix := g[..n];
      GridMaxIsMax(prefix);
      ColumnFoldIsMax(GridMax(prefix), g[n]);
      assert forall x :: 0 <= x < n ==> prefix[x] == g[x];
      var m := GridMax(g);
      if m != 0.0 {
        if m == GridMax(prefix) {
          var x, y :| 0 <= x < n && 0 <= y < |prefix[x]| && ChannelMax(prefix[x][y]) == m;
          assert ChannelMax(g[x][y]) == m;
        } else {
          var y :| 0 <= y < |g[n]| && ChannelMax(g[n][y]) == m;
          assert ChannelMax(g[n][y]) == m;
        }
      }
    }
  }

  /** Every channel multiplied by 1/max. */
  ghost function MaxLinearGrid(g: seq<seq<Color>>): seq<seq<Color>>
  {
    var div := Div(1.0, GridMax(g));
    seq(|g|, x requires 0 <= x < |g| => seq(|g[x]|, y requires 0 <= y < |g[x]| => Scale(g[x][y], div)))
  }

  predicate NonNegative(c: Color)
  {
    c.r >= 0.0 && c.g >= 0.0 && c.b >= 0.0
  }

  predicate InUnit(c: Color)
  {
    0.0 <= c.r <= 1.0 && 0.0 <= c.g <= 1.0 && 0.0 <= c.b <= 1.0
  }

  /**
   * On an image with non-negative channels and a positive maximum, every
   * channel ends in [0, 1] and the largest becomes exactly 1.
   */
  lemma {:induction false} MaxLinearBounds(g: seq<seq<Color>>)
    requires forall x, y :: 0 <= x < |g| && 0 <= y < |g[x]| ==> NonNegative(g[x][y])
    requires GridMax(g) > 0.0
    ensures var s := MaxLinearGrid(g);
            && (forall x, y :: 0 <= x < |g| && 0 <= y < |g[x]| ==> InUnit(s[x][y]))
            && exists x, y :: 0 <= x < |g| && 0 <= y < |g[x]| && ChannelMax(s[x][y]) == 1.0
  {
    var m := GridMax(g);
    var s := MaxLinearGrid(g);
    GridMaxIsMax(g);
    forall x, y | 0 <= x < |g| && 0 <= y < |g[x]|
      ensures InUnit(s[x][y])
    {
      assert s[x][y] == Scale(g[x][y], Div(1.0, m));
      ScaledPixel(g[x][y], m);
    }
    var x, y :| 0 <= x < |g| && 0 <= y < |g[x]| && ChannelMax(g[x][y]) == m;
    assert s[x][y] == Scale(g[x][y], Div(1.0, m));
    ScaledPixel(g[x][y], m);
  }

  lemma ScaledPixel(c: Color, m: real)
    requires NonNegative(c) && ChannelMax(c) <= m && m > 0.0
    ensures InUnit(Scale(c, Div(1.0, m)))
    ensures ChannelMax(c) == m ==> ChannelMax(Scale(c, Div(1.0, m))) == 1.0
  {
    ScaledBelowOne(c.r, m);
    ScaledBelowOne(c.g, m);
    ScaledBelowOne(c.b, m);
  }

  lemma ScaledBelowOne(c: real, m: real)
    requires 0.0 <= c <= m && m > 0.0
    ensures 0.0 <= c * Div(1.0, m) <= 1.0
    ensures c == m ==> c * Div(1.0, m) == 1.0
    ensures c < m ==> c * Div(1.0, m) < 1.0
  {
    assert c * (1.0 / m) == c / m;
  }

  /** The reduction loop of `ToneMap`: max starts at 0 and takes every channel of every pixel. */
  method ImageMaximum(image: array2<Color>) returns (max: real)
    ensures max == GridMax(Grid(image))
  {
    ghost var g := Grid(image);
    max := 0.0;
    var x := 0;
    while x < image.Length0
      invariant 0 <= x <= image.Length0
      invariant max == GridMax(g[..x])
    {
      var y := 0;
      while y < image.Length1
        invariant 0 <= y <= image.Length1
        invariant max == ColumnFold(GridMax(g[..x]), g[x][..y])
      {
        var c := image[x, y];
        assert g[x][..y + 1][..y] == g[x][..y];
        max := Max(max, Max(c.r, Max(c.g, c.b)));
        y := y + 1;
      }
      assert g[x][..image.Length1] == g[x];
      assert g[..x + 1][..x] == g[..x];
      x := x + 1;
    }
    assert g[..image.Length0] == g;
  }

  class MaxLinearToneMapper {

    constructor ()
    {
    }

    /**
     * Every channel of every pixel is multiplied by 1/max, max the largest
     * channel of the image (0 if there is none larger).
     */
    method ToneMap(image: array2<Color>)
      modifies image
      ensures forall x, y :: 0 <= x < image.Length0 && 0 <= y < image.Length1 ==>
                image[x, y] == Scale(old(image[x, y]), Div(1.0, GridMax(old(Grid(image)))))
      ensures Grid(image) == MaxLinearGrid(old(Grid(image)))
    {
      ghost var g := Grid(image);
      var max := ImageMaximum(image);
      var div := Div(1.0, max);
      var x := 0;
      while x < image.Length0
        invariant 0 <= x <= image.Length0
        invariant forall i, j :: 0 <= i < x && 0 <= j < image.Length1 ==> image[i, j] == Scale(g[i][j], div)
        invariant forall i, j :: x <= i < image.Length0 && 0 <= j < image.Length1 ==> image[i, j] == g[i][j]
      {
        var y := 0;
        while y < image.Length1
          invariant 0 <= y <= image.Length1
          invariant forall i, j :: 0 <= i < x && 0 <= j < image.Length1 ==> image[i, j] == Scale(g[i][j], div)
          invariant forall j :: 0 <= j < y ==> image[x, j] == Scale(g[x][j], div)
          invariant forall i, j :: x <= i < image.Length0 && 0 <= j < image.Length1 && (i > x || j >= y) ==>
                      image[i, j] == g[i][j]
        {
          image[x, y] := Scale(image[x, y], div);
          y := y + 1;
        }
        x := x + 1;
      }
      GridIs(image, MaxLinearGrid(g));
    }
  }
}
