/**
 * The colour buffer of the first generation and its conversion to a bitmap
 * (Composition/RawImage.cs). The bitmap is a 2-D array of byte triples,
 * indexed [x, y] with row 0 at the top.
 */
module Images {
  import opened Colors
  import opened ToneMappers
  import opened BmpImages

  /** `System.Drawing.Color.FromArgb(r, g, b)`. */
  datatype Rgb = Rgb(r: Byte, g: Byte, b: Byte)

  /** The bitmap colour of a pixel: each channel clamp(trunc(c·255), 0, 255). */
  function PixelRgb(c: Color): (p: Rgb)
  {
    Rgb(ChannelByte(c.r), ChannelByte(c.g), ChannelByte(c.b))
  }

  /** The row of the bitmap that receives image row y: rows are flipped. */
  function Flip(height: nat, y: nat): (f: nat)
    requires y < height
    ensures f < height
  {
    height - y - 1
  }

  /** Flipping twice gives the row back, so the flip is a bijection on 0 .. height − 1. */
  lemma FlipIsInvolution(height: nat, y: nat)
    requires y < height
    ensures Flip(height, Flip(height, y)) == y
  {
  }

  /** Both tone mappers in the order `ToneMap` runs them, NonLinear with p = 1 first. */
  ghost function ToneMapped(g: seq<seq<Color>>): seq<seq<Color>>
  {
    MaxLinearGrid(NonLinearGrid(g, 1.0))
  }

  /**
   * After `ToneMap` an image whose channels are all non-negative has all
   * channels in [0, 1], the largest exactly 1 unless the image is black.
   */
  lemma {:induction false} ToneMappedIsInUnit(g: seq<seq<Color>>)
    requires forall x, y :: 0 <= x < |g| && 0 <= y < |g[x]| ==> NonNegative(g[x][y])
    ensures var t := ToneMapped(g);
            && |t| == |g|
            && (forall x :: 0 <= x < |g| ==> |t[x]| == |g[x]|)
            && (forall x, y :: 0 <= x < |g| && 0 <= y < |g[x]| ==> InUnit(t[x][y]))
            && (GridMax(NonLinearGrid(g, 1.0)) > 0.0 ==>
                  exists x, y :: 0 <= x < |g| && 0 <= y < |g[x]| && ChannelMax(t[x][y]) == 1.0)
  {
    var n := NonLinearGrid(g, 1.0);
    var t := ToneMapped(g);
    forall x, y | 0 <= x < |n| && 0 <= y < |n[x]|
      ensures NonNegative(n[x][y])
    {
      var c := g[x][y];
      NonLinearRange(c.r, 1.0);
      NonLinearRange(c.g, 1.0);
      NonLinearRange(c.b, 1.0);
    }
    if GridMax(n) > 0.0 {
      MaxLinearBounds(n);
    } else {
      GridMaxIsMax(n);
      forall x, y | 0 <= x < |g| && 0 <= y < |g[x]|
        ensures InUnit(t[x][y])
      {
        assert t[x][y] == Scale(n[x][y], 0.0);
      }
    }
  }

  class RawImage {
    const width: nat
    const height: nat
    const img: array2<Color>

    ghost predicate Valid()
    {
      img.Length0 == width && img.Length1 == height
    }

    /** A width × height buffer of black pixels. */
    constructor (w: nat, h: nat)
      ensures Valid() && width == w && height == h && fresh(img)
      ensures forall x, y :: 0 <= x < w && 0 <= y < h ==> img[x, y] == Black
    {
      width, height := w, h;
      img := new Color[w, h]((x, y) => Black);
    }

    /** The getter of the indexer. */
    function Get(x: nat, y: nat): Color
      requires Valid() && x < width && y < height
      reads img
    {
      img[x, y]
    }

    /** The setter of the indexer: only pixel (x, y) changes. */
    method Set(x: nat, y: nat, c: Color)
      requires Valid() && x < width && y < height
      modifies img
      ensures Get(x, y) == c
      ensures forall i, j :: 0 <= i < width && 0 <= j < height && (i != x || j != y) ==>
                Get(i, j) == old(Get(i, j))
    {
      img[x, y] := c;
    }

    /** The non-linear mapper with its default p = 1, then the max-linear mapper, both in place. */
    method ToneMap()
      requires Valid()
      modifies img
      ensures Grid(img) == ToneMapped(old(Grid(img)))
    {
      var nonLinear := new NonLinearToneMapper();
      nonLinear.ToneMap(img);
      var maxLinear := new MaxLinearToneMapper();
      maxLinear.ToneMap(img);
    }

    /**
     * A fresh width × height bitmap whose pixel (x, Height − 1 − y) holds the
     * bytes of image pixel (x, y); since the flip is a bijection on the
     * rows, every bitmap pixel is written exactly once.
     */
    method ToBitmap() returns (bmp: array2<Rgb>)
      requires Valid()
      ensures fresh(bmp) && bmp.Length0 == width && bmp.Length1 == height
      ensures forall x, y :: 0 <= x < width && 0 <= y < height ==> bmp[x, Flip(height, y)] == PixelRgb(img[x, y])
      ensures forall x, y :: 0 <= x < width && 0 <= y < height ==> bmp[x, y] == PixelRgb(img[x, Flip(height, y)])
    {
      bmp := new Rgb[width, height]((x, y) => Rgb(0, 0, 0));
      for x := 0 to width
        invariant forall i, j :: 0 <= i < x && 0 <= j < height ==> bmp[i, Flip(height, j)] == PixelRgb(img[i, j])
      {
        for y := 0 to height
          invariant forall i, j :: 0 <= i < x && 0 <= j < height ==> bmp[i, Flip(height, j)] == PixelRgb(img[i, j])
          invariant forall j :: 0 <= j < y ==> bmp[x, Flip(height, j)] == PixelRgb(img[x, j])
        {
          bmp[x, height - y - 1] := Rgb(
            Clamp(Truncate(img[x, y].r * 255.0), 0, 255),
            Clamp(Truncate(img[x, y].g * 255.0), 0, 255),
            Clamp(Truncate(img[x, y].b * 255.0), 0, 255));
        }
      }
      forall x, y | 0 <= x < width && 0 <= y < height
        ensures bmp[x, y] == PixelRgb(img[x, Flip(height, y)])
      {
        FlipIsInvolution(height, y);
        assert bmp[x, Flip(height, Flip(height, y))] == PixelRgb(img[x, Flip(height, y)]);
      }
    }
  }
}
