/**
 * The raw image of the second generation and its 24-bit BMP codec
 * (RayTracer/Composition/RawImage.cs): a Width × Height colour buffer, and a
 * writer that emits the 14-byte file header, the 40-byte DIB header and the
 * bottom-up BGR pixel rows, each padded to a multiple of four bytes.
 */
module BmpImages {
  import opened Colors
  import opened Sequences

  type Byte = b: int | 0 <= b < 256

  const TwoTo32: int := 0x1_0000_0000
  const TwoTo31: int := 0x8000_0000

  /** `uint` arithmetic: the value modulo 2^32. */
  function U32(x: int): (r: nat)
    ensures r < TwoTo32
    ensures 0 <= x < TwoTo32 ==> r == x
  {
    x % TwoTo32
  }

  /** The `(int)` cast of a `uint`: values from 2^31 up come out negative. */
  function IntOfU32(x: nat): (r: int)
    requires x < TwoTo32
    ensures -TwoTo31 <= r < TwoTo31
    ensures x < TwoTo31 ==> r == x
  {
    if x < TwoTo31 then x else x - TwoTo32
  }

  const BmpHeaderSize: nat := 14
  const DibHeaderSize: nat := 40
  /** 72 DPI in pixels per metre. */
  const Resolution: nat := 2835

  /** `GetRowSize`: 3·Width rounded up to a multiple of four, in `uint` arithmetic. */
  function RowSize(width: int): nat
  {
    var w := U32(width * 3);
    if w % 4 == 0 then w else U32(w + 4 - w % 4)
  }

  /**
   * Even with `uint` wrap-around the row size is a multiple of four: the
   * wrapped 3·Width rounded up, or 0 when rounding up passes 2³².
   */
  lemma RowSizeIsMultipleOfFour(width: int)
    ensures RowSize(width) % 4 == 0 && RowSize(width) < TwoTo32
    ensures RowSize(width) == 0 || U32(width * 3) <= RowSize(width) < U32(width * 3) + 4
  {
  }

  /** Without wrap-around, the row size is the least multiple of four that holds 3·Width bytes. */
  lemma RowSizeIsLeastMultipleOfFour(width: nat)
    requires 3 * width + 3 < TwoTo32
    ensures RowSize(width) % 4 == 0
    ensures 3 * width <= RowSize(width) < 3 * width + 4
  {
  }

  // ----------------------------------------------------------------------
  // Little-endian integers
  // ----------------------------------------------------------------------

  function Pow256(n: nat): (p: nat)
    ensures p >= 1
  {
    if n == 0 then 1 else 256 * Pow256(n - 1)
  }

  /** The n least significant bytes of i, least significant first. */
  function LittleEndian(i: nat, n: nat): (bs: seq<Byte>)
    ensures |bs| == n
  {
    if n == 0 then [] else [i % 256] + LittleEndian(i / 256, n - 1)
  }

  /** The number a little-endian byte string stands for. */
  function FromLittleEndian(bs: seq<Byte>): (i: nat)
    ensures i < Pow256(|bs|)
  {
    if bs == [] then 0 else bs[0] + 256 * FromLittleEndian(bs[1..])
  }

  lemma {:induction false} LittleEndianRoundTrip(i: nat, n: nat)
    requires i < Pow256(n)
    ensures FromLittleEndian(LittleEndian(i, n)) == i
  {
    if n > 0 {
      LittleEndianRoundTrip(i / 256, n - 1);
      assert LittleEndian(i, n)[1..] == LittleEndian(i / 256, n - 1);
    }
  }

  function Reverse(bs: seq<Byte>): (r: seq<Byte>)
    ensures |r| == |bs|
  {
    if bs == [] then [] else Reverse(bs[1..]) + [bs[0]]
  }

  lemma {:induction false} ReverseReverses(bs: seq<Byte>)
    ensures forall k :: 0 <= k < |bs| ==> Reverse(bs)[k] == bs[|bs| - 1 - k]
  {
    if bs != [] {
      ReverseReverses(bs[1..]);
    }
  }

  lemma ReverseTwice(bs: seq<Byte>)
    ensures Reverse(Reverse(bs)) == bs
  {
    ReverseReverses(bs);
    ReverseReverses(Reverse(bs));
  }

  /** `BitConverter.GetBytes`: the bytes in the host's order. */
  function HostBytes(i: nat, n: nat, hostLittleEndian: bool): seq<Byte>
  {
    if hostLittleEndian then LittleEndian(i, n) else Reverse(LittleEndian(i, n))
  }

  /** `WriteLittleEndianBytes`: reverses the host bytes on a big-endian host. */
  function ToLittleEndian(bytes: seq<Byte>, hostLittleEndian: bool): seq<Byte>
  {
    if hostLittleEndian then bytes else Reverse(bytes)
  }

  /** `WriteUint` and `WriteUshort` emit little-endian bytes whatever the host order. */
  lemma {:induction false} HostOrderIsIrrelevant(i: nat, n: nat, hostLittleEndian: bool)
    ensures ToLittleEndian(HostBytes(i, n, hostLittleEndian), hostLittleEndian) == LittleEndian(i, n)
  {
    if !hostLittleEndian {
      ReverseTwice(LittleEndian(i, n));
    }
  }

  /** n zero bytes; none when n is not positive. */
  function Zeros(n: int): (z: seq<Byte>)
    ensures |z| == if n < 0 then 0 else n
  {
    if n <= 0 then [] else Zeros(n - 1) + [0]
  }

  lemma {:induction false} ZerosAreZero(n: nat)
    ensures Zeros(n) == LittleEndian(0, n)
    ensures forall k :: 0 <= k < n ==> Zeros(n)[k] == 0
  {
    if n > 0 {
      ZerosAreZero(n - 1);
      assert LittleEndian(0, n) == [0] + LittleEndian(0, n - 1);
    }
  }

  // ----------------------------------------------------------------------
  // Header fields
  // ----------------------------------------------------------------------

  /** A header field: value written in size little-endian bytes. */
  datatype Field = Field(value: nat, size: nat)

  /** The fields one after the other. */
  function Encode(fs: seq<Field>): (bs: seq<Byte>)
  {
    if fs == [] then []
    else Encode(fs[..|fs| - 1]) + LittleEndian(fs[|fs| - 1].value, fs[|fs| - 1].size)
  }

  /** Where field k starts. */
  function Offset(fs: seq<Field>, k: nat): nat
    requires k <= |fs|
  {
    if k == 0 then 0 else Offset(fs, k - 1) + fs[k - 1].size
  }

  /** Writing field k after fields 0 .. k − 1 gives fields 0 .. k. */
  lemma EncodeStep(s: seq<Byte>, fs: seq<Field>, k: nat)
    requires k < |fs|
    ensures s + Encode(fs[..k]) + LittleEndian(fs[k].value, fs[k].size) == s + Encode(fs[..k + 1])
  {
    assert fs[..k + 1][..k] == fs[..k];
    AppendIsAssociative(s, Encode(fs[..k]), LittleEndian(fs[k].value, fs[k].size));
  }

  /** A write of field k after the first k fields have been written leaves the first k + 1 written. */
  lemma Extend(s: seq<Byte>, fs: seq<Field>, k: nat, before: seq<Byte>, after: seq<Byte>)
    requires k < |fs| && before == s + Encode(fs[..k])
    requires after == before + LittleEndian(fs[k].value, fs[k].size)
    ensures after == s + Encode(fs[..k + 1])
  {
    EncodeStep(s, fs, k);
  }

  /** A slice of length r of a front followed by a back of length r: in the front, or the back itself. */
  lemma SliceAcross(front: seq<Byte>, back: seq<Byte>, start: nat, r: nat, target: seq<Byte>)
    requires |back| == r
    requires (start + r <= |front| && front[start..start + r] == target) || (start == |front| && back == target)
    ensures start + r <= |front + back| && (front + back)[start..start + r] == target
  {
    if start + r <= |front| && front[start..start + r] == target {
      SliceOfFront(front, back, start, start + r);
    } else {
      SliceOfBack(front, back);
    }
  }

  lemma {:induction false} EncodedPrefix(fs: seq<Field>, k: nat)
    requires k <= |fs|
    ensures |Encode(fs[..k])| == Offset(fs, k)
    ensures Offset(fs, k) <= |Encode(fs)|
    ensures Encode(fs)[..Offset(fs, k)] == Encode(fs[..k])
  {
    if k < |fs| {
      EncodedPrefix(fs[..|fs| - 1], k);
      assert fs[..|fs| - 1][..k] == fs[..k];
      OffsetOfPrefix(fs, |fs| - 1, k);
    } else {
      assert fs[..k] == fs;
      if k > 0 {
        EncodedPrefix(fs[..k - 1], k - 1);
        assert fs[..k - 1][..k - 1] == fs[..k - 1];
        OffsetOfPrefix(fs, k - 1, k - 1);
      }
    }
  }

  lemma {:induction false} OffsetOfPrefix(fs: seq<Field>, n: nat, k: nat)
    requires k <= n <= |fs|
    ensures Offset(fs[..n], k) == Offset(fs, k)
  {
    if k > 0 {
      OffsetOfPrefix(fs, n, k - 1);
    }
  }

  /** Field k can be read back at its offset, whatever follows the fields. */
  lemma {:induction false} ReadField(fs: seq<Field>, k: nat, rest: seq<Byte>)
    requires k < |fs| && fs[k].value < Pow256(fs[k].size)
    ensures Offset(fs, k + 1) <= |Encode(fs) + rest|
    ensures FromLittleEndian((Encode(fs) + rest)[Offset(fs, k) .. Offset(fs, k + 1)]) == fs[k].value
  {
    EncodedPrefix(fs, k + 1);
    var front := Encode(fs[..k + 1]);
    assert fs[..k + 1][..k] == fs[..k];
    EncodedPrefix(fs[..k + 1], k);
    OffsetOfPrefix(fs, k + 1, k);
    assert (Encode(fs) + rest)[..Offset(fs, k + 1)] == front;
    assert front[Offset(fs, k) ..] == LittleEndian(fs[k].value, fs[k].size);
    LittleEndianRoundTrip(fs[k].value, fs[k].size);
  }

  // ----------------------------------------------------------------------
  // The headers
  // ----------------------------------------------------------------------

  /** The size of the pixel array, `(uint)Height * GetRowSize()`. */
  function ImageSize(width: int, height: nat): nat
  {
    U32(height * RowSize(width))
  }

  /** The file size field, `BMP_HEADER_SIZE + DIB_HEADER_SIZE + (uint)Height * GetRowSize()`. */
  function FileSize(width: int, height: nat): nat
  {
    U32(BmpHeaderSize + DibHeaderSize + ImageSize(width, height))
  }

  /** `WriteBMPHeader`: 'B', 'M', the file size, four zero bytes, the pixel offset. */
  function FileHeaderFields(width: int, height: nat): seq<Field>
  {
    [Field(0x42, 1), Field(0x4D, 1), Field(FileSize(width, height), 4), Field(0, 2), Field(0, 2),
     Field(BmpHeaderSize + DibHeaderSize, 4)]
  }

  /** `WriteDIBHeader`: a BITMAPINFOHEADER for an uncompressed 24-bit image at 2835 pixels per metre. */
  function DibHeaderFields(width: nat, height: nat): seq<Field>
  {
    [Field(DibHeaderSize, 4), Field(width, 4), Field(height, 4), Field(1, 2), Field(24, 2), Field(0, 4),
     Field(ImageSize(width, height), 4), Field(Resolution, 4), Field(Resolution, 4), Field(0, 4), Field(0, 4)]
  }

  /** The fields of the two headers, as a reader of the file sees them. */
  datatype BmpInfo = BmpInfo(signature: seq<Byte>, fileSize: nat, reserved1: nat, reserved2: nat,
                             pixelOffset: nat, dibSize: nat, width: nat, height: nat, planes: nat,
                             bitsPerPixel: nat, compression: nat, imageSize: nat, xResolution: nat,
                             yResolution: nat, paletteColors: nat, importantColors: nat)

  /** Reads the 54 header bytes at their offsets in the BMP format. */
  function ReadHeaders(bs: seq<Byte>): (info: BmpInfo)
    requires |bs| >= 54
    ensures info.signature == bs[..2]
  {
    BmpInfo(bs[..2], FromLittleEndian(bs[2..6]), FromLittleEndian(bs[6..8]), FromLittleEndian(bs[8..10]),
            FromLittleEndian(bs[10..14]), FromLittleEndian(bs[14..18]), FromLittleEndian(bs[18..22]),
            FromLittleEndian(bs[22..26]), FromLittleEndian(bs[26..28]), FromLittleEndian(bs[28..30]),
            FromLittleEndian(bs[30..34]), FromLittleEndian(bs[34..38]), FromLittleEndian(bs[38..42]),
            FromLittleEndian(bs[42..46]), FromLittleEndian(bs[46..50]), FromLittleEndian(bs[50..54]))
  }

  /** The offsets of the header fields, in the order they are written. */
  lemma HeaderOffsets(width: nat, height: nat)
    ensures var fs := HeaderFields(width, height);
            && |fs| == 17
            && Offset(fs, 1) == 1 && Offset(fs, 2) == 2 && Offset(fs, 3) == 6 && Offset(fs, 4) == 8
            && Offset(fs, 5) == 10 && Offset(fs, 6) == 14 && Offset(fs, 7) == 18 && Offset(fs, 8) == 22
            && Offset(fs, 9) == 26 && Offset(fs, 10) == 28 && Offset(fs, 11) == 30 && Offset(fs, 12) == 34
            && Offset(fs, 13) == 38 && Offset(fs, 14) == 42 && Offset(fs, 15) == 46 && Offset(fs, 16) == 50
            && Offset(fs, 17) == 54
  {
    var fs := HeaderFields(width, height);
    assert fs == [Field(0x42, 1), Field(0x4D, 1), Field(FileSize(width, height), 4), Field(0, 2), Field(0, 2),
                  Field(54, 4), Field(40, 4), Field(width, 4), Field(height, 4), Field(1, 2), Field(24, 2),
                  Field(0, 4), Field(ImageSize(width, height), 4), Field(2835, 4), Field(2835, 4),
                  Field(0, 4), Field(0, 4)];
    assert Offset(fs, 1) == 1;
    assert Offset(fs, 2) == 2;
    assert Offset(fs, 3) == 6;
    assert Offset(fs, 4) == 8;
    assert Offset(fs, 5) == 10;
    assert Offset(fs, 6) == 14;
    assert Offset(fs, 7) == 18;
    assert Offset(fs, 8) == 22;
    assert Offset(fs, 9) == 26;
    assert Offset(fs, 10) == 28;
    assert Offset(fs, 11) == 30;
    assert Offset(fs, 12) == 34;
    assert Offset(fs, 13) == 38;
    assert Offset(fs, 14) == 42;
    assert Offset(fs, 15) == 46;
    assert Offset(fs, 16) == 50;
  }

  /** The header fields of an image, with the file header first. */
  function HeaderFields(width: nat, height: nat): seq<Field>
  {
    FileHeaderFields(width, height) + DibHeaderFields(width, height)
  }

  /**
   * The two headers are 54 bytes, and reading them back gives "BM", the file
   * size, zero reserved fields, the pixel offset 54, and the DIB fields 40,
   * Width, Height, 1 plane, 24 bits, no compression, the pixel array size,
   * 2835 × 2835 pixels per metre and an empty palette.
   */
  lemma {:induction false} HeadersRoundTrip(width: nat, height: nat, rest: seq<Byte>)
    requires width < TwoTo32 && height < TwoTo32
    ensures |Encode(HeaderFields(width, height))| == 54
    ensures ReadHeaders(Encode(HeaderFields(width, height)) + rest)
            == BmpInfo([0x42, 0x4D], FileSize(width, height), 0, 0, 54,
                       40, width, height, 1, 24, 0, ImageSize(width, height), 2835, 2835, 0, 0)
  {
    var fs := HeaderFields(width, height);
    HeaderOffsets(width, height);
    EncodedPrefix(fs, 17);
    assert fs[..17] == fs;
    FileHeaderRoundTrip(width, height, rest);
    DibSizesRoundTrip(width, height, rest);
    DibLayoutRoundTrip(width, height, rest);
  }

  lemma {:induction false} FileHeaderRoundTrip(width: nat, height: nat, rest: seq<Byte>)
    requires width < TwoTo32 && height < TwoTo32 && |Encode(HeaderFields(width, height))| == 54
    ensures var bs := Encode(HeaderFields(width, height)) + rest;
            && bs[..2] == [0x42, 0x4D] && FromLittleEndian(bs[2..6]) == FileSize(width, height)
            && FromLittleEndian(bs[6..8]) == 0 && FromLittleEndian(bs[8..10]) == 0
            && FromLittleEndian(bs[10..14]) == 54
  {
    var fs := HeaderFields(width, height);
    var bs := Encode(fs) + rest;
    HeaderOffsets(width, height);
    ReadField(fs, 0, rest);
    ReadField(fs, 1, rest);
    assert bs[..2] == [bs[0], bs[1]];
    assert bs[0..1] == [bs[0]] && bs[1..2] == [bs[1]];
    ReadField(fs, 2, rest);
    ReadField(fs, 3, rest);
    ReadField(fs, 4, rest);
    ReadField(fs, 5, rest);
  }

  lemma {:induction false} DibSizesRoundTrip(width: nat, height: nat, rest: seq<Byte>)
    requires width < TwoTo32 && height < TwoTo32 && |Encode(HeaderFields(width, height))| == 54
    ensures var bs := Encode(HeaderFields(width, height)) + rest;
            && FromLittleEndian(bs[14..18]) == 40 && FromLittleEndian(bs[18..22]) == width
            && FromLittleEndian(bs[22..26]) == height && FromLittleEndian(bs[26..28]) == 1
            && FromLittleEndian(bs[28..30]) == 24
  {
    var fs := HeaderFields(width, height);
    HeaderOffsets(width, height);
    ReadField(fs, 6, rest);
    ReadField(fs, 7, rest);
    ReadField(fs, 8, rest);
    ReadField(fs, 9, rest);
    ReadField(fs, 10, rest);
  }

  lemma {:induction false} DibLayoutRoundTrip(width: nat, height: nat, rest: seq<Byte>)
    requires width < TwoTo32 && height < TwoTo32 && |Encode(HeaderFields(width, height))| == 54
    ensures var bs := Encode(HeaderFields(width, height)) + rest;
            && FromLittleEndian(bs[30..34]) == 0 && FromLittleEndian(bs[34..38]) == ImageSize(width, height)
            && FromLittleEndian(bs[38..42]) == 2835 && FromLittleEndian(bs[42..46]) == 2835
            && FromLittleEndian(bs[46..50]) == 0 && FromLittleEndian(bs[50..54]) == 0
  {
    var fs := HeaderFields(width, height);
    HeaderOffsets(width, height);
    ReadField(fs, 11, rest);
    ReadField(fs, 12, rest);
    ReadField(fs, 13, rest);
    ReadField(fs, 14, rest);
    ReadField(fs, 15, rest);
    ReadField(fs, 16, rest);
  }

  // ----------------------------------------------------------------------
  // The pixel array
  // ----------------------------------------------------------------------

  /** `(int)`: truncation toward zero. */
  function Truncate(r: real): int
  {
    if r >= 0.0 then r.Floor else -((-r).Floor)
  }

  function Clamp(v: int, lo: int, hi: int): int
    requires lo <= hi
  {
    if v < lo then lo else if v > hi then hi else v
  }

  /** `(byte)Math.Clamp((int)(c * 255), 0, 255)`. */
  function ChannelByte(c: real): (b: Byte)
  {
    Clamp(Truncate(c * 255.0), 0, 255)
  }

  /** Channels at or below 0 give 0, at or above 1 give 255, and in between the truncated c·255. */
  lemma ChannelByteRange(c: real)
    ensures c <= 0.0 ==> ChannelByte(c) == 0
    ensures c >= 1.0 ==> ChannelByte(c) == 255
    ensures 0.0 <= c <= 1.0 ==> ChannelByte(c) == (c * 255.0).Floor
  {
  }

  lemma ChannelByteIsMonotone(c: real, d: real)
    requires c <= d
    ensures ChannelByte(c) <= ChannelByte(d)
  {
    TruncateIsMonotone(c * 255.0, d * 255.0);
  }

  lemma TruncateIsMonotone(r: real, s: real)
    requires r <= s
    ensures Truncate(r) <= Truncate(s)
  {
    if r < 0.0 && s < 0.0 {
      assert (-s).Floor <= (-r).Floor;
    }
  }

  /** Flooring instead of truncating would give the same byte once clamped. */
  lemma FloorAgreesAfterClamp(c: real)
    ensures ChannelByte(c) == Clamp((c * 255.0).Floor, 0, 255)
  {
  }

  /** A pixel in BGR order. */
  function Bgr(p: Color): seq<Byte>
  {
    [ChannelByte(p.b), ChannelByte(p.g), ChannelByte(p.r)]
  }

  /** `(int)GetRowSize() - Width * 3`: the zero bytes that end each row. */
  function Padding(width: int): int
  {
    IntOfU32(RowSize(width)) - width * 3
  }

  /** Without wrap-around the padding is 0 to 3 bytes and completes the row to `GetRowSize()`. */
  lemma PaddingCompletesRow(width: nat)
    requires 3 * width + 3 < TwoTo31
    ensures 0 <= Padding(width) <= 3
    ensures 3 * width + Padding(width) == RowSize(width)
  {
    RowSizeIsLeastMultipleOfFour(width);
  }

  /** Below 2^31 bytes of pixel data the size fields are the true sizes. */
  lemma SizesDoNotWrap(width: nat, height: nat)
    requires 3 * width + 3 < TwoTo31 && 54 + height * (3 * width + 3) < TwoTo31
    ensures ImageSize(width, height) == height * RowSize(width)
    ensures FileSize(width, height) == 54 + height * RowSize(width)
  {
    RowSizeIsLeastMultipleOfFour(width);
    MulIsMonotone(RowSize(width), 3 * width + 3, height);
  }

  lemma MulIsMonotone(a: nat, b: nat, c: nat)
    requires a <= b
    ensures a * c <= b * c
  {
  }

  // ----------------------------------------------------------------------
  // The image and the writer
  // ----------------------------------------------------------------------

  /** The output stream: the bytes written so far. */
  class ByteStream {
    var bytes: seq<Byte>

    constructor()
      ensures bytes == []
    {
      bytes := [];
    }

    method WriteByte(b: Byte)
      modifies this
      ensures bytes == old(bytes) + [b]
    {
      bytes := bytes + [b];
    }

    /** `Stream.Write(bytes, 0, bytes.Length)`. */
    method Write(bs: seq<Byte>)
      modifies this
      ensures bytes == old(bytes) + bs
    {
      bytes := bytes + bs;
    }
  }

  class RawImage {
    const width: nat
    const height: nat
    /** The colour of pixel (x, y) is `img[x, y]`. */
    const img: array2<Color>

    ghost predicate Valid()
    {
      img.Length0 == width && img.Length1 == height
    }

    constructor(width: int, height: int)
      requires width > 0 && height > 0
      ensures Valid() && fresh(img)
      ensures this.width == width && this.height == height
    {
      this.width := width;
      this.height := height;
      img := new Color[width, height];
    }

    /** The indexer's getter. */
    method Get(x: nat, y: nat) returns (c: Color)
      requires Valid() && x < width && y < height
      ensures c == img[x, y]
    {
      c := img[x, y];
    }

    /** The indexer's setter: pixel (x, y) becomes c and no other pixel changes. */
    method Set(x: nat, y: nat, c: Color)
      requires Valid() && x < width && y < height
      modifies img
      ensures img[x, y] == c
      ensures forall i, j :: 0 <= i < width && 0 <= j < height && (i != x || j != y) ==>
                img[i, j] == old(img[i, j])
    {
      img[x, y] := c;
    }

    /** Pixels 0 .. x − 1 of row y in BGR order. */
    function RowPixels(y: nat, x: nat): (bs: seq<Byte>)
      requires Valid() && y < height && x <= width
      reads img
      ensures |bs| == 3 * x
    {
      if x == 0 then [] else RowPixels(y, x - 1) + Bgr(img[x - 1, y])
    }

    /** Row y as written: its pixels, then the padding. */
    function Row(y: nat): (bs: seq<Byte>)
      requires Valid() && y < height
      reads img
    {
      RowPixels(y, width) + Zeros(Padding(width))
    }

    /** Rows 0 .. y − 1, bottom row first (the height field is positive). */
    function Rows(y: nat): seq<Byte>
      requires Valid() && y <= height
      reads img
    {
      if y == 0 then [] else Rows(y - 1) + Row(y - 1)
    }

    /** The whole file `WriteToFile` produces. */
    function File(): seq<Byte>
      requires Valid()
      reads img
    {
      Encode(HeaderFields(width, height)) + Rows(height)
    }

    /** Pixel x of row y sits at offset 3x of the row, in BGR order, and the padding is zero. */
    lemma {:induction false} RowLayout(y: nat, x: nat)
      requires Valid() && y < height && x < width
      ensures Row(y)[3 * x .. 3 * x + 3] == Bgr(img[x, y])
      ensures forall k :: 3 * width <= k < |Row(y)| ==> Row(y)[k] == 0
    {
      PixelInRow(y, width, x);
      assert Row(y)[..3 * width] == RowPixels(y, width);
      if Padding(width) > 0 {
        ZerosAreZero(Padding(width));
      }
    }

    lemma {:induction false} PixelInRow(y: nat, n: nat, x: nat)
      requires Valid() && y < height && x < n <= width
      ensures RowPixels(y, n)[3 * x .. 3 * x + 3] == Bgr(img[x, y])
    {
      if x < n - 1 {
        PixelInRow(y, n - 1, x);
        assert RowPixels(y, n)[..3 * (n - 1)] == RowPixels(y, n - 1);
      }
    }

    /** Every row has the same length r. */
    predicate RowsHaveLength(r: nat)
      requires Valid()
      reads img
    {
      forall j :: 0 <= j < height ==> |Row(j)| == r
    }

    /** Without wrap-around every row is exactly `GetRowSize()` bytes. */
    lemma RowLength()
      requires Valid() && 3 * width + 3 < TwoTo31
      ensures RowsHaveLength(RowSize(width))
    {
      PaddingCompletesRow(width);
    }

    lemma {:induction false} RowsLength(y: nat, r: nat)
      requires Valid() && y <= height && RowsHaveLength(r)
      ensures |Rows(y)| == y * r
    {
      if y > 0 {
        RowsLength(y - 1, r);
        assert (y - 1) * r + r == y * r;
      }
    }

    /** With rows of length r, row j starts at offset start = j · r of the pixel array. */
    lemma {:induction false} RowAt(y: nat, j: nat, r: nat, start: nat)
      requires Valid() && j < y <= height && RowsHaveLength(r) && start == j * r
      ensures start + r <= |Rows(y)|
      ensures Rows(y)[start .. start + r] == Row(j)
    {
      RowsLength(y - 1, r);
      var front, back := Rows(y - 1), Row(y - 1);
      assert Rows(y) == front + back;
      if j < y - 1 {
        RowAt(y - 1, j, r, start);
      } else {
        assert start == |front|;
      }
      SliceAcross(front, back, start, r, Row(j));
    }

    /**
     * Without wrap-around the file is 54 + Height · rowSize bytes, which is
     * exactly the size its header records, and the pixel array size field is
     * the length of the pixel rows.
     */
    lemma {:induction false} FileSizeIsRecorded()
      requires Valid() && 3 * width + 3 < TwoTo31 && 54 + height * (3 * width + 3) < TwoTo31
      ensures |File()| == 54 + |Rows(height)|
      ensures |Rows(height)| == height * RowSize(width)
      ensures ReadHeaders(File()).fileSize == |File()|
      ensures ReadHeaders(File()).imageSize == |Rows(height)|
    {
      RowLength();
      RowsLength(height, RowSize(width));
      SizesDoNotWrap(width, height);
      HeadersRoundTrip(width, height, Rows(height));
    }

    /** `WriteBMPHeader`. */
    method WriteBmpHeader(stream: ByteStream, host: bool)
      modifies stream
      ensures stream.bytes == old(stream.bytes) + Encode(FileHeaderFields(width, height))
    {
      ghost var s := stream.bytes;
      ghost var fs := FileHeaderFields(width, height);
      assert s == s + Encode(fs[..0]);
      WriteByteField(stream, 0x42, s, fs, 0);
      WriteByteField(stream, 0x4D, s, fs, 1);
      var size := U32(BmpHeaderSize + DibHeaderSize + ImageSize(width, height));
      WriteUintField(stream, size, host, s, fs, 2);
      WriteZerosField(stream, 2, s, fs, 3);
      WriteZerosField(stream, 2, s, fs, 4);
      WriteUintField(stream, BmpHeaderSize + DibHeaderSize, host, s, fs, 5);
      assert fs[..6] == fs;
    }

    /** `WriteDIBHeader`. */
    method WriteDibHeader(stream: ByteStream, host: bool)
      requires width < TwoTo32 && height < TwoTo32
      modifies stream
      ensures stream.bytes == old(stream.bytes) + Encode(DibHeaderFields(width, height))
    {
      ghost var s := stream.bytes;
      ghost var fs := DibHeaderFields(width, height);
      assert s == s + Encode(fs[..0]);
      WriteUintField(stream, DibHeaderSize, host, s, fs, 0);
      WriteUintField(stream, width, host, s, fs, 1);
      WriteUintField(stream, height, host, s, fs, 2);
      WriteUshortField(stream, 1, host, s, fs, 3);
      WriteUshortField(stream, 24, host, s, fs, 4);
      WriteZerosField(stream, 4, s, fs, 5);
      WriteUintField(stream, ImageSize(width, height), host, s, fs, 6);
      WriteUintField(stream, Resolution, host, s, fs, 7);
      WriteUintField(stream, Resolution, host, s, fs, 8);
      WriteZerosField(stream, 4, s, fs, 9);
      WriteZerosField(stream, 4, s, fs, 10);
      assert fs[..11] == fs;
    }

    /** `WritePixelArray`: rows y = 0 .. Height − 1, pixels x = 0 .. Width − 1, then the padding. */
    method WritePixelArray(stream: ByteStream)
      requires Valid()
      modifies stream
      ensures stream.bytes == old(stream.bytes) + Rows(height)
    {
      var padding := Padding(width);
      var y := 0;
      while y < height
        invariant 0 <= y <= height
        invariant stream.bytes == old(stream.bytes) + Rows(y)
      {
        ghost var before := stream.bytes;
        WriteRowPixels(stream, y);
        WriteZeros(stream, padding);
        RowsStep(old(stream.bytes), y, before, stream.bytes);
        y := y + 1;
      }
    }

    /** Appending one row's pixels and its padding extends the rows written so far by one. */
    lemma RowsStep(s: seq<Byte>, y: nat, before: seq<Byte>, after: seq<Byte>)
      requires Valid() && y < height
      requires before == s + Rows(y)
      requires after == before + RowPixels(y, width) + Zeros(Padding(width))
      ensures after == s + Rows(y + 1)
    {
      AppendIsAssociative(before, RowPixels(y, width), Zeros(Padding(width)));
      AppendIsAssociative(s, Rows(y), Row(y));
    }

    /** The inner loop of `WritePixelArray`: the pixels x = 0 .. Width − 1 of row y. */
    method WriteRowPixels(stream: ByteStream, y: nat)
      requires Valid() && y < height
      modifies stream
      ensures stream.bytes == old(stream.bytes) + RowPixels(y, width)
    {
      var x := 0;
      while x < width
        invariant 0 <= x <= width
        invariant stream.bytes == old(stream.bytes) + RowPixels(y, x)
      {
        WritePixel(stream, img[x, y]);
        AppendIsAssociative(old(stream.bytes), RowPixels(y, x), Bgr(img[x, y]));
        x := x + 1;
      }
    }

    /**
     * `WriteToFile`, with the file replaced by the stream it is written to;
     * host tells whether the machine is little-endian.
     */
    method WriteToFile(stream: ByteStream, host: bool)
      requires Valid() && width < TwoTo32 && height < TwoTo32
      modifies stream
      ensures stream.bytes == old(stream.bytes) + File()
    {
      WriteBmpHeader(stream, host);
      WriteDibHeader(stream, host);
      WritePixelArray(stream);
      EncodeAppends(FileHeaderFields(width, height), DibHeaderFields(width, height));
      AppendIsAssociative(old(stream.bytes), Encode(FileHeaderFields(width, height)),
                          Encode(DibHeaderFields(width, height)));
      AppendIsAssociative(old(stream.bytes), Encode(HeaderFields(width, height)), Rows(height));
    }
  }

  lemma {:induction false} EncodeAppends(fs: seq<Field>, gs: seq<Field>)
    ensures Encode(fs + gs) == Encode(fs) + Encode(gs)
    decreases |gs|
  {
    if gs == [] {
      assert fs + gs == fs;
    } else {
      var n := |gs| - 1;
      EncodeAppends(fs, gs[..n]);
      assert (fs + gs)[..|fs + gs| - 1] == fs + gs[..n];
      AppendIsAssociative(Encode(fs), Encode(gs[..n]), LittleEndian(gs[n].value, gs[n].size));
    }
  }

  /** The three `WriteByte` calls of one pixel: blue, green, red. */
  method WritePixel(stream: ByteStream, p: Color)
    modifies stream
    ensures stream.bytes == old(stream.bytes) + Bgr(p)
  {
    stream.WriteByte(ChannelByte(p.b));
    stream.WriteByte(ChannelByte(p.g));
    stream.WriteByte(ChannelByte(p.r));
  }

  /** `WriteUint`: the host's bytes of i, put in little-endian order. */
  method WriteUint(stream: ByteStream, i: nat, hostLittleEndian: bool)
    requires i < TwoTo32
    modifies stream
    ensures stream.bytes == old(stream.bytes) + LittleEndian(i, 4)
  {
    HostOrderIsIrrelevant(i, 4, hostLittleEndian);
    stream.Write(ToLittleEndian(HostBytes(i, 4, hostLittleEndian), hostLittleEndian));
  }

  /** `WriteUshort`: the host's bytes of i, put in little-endian order. */
  method WriteUshort(stream: ByteStream, i: nat, hostLittleEndian: bool)
    requires i < 0x1_0000
    modifies stream
    ensures stream.bytes == old(stream.bytes) + LittleEndian(i, 2)
  {
    HostOrderIsIrrelevant(i, 2, hostLittleEndian);
    stream.Write(ToLittleEndian(HostBytes(i, 2, hostLittleEndian), hostLittleEndian));
  }

  /** `WriteZeros`: n zero bytes, none when n is not positive. */
  method WriteZeros(stream: ByteStream, n: int)
    modifies stream
    ensures stream.bytes == old(stream.bytes) + Zeros(n)
  {
    var i := 0;
    while i < n
      invariant 0 <= i <= if n < 0 then 0 else n
      invariant stream.bytes == old(stream.bytes) + Zeros(i)
    {
      stream.WriteByte(0);
      i := i + 1;
    }
  }

  /**
   * The field writers of the header methods: with fields fs[..k] already
   * written after s, each writes field k.
   */
  method WriteByteField(stream: ByteStream, b: Byte, ghost s: seq<Byte>, ghost fs: seq<Field>, ghost k: nat)
    requires k < |fs| && fs[k] == Field(b as nat, 1) && stream.bytes == s + Encode(fs[..k])
    modifies stream
    ensures stream.bytes == s + Encode(fs[..k + 1])
  {
    ghost var before := stream.bytes;
    assert LittleEndian(b as nat, 1) == [b];
    stream.WriteByte(b);
    Extend(s, fs, k, before, stream.bytes);
  }

  method WriteUintField(stream: ByteStream, i: nat, host: bool, ghost s: seq<Byte>, ghost fs: seq<Field>, ghost k: nat)
    requires i < TwoTo32 && k < |fs| && fs[k] == Field(i, 4) && stream.bytes == s + Encode(fs[..k])
    modifies stream
    ensures stream.bytes == s + Encode(fs[..k + 1])
  {
    ghost var before := stream.bytes;
    WriteUint(stream, i, host);
    Extend(s, fs, k, before, stream.bytes);
  }

  method WriteUshortField(stream: ByteStream, i: nat, host: bool, ghost s: seq<Byte>, ghost fs: seq<Field>, ghost k: nat)
    requires i < 0x1_0000 && k < |fs| && fs[k] == Field(i, 2) && stream.bytes == s + Encode(fs[..k])
    modifies stream
    ensures stream.bytes == s + Encode(fs[..k + 1])
  {
    ghost var before := stream.bytes;
    WriteUshort(stream, i, host);
    Extend(s, fs, k, before, stream.bytes);
  }

  method WriteZerosField(stream: ByteStream, n: nat, ghost s: seq<Byte>, ghost fs: seq<Field>, ghost k: nat)
    requires k < |fs| && fs[k] == Field(0, n) && stream.bytes == s + Encode(fs[..k])
    modifies stream
    ensures stream.bytes == s + Encode(fs[..k + 1])
  {
    ghost var before := stream.bytes;
    WriteZeros(stream, n);
    ZerosAreZero(n);
    Extend(s, fs, k, before, stream.bytes);
  }
}
