/**
 * The .qif byte format: the image's width and height as 32-bit integers in
 * the writer's byte order, followed by the image buffer, three bytes per
 * pixel. `Image::write` produces it; the converter script reads it back,
 * turning each RGB triple into the BGR order of its output array.
 */
module Qif {
  import opened Outcomes

  type Byte = b: int | 0 <= b < 256

  /** A C++ `int`. */
  type Int32 = n: int | -0x8000_0000 <= n < 0x8000_0000

  /** The four bytes of an int as stored in memory: two's complement, in the given byte order. */
  function Int32Bytes(n: Int32, bigEndian: bool): (b: seq<Byte>)
    ensures |b| == 4
  {
    var u := n % 0x1_0000_0000;
    var le := [u % 0x100, u / 0x100 % 0x100, u / 0x1_0000 % 0x100, u / 0x100_0000];
    if bigEndian then [le[3], le[2], le[1], le[0]] else le
  }

  /** `struct.unpack("<I")` (little-endian) or `struct.unpack(">I")` (big-endian). */
  function UInt32(b: seq<Byte>, bigEndian: bool): (n: nat)
    requires |b| == 4
    ensures n < 0x1_0000_0000
  {
    var le: seq<int> := if bigEndian then [b[3], b[2], b[1], b[0]] else b;
    le[0] + 0x100 * le[1] + 0x1_0000 * le[2] + 0x100_0000 * le[3]
  }

  /**
   * Reading back the bytes of an int in the same byte order gives the int
   * modulo 2^32: non-negative ints come back unchanged, negative ones as
   * their unsigned counterpart.
   */
  lemma Int32RoundTrip(n: Int32, bigEndian: bool)
    ensures UInt32(Int32Bytes(n, bigEndian), bigEndian) == n % 0x1_0000_0000
    ensures n >= 0 ==> UInt32(Int32Bytes(n, bigEndian), bigEndian) == n
  {
    var u := n % 0x1_0000_0000;
    var b0, r0 := u % 0x100, u / 0x100;
    var b1, r1 := r0 % 0x100, r0 / 0x100;
    var b2, b3 := r1 % 0x100, r1 / 0x100;
    assert u / 0x1_0000 == r1;
    assert u / 0x100_0000 == b3;
    assert u == b0 + 0x100 * (b1 + 0x100 * (b2 + 0x100 * b3));
  }

  /** What `Image::write` emits for an image with the given buffer. */
  function Encode(width: Int32, height: Int32, mem: seq<Byte>, bigEndian: bool): (data: seq<Byte>)
    requires 0 <= width && 0 <= height && |mem| == width * height * 3
    ensures |data| == 8 + width * height * 3
  {
    Int32Bytes(width, bigEndian) + Int32Bytes(height, bigEndian) + mem
  }

  /** Byte k of pixel (x, y) in a row-major buffer of a width by height image, three bytes per pixel. */
  function BufferByte(mem: seq<Byte>, width: nat, height: nat, x: nat, y: nat, k: nat): Byte
    requires |mem| == width * height * 3 && x < width && y < height && k < 3
  {
    PixelByteBound(width, height, x, y, 2 - k);
    mem[(y * width + x) * 3 + k]
  }

  /** A decoded image: `height` rows of `width` pixels of 3 channels. */
  datatype Picture = Picture(width: nat, height: nat, pixels: seq<seq<seq<Byte>>>)

  predicate WellShaped(p: Picture) {
    && |p.pixels| == p.height
    && forall y :: 0 <= y < p.height ==>
      && |p.pixels[y]| == p.width
      && forall x :: 0 <= x < p.width ==> |p.pixels[y][x]| == 3
  }

  /** Why the converter fails: no full header, or the data ends inside the pixels. */
  datatype DecodeError = ShortHeader | Truncated

  /** Offset of the byte that lands in channel `ch` of pixel (x, y) of a width-w image. */
  function PixelByte(w: nat, x: nat, y: nat, ch: nat): int {
    8 + 3 * (y * w + x) + 2 - ch
  }

  /** Every pixel byte of a w by h image lies before offset 8 + w*h*3. */
  lemma PixelByteBound(w: nat, h: nat, x: nat, y: nat, ch: nat)
    requires x < w && y < h && ch < 3
    ensures 8 <= PixelByte(w, x, y, ch) < 8 + w * h * 3
  {
    assert y * w + x < y * w + w == (y + 1) * w;
    assert (y + 1) * w <= h * w;
  }

  /** Header of the converter's input: width then height. */
  function Width(data: seq<Byte>, bigEndian: bool): nat
    requires |data| >= 8
  {
    UInt32(data[0..4], bigEndian)
  }

  function Height(data: seq<Byte>, bigEndian: bool): nat
    requires |data| >= 8
  {
    UInt32(data[4..8], bigEndian)
  }

  /** The y/x/channel loop: channels 2, 1, 0 of each pixel take its three bytes in turn. */
  function ReadPixels(data: seq<Byte>, w: nat, h: nat): (rows: seq<seq<seq<Byte>>>)
    requires |data| >= 8 + w * h * 3
    ensures WellShaped(Picture(w, h, rows))
  {
    seq(h, y requires 0 <= y < h =>
      seq(w, x requires 0 <= x < w =>
        seq(3, ch requires 0 <= ch < 3 =>
          PixelByteBound(w, h, x, y, ch);
          data[PixelByte(w, x, y, ch)])))
  }

  /** Channel ch of pixel (x, y) holds the byte at PixelByte(w, x, y, ch). */
  lemma ReadPixelsAt(data: seq<Byte>, w: nat, h: nat, x: nat, y: nat, ch: nat)
    requires |data| >= 8 + w * h * 3 && x < w && y < h && ch < 3
    ensures 8 <= PixelByte(w, x, y, ch) < |data|
    ensures ReadPixels(data, w, h)[y][x][ch] == data[PixelByte(w, x, y, ch)]
  {
    PixelByteBound(w, h, x, y, ch);
  }

  /**
   * The converter's reading of a .qif stream: the header, then for each
   * row, for each pixel, three bytes stored into channels 2, 1 and 0.
   * Bytes past the last pixel are ignored.
   */
  function Decode(data: seq<Byte>, bigEndian: bool): (r: Result<Picture, DecodeError>)
    ensures r == Err(ShortHeader) <==> |data| < 8
    ensures r == Err(Truncated) <==>
      |data| >= 8 && |data| < 8 + Width(data, bigEndian) * Height(data, bigEndian) * 3
    ensures r.Ok? ==> && r.value.width == Width(data, bigEndian) && r.value.height == Height(data, bigEndian)
                      && WellShaped(r.value)
  {
    if |data| < 8 then Err(ShortHeader)
    else
      var w, h := Width(data, bigEndian), Height(data, bigEndian);
      if |data| < 8 + w * h * 3 then Err(Truncated)
      else Ok(Picture(w, h, ReadPixels(data, w, h)))
  }

  /**
   * Decoding what `Image::write` wrote, with the writer's byte order, gives
   * back the image's size, and byte k of pixel (x, y) of the buffer lands in
   * channel 2 - k.
   */
  lemma {:induction false} RoundTrip(width: Int32, height: Int32, mem: seq<Byte>, bigEndian: bool)
    requires 0 <= width && 0 <= height && |mem| == width * height * 3
    ensures var r := Decode(Encode(width, height, mem, bigEndian), bigEndian);
      && r.Ok? && r.value.width == width && r.value.height == height
      && forall y, x, ch :: 0 <= y < height && 0 <= x < width && 0 <= ch < 3 ==>
           r.value.pixels[y][x][ch] == BufferByte(mem, width, height, x, y, 2 - ch)
  {
    var data := Encode(width, height, mem, bigEndian);
    HeaderRoundTrip(width, height, mem, bigEndian);
    var rows := ReadPixels(data, width, height);
    assert Decode(data, bigEndian) == Ok(Picture(width, height, rows));
    forall y, x, ch | 0 <= y < height && 0 <= x < width && 0 <= ch < 3
      ensures rows[y][x][ch] == BufferByte(mem, width, height, x, y, 2 - ch)
    {
      PixelRoundTrip(width, height, mem, bigEndian, x, y, ch);
    }
  }

  /** The header of an encoded image reads back as its width and height. */
  lemma HeaderRoundTrip(width: Int32, height: Int32, mem: seq<Byte>, bigEndian: bool)
    requires 0 <= width && 0 <= height && |mem| == width * height * 3
    ensures var data := Encode(width, height, mem, bigEndian);
      Width(data, bigEndian) == width && Height(data, bigEndian) == height
  {
    var data := Encode(width, height, mem, bigEndian);
    assert data[0..4] == Int32Bytes(width, bigEndian);
    assert data[4..8] == Int32Bytes(height, bigEndian);
    Int32RoundTrip(width, bigEndian);
    Int32RoundTrip(height, bigEndian);
  }

  /** Channel ch of pixel (x, y) of an encoded image is byte 2 - ch of that pixel in the buffer. */
  lemma PixelRoundTrip(width: Int32, height: Int32, mem: seq<Byte>, bigEndian: bool, x: nat, y: nat, ch: nat)
    requires 0 <= width && 0 <= height && |mem| == width * height * 3
    requires x < width && y < height && ch < 3
    ensures var data := Encode(width, height, mem, bigEndian);
      ReadPixels(data, width, height)[y][x][ch] == BufferByte(mem, width, height, x, y, 2 - ch)
  {
    var data := Encode(width, height, mem, bigEndian);
    PixelByteBound(width, height, x, y, ch);
    var k := PixelByte(width, x, y, ch);
    assert k - 8 == (y * width + x) * 3 + (2 - ch);
    assert data[k] == mem[k - 8];
  }
}
