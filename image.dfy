/**
 * `Quaternion::Image`: a three-channel byte buffer with a width and a
 * height. Pixel bytes are addressed through `mempos`, which steps from one
 * row to the next by `height * 3` bytes; the buffer itself holds
 * `width * height * 3` bytes.
 */
module Images {
  import opened Outcomes
  import opened Qif

  /** The largest C++ `int`: buffer sizes are computed in `int`. */
  const INT_MAX := 0x7fff_ffff

  /** `Image::mempos` as written: row y starts at byte y * height * 3. */
  function MemPos(height: int, x: int, y: int, channel: int): int {
    y * height * 3 + x * 3 + channel
  }

  class Image {
    var mem: array<Byte>
    var width: Int32
    var height: Int32

    /** The buffer has the size the constructor allocated, and that size fits in an `int`. */
    ghost predicate Valid()
      reads this
    {
      && 0 <= width && 0 <= height
      && width * height * 3 <= INT_MAX
      && mem.Length == width * height * 3
    }

    /** `Image(width, height)`: a fresh buffer of width * height * 3 bytes, contents unspecified. */
    constructor (width: Int32, height: Int32)
      requires 0 <= width && 0 <= height && width * height * 3 <= INT_MAX
      ensures Valid()
      ensures this.width == width && this.height == height
      ensures fresh(mem)
    {
      BufferSizeNonNegative(width, height);
      var buffer := new Byte[width * height * 3];
      this.width := width;
      this.height := height;
      mem := buffer;
    }

    /** Whether `mempos(x, y, channel)` addresses a byte of the buffer. */
    predicate Addressable(x: int, y: int, channel: int)
      reads this
    {
      0 <= MemPos(height, x, y, channel) < mem.Length
    }

    /** `get`: the byte at `mempos(x, y, channel)`. */
    function Get(x: int, y: int, channel: int): Byte
      reads this, mem
      requires Addressable(x, y, channel)
    {
      mem[MemPos(height, x, y, channel)]
    }

    /**
     * `set`: the byte at `mempos(x, y, channel)` becomes `value`; every
     * other byte, and the size, stay as they were.
     */
    method Set(x: int, y: int, channel: int, value: Byte)
      requires Valid() && Addressable(x, y, channel)
      modifies mem
      ensures Valid()
      ensures mem[..] == old(mem[..])[MemPos(height, x, y, channel) := value]
      ensures Get(x, y, channel) == value
    {
      mem[MemPos(height, x, y, channel)] := value;
    }

    /** `clear`: every byte of the buffer becomes zero. */
    method Clear()
      requires Valid()
      modifies mem
      ensures Valid()
      ensures forall k :: 0 <= k < mem.Length ==> mem[k] == 0
    {
      forall k | 0 <= k < mem.Length {
        mem[k] := 0;
      }
    }

    /**
     * `write`: the bytes sent to the file, in the machine's byte order
     * (`bigEndian`). The converter, reading them with that byte order, gets
     * back the size of the image and finds byte k of the buffer's pixel
     * (x, y) in channel 2 - k.
     */
    method Write(bigEndian: bool) returns (bytes: seq<Byte>)
      requires Valid()
      ensures bytes == Encode(width, height, mem[..], bigEndian)
      ensures var r := Decode(bytes, bigEndian);
        && r.Ok? && r.value.width == width && r.value.height == height
        && forall y, x, ch :: 0 <= y < height && 0 <= x < width && 0 <= ch < 3 ==>
             r.value.pixels[y][x][ch] == BufferByte(mem[..], width, height, x, y, 2 - ch)
    {
      bytes := Int32Bytes(width, bigEndian);
      bytes := bytes + Int32Bytes(height, bigEndian);
      bytes := bytes + mem[..];
      RoundTrip(width, height, mem[..], bigEndian);
    }
  }

  lemma BufferSizeNonNegative(width: nat, height: nat)
    ensures width * height * 3 >= 0
  {
    assert width * height >= 0;
  }

  /**
   * Every byte that `mempos` computes for a pixel of a width by height image
   * lies inside the buffer exactly when the image has no columns, at most
   * one row, or no more rows than columns.
   */
  lemma MemPosInBounds(width: nat, height: nat)
    ensures (forall x, y, c :: 0 <= x < width && 0 <= y < height && 0 <= c < 3 ==>
               0 <= MemPos(height, x, y, c) < width * height * 3)
        <==> (width == 0 || height <= 1 || height <= width)
  {
    if width == 0 || height <= 1 || height <= width {
      forall x, y, c | 0 <= x < width && 0 <= y < height && 0 <= c < 3
        ensures 0 <= MemPos(height, x, y, c) < width * height * 3
      {
        InBoundsWhenFewRows(width, height, x, y, c);
      }
    } else {
      OutOfBoundsWhenManyRows(width, height);
    }
  }

  lemma InBoundsWhenFewRows(width: nat, height: nat, x: nat, y: nat, c: nat)
    requires height <= 1 || height <= width
    requires x < width && y < height && c < 3
    ensures 0 <= MemPos(height, x, y, c) < width * height * 3
  {
    if height <= 1 {
      assert y == 0 && height == 1;
    } else {
      assert y * height <= y * width;
      assert (y + 1) * width <= height * width;
    }
  }

  /** With more rows than columns the last byte of the last pixel falls past the buffer. */
  lemma OutOfBoundsWhenManyRows(width: nat, height: nat)
    requires width > 0 && height > 1 && height > width
    ensures MemPos(height, width - 1, height - 1, 2) >= width * height * 3
  {
    var a, d := height - 1, height - width;
    AtLeastOne(a, d);
    Distribute(a, d, width);
    Distribute(width, a, 1);
    assert a * height == a * d + a * width;
    assert width * height == width * a + width;
    assert a * width == width * a;
  }

  lemma AtLeastOne(a: int, b: int)
    requires a >= 1 && b >= 1
    ensures a * b >= 1
  {
    assert a * b >= a * 1;
  }

  lemma Distribute(a: int, b: int, c: int)
    ensures a * (b + c) == a * b + a * c
  {
  }

  /**
   * `mempos` agrees with the row-major layout the header documents (row y
   * starts at pixel y * width) exactly when the image has no columns, at
   * most one row, or as many rows as columns.
   */
  lemma MemPosRowMajor(width: nat, height: nat)
    ensures (forall x, y, c :: 0 <= x < width && 0 <= y < height && 0 <= c < 3 ==>
               MemPos(height, x, y, c) == (y * width + x) * 3 + c)
        <==> (width == 0 || height <= 1 || width == height)
  {
    if width == 0 || height <= 1 || width == height {
      forall x, y, c | 0 <= x < width && 0 <= y < height && 0 <= c < 3
        ensures MemPos(height, x, y, c) == (y * width + x) * 3 + c
      {
        if height <= 1 {
          assert y == 0;
        }
      }
    } else {
      assert MemPos(height, 0, 1, 0) != (1 * width + 0) * 3 + 0;
    }
  }

  /**
   * With fewer rows than columns, `mempos` gives pixel (height, y) and pixel
   * (0, y + 1) the same bytes: two different pixels of the image write to
   * one place. (For the 1920 by 1080 image of the demo program, pixel
   * (1080, 0) and pixel (0, 1) coincide.)
   */
  lemma MemPosAliases(width: nat, height: nat, y: nat, c: nat)
    requires height < width && y + 1 < height && c < 3
    ensures 0 <= MemPos(height, height, y, c) < width * height * 3
    ensures MemPos(height, height, y, c) == MemPos(height, 0, y + 1, c)
  {
    InBoundsWhenFewRows(width, height, height, y, c);
    assert (y + 1) * height * 3 == y * height * 3 + height * 3;
  }

  /** The channel is the position modulo 3: `mempos` never mixes channels. */
  lemma MemPosChannel(height: int, x: int, y: int, c: int)
    requires 0 <= c < 3
    ensures MemPos(height, x, y, c) % 3 == c
  {
    assert MemPos(height, x, y, c) == 3 * (y * height + x) + c;
  }
}
