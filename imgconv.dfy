/**
 * The converter script's reading loop: it unpacks the header, allocates a
 * height by width by 3 array, and then reads one byte at a time, for each
 * row, for each pixel, into channels 2, 1 and 0.
 */
module ImgConv {
  import opened Outcomes
  import opened Qif

  /** Cell (yy, xx, c) is read before cell (y, x, ch): rows, then pixels, then channels 2 down to 0. */
  predicate ReadBefore(yy: int, xx: int, c: int, y: int, x: int, ch: int) {
    yy < y || (yy == y && (xx < x || (xx == x && c > ch)))
  }

  /** Every cell read before (y, x, ch) holds its byte of the stream. */
  ghost predicate Filled(img: array3<Byte>, data: seq<Byte>, y: int, x: int, ch: int)
    reads img
  {
    forall yy, xx, c :: 0 <= yy < img.Length0 && 0 <= xx < img.Length1 && 0 <= c < img.Length2 && ReadBefore(yy, xx, c, y, x, ch) ==>
      0 <= PixelByte(img.Length1, xx, yy, c) < |data| && img[yy, xx, c] == data[PixelByte(img.Length1, xx, yy, c)]
  }

  /**
   * The converter's reading of a .qif stream: a stream without a full
   * header, or one that ends inside the pixels, fails as `Decode` does;
   * otherwise the array has the header's dimensions and holds `Decode`'s
   * pixels.
   */
  method ReadQif(data: seq<Byte>, bigEndian: bool) returns (r: Result<array3<Byte>, DecodeError>)
    ensures r.Err? ==> Decode(data, bigEndian) == Err(r.error)
    ensures r.Ok? ==> Decode(data, bigEndian).Ok? && var p := Decode(data, bigEndian).value;
      && r.value.Length0 == p.height && r.value.Length1 == p.width && r.value.Length2 == 3
      && forall y, x, ch :: 0 <= y < p.height && 0 <= x < p.width && 0 <= ch < 3 ==>
           r.value[y, x, ch] == p.pixels[y][x][ch]
  {
    if |data| < 8 {
      return Err(ShortHeader);
    }
    var width, height := UInt32(data[0..4], bigEndian), UInt32(data[4..8], bigEndian);
    var img := new Byte[height, width, 3];
    var pos := 8;
    var y := 0;
    while y < height
      invariant 0 <= y <= height
      invariant pos == 8 + 3 * (y * width) <= |data|
      invariant Filled(img, data, y, 0, 2)
    {
      var ok;
      pos, ok := ReadRow(img, data, y, pos);
      if !ok {
        PixelByteBound(width, height, width - 1, y, 0);
        return Err(Truncated);
      }
      assert (y + 1) * width == y * width + width;
      y := y + 1;
    }
    FilledDecodes(img, data, bigEndian);
    return Ok(img);
  }

  /**
   * Once every cell is filled, the stream holds all the pixels of the
   * header's image and the array is `Decode`'s picture.
   */
  lemma FilledDecodes(img: array3<Byte>, data: seq<Byte>, bigEndian: bool)
    requires |data| >= 8 && img.Length2 == 3
    requires img.Length0 == Height(data, bigEndian) && img.Length1 == Width(data, bigEndian)
    requires 8 + 3 * (img.Length0 * img.Length1) <= |data|
    requires Filled(img, data, img.Length0, 0, 2)
    ensures Decode(data, bigEndian).Ok? && var p := Decode(data, bigEndian).value;
      && img.Length0 == p.height && img.Length1 == p.width
      && forall y, x, ch :: 0 <= y < p.height && 0 <= x < p.width && 0 <= ch < 3 ==>
           img[y, x, ch] == p.pixels[y][x][ch]
  {
    var width, height := img.Length1, img.Length0;
    assert height * width == width * height;
    forall yy, xx, c | 0 <= yy < height && 0 <= xx < width && 0 <= c < 3
      ensures img[yy, xx, c] == ReadPixels(data, width, height)[yy][xx][c]
    {
      ReadPixelsAt(data, width, height, xx, yy, c);
    }
  }

  /**
   * The `x` loop for row y, starting at stream offset `pos`: either the
   * whole row is read and `next` is the offset after it, or the stream ends
   * inside the row.
   */
  method ReadRow(img: array3<Byte>, data: seq<Byte>, y: nat, pos: nat) returns (next: nat, ok: bool)
    requires y < img.Length0 && img.Length2 == 3
    requires pos == 8 + 3 * (y * img.Length1) <= |data|
    requires Filled(img, data, y, 0, 2)
    modifies img
    ensures ok ==> next == pos + 3 * img.Length1 <= |data| && Filled(img, data, y + 1, 0, 2)
    ensures !ok ==> 0 < img.Length1 && |data| < pos + 3 * img.Length1
  {
    var width := img.Length1;
    next := pos;
    var x := 0;
    while x < width
      invariant 0 <= x <= width
      invariant next == 8 + 3 * (y * width + x) <= |data|
      invariant Filled(img, data, y, x, 2)
    {
      next, ok := ReadChannels(img, data, y, x, next);
      if !ok {
        return;
      }
      x := x + 1;
    }
    ok := true;
  }

  /**
   * The `ch` loop for pixel (x, y): channels 2, 1 and 0 take the next three
   * bytes of the stream, unless the stream ends first.
   */
  method ReadChannels(img: array3<Byte>, data: seq<Byte>, y: nat, x: nat, pos: nat) returns (next: nat, ok: bool)
    requires y < img.Length0 && x < img.Length1 && img.Length2 == 3
    requires pos == 8 + 3 * (y * img.Length1 + x) <= |data|
    requires Filled(img, data, y, x, 2)
    modifies img
    ensures ok ==> next == pos + 3 <= |data| && Filled(img, data, y, x + 1, 2)
    ensures !ok ==> |data| < pos + 3
  {
    next := pos;
    var ch := 2;
    while ch >= 0
      invariant -1 <= ch <= 2
      invariant next == pos + 2 - ch <= |data|
      invariant Filled(img, data, y, x, ch)
    {
      if next >= |data| {
        return next, false;
      }
      img[y, x, ch] := data[next];
      next := next + 1;
      ch := ch - 1;
    }
    ok := true;
  }
}
