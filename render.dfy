/**
 * `render(Scene&, Image&)`: after checking that the image has the scene's
 * size and baking the scene, every pixel builds a segment through the
 * camera along its ray, and channel 0 of the pixel is set to 255 when the
 * segment meets some face of some mesh.
 */
module Renderer {
  import opened Vectors
  import opened Outcomes
  import opened Types
  import opened Baking
  import opened Geometry
  import opened Qif
  import opened Images
  import opened Scenes

  /** `render` throws when the image and the scene differ in size. */
  datatype RenderError = DimensionMismatch

  /** The ray of a pixel: from the camera, direction (tan a, 1, tan c) of its angle limits. */
  function PixelRay(eye: Vec3, lims: AngleLimits, tan: real -> real): Line {
    Line(eye, Vec3(tan(lims.a), 1.0, tan(lims.c)))
  }

  /**
   * The segment tested for a ray: `point + 2*clip_end*dir` to
   * `point - 2*clip_end*dir`. It is centred on the ray's start point and
   * spans 4*clip_end times the direction.
   */
  function Segment(ray: Line, clipEnd: real): (s: (Vec3, Vec3))
    ensures Add(s.0, s.1) == Scale(2.0, ray.point)
    ensures Sub(s.0, s.1) == Scale(4.0 * clipEnd, ray.dir)
  {
    var k := 2.0 * clipEnd;
    var q1, q2 := Add(ray.point, Scale(k, ray.dir)), Sub(ray.point, Scale(k, ray.dir));
    assert Sub(q1, q2) == Scale(2.0, Scale(k, ray.dir));
    ScaleTwice(2.0, k, ray.dir);
    (q1, q2)
  }

  lemma ScaleTwice(a: real, b: real, v: Vec3)
    ensures Scale(a, Scale(b, v)) == Scale(a * b, v)
  {
    assert a * (b * v.x) == (a * b) * v.x;
    assert a * (b * v.y) == (a * b) * v.y;
    assert a * (b * v.z) == (a * b) * v.z;
  }

  /** Some face of mesh m meets the segment q1-q2. */
  predicate MeshHit(m: Mesh, q1: Vec3, q2: Vec3) {
    exists j :: 0 <= j < |m.faces| && Intersects(q1, q2, m.faces[j])
  }

  /** Some face of some mesh meets the segment q1-q2. */
  predicate SceneHit(meshes: seq<Mesh>, q1: Vec3, q2: Vec3) {
    exists i :: 0 <= i < |meshes| && MeshHit(meshes[i], q1, q2)
  }

  /**
   * The mesh and face loops of `render`: they stop at the first face that
   * meets the segment, and the flag they leave says whether any face of
   * any mesh does. The early exits do not change the answer.
   */
  method FindHit(meshes: seq<Mesh>, q1: Vec3, q2: Vec3) returns (inter: bool)
    ensures inter == SceneHit(meshes, q1, q2)
  {
    inter := false;
    var i := 0;
    while i < |meshes|
      invariant 0 <= i <= |meshes|
      invariant !inter
      invariant forall k :: 0 <= k < i ==> !MeshHit(meshes[k], q1, q2)
    {
      var j := 0;
      while j < |meshes[i].faces|
        invariant 0 <= j <= |meshes[i].faces|
        invariant forall l :: 0 <= l < j ==> !Intersects(q1, q2, meshes[i].faces[l])
      {
        if Intersects(q1, q2, meshes[i].faces[j]) {
          inter := true;
          break;
        }
        j := j + 1;
      }
      if inter {
        return;
      }
      i := i + 1;
    }
  }

  /**
   * What the pixel loops read: the baked meshes, the camera position, the
   * far clipping distance, the angle table, the size, and `tanf`.
   */
  datatype View = View(meshes: seq<Mesh>, eye: Vec3, clipEnd: real, limits: seq<AngleLimits>,
                       width: nat, height: nat, tan: real -> real)

  /** The segment of pixel (x, y), from entry y*width + x of the angle table, meets the scene. */
  predicate PixelHit(v: View, x: int, y: int) {
    && 0 <= y * v.width + x < |v.limits|
    && var s := Segment(PixelRay(v.eye, v.limits[y * v.width + x], v.tan), v.clipEnd);
       SceneHit(v.meshes, s.0, s.1)
  }

  /** The segment `render` builds for pixel (x, y) is the one PixelHit tests. */
  lemma SegmentOfPixel(v: View, x: int, y: int, q1: Vec3, q2: Vec3)
    requires 0 <= y * v.width + x < |v.limits|
    requires var ray := PixelRay(v.eye, v.limits[y * v.width + x], v.tan);
      q1 == Add(ray.point, Scale(2.0 * v.clipEnd, ray.dir)) && q2 == Sub(ray.point, Scale(2.0 * v.clipEnd, ray.dir))
    ensures PixelHit(v, x, y) == SceneHit(v.meshes, q1, q2)
  {
  }

  /** Pixel (x, y) is visited before pixel (xx, yy) is, in the loops' row-major order. */
  predicate VisitedBefore(v: View, xx: int, yy: int, x: int, y: int) {
    0 <= xx < v.width && 0 <= yy < v.height && (yy < y || (yy == y && xx < x))
  }

  /** Some pixel visited before (x, y) meets the scene and has byte k as its channel 0. */
  predicate PaintedBefore(v: View, x: int, y: int, k: int) {
    exists xx, yy :: 0 <= xx < v.width && 0 <= yy < v.height && VisitedBefore(v, xx, yy, x, y)
                  && MemPos(v.height, xx, yy, 0) == k && PixelHit(v, xx, yy)
  }

  /** Some pixel of the image meets the scene and has byte k as its channel 0. */
  predicate Painted(v: View, k: int) {
    PaintedBefore(v, 0, v.height, k)
  }

  /** Visiting pixel (x, y) adds it to the pixels visited so far. */
  lemma PaintedStep(v: View, x: nat, y: nat, k: int)
    requires x < v.width && y < v.height
    ensures PaintedBefore(v, x + 1, y, k)
        <==> PaintedBefore(v, x, y, k) || (MemPos(v.height, x, y, 0) == k && PixelHit(v, x, y))
  {
    if PaintedBefore(v, x + 1, y, k) {
      var xx, yy :| 0 <= xx < v.width && 0 <= yy < v.height && VisitedBefore(v, xx, yy, x + 1, y) && MemPos(v.height, xx, yy, 0) == k && PixelHit(v, xx, yy);
      if !(xx == x && yy == y) {
        assert VisitedBefore(v, xx, yy, x, y);
      }
    }
    if MemPos(v.height, x, y, 0) == k && PixelHit(v, x, y) {
      assert VisitedBefore(v, x, y, x + 1, y);
    }
    if PaintedBefore(v, x, y, k) {
      var xx, yy :| 0 <= xx < v.width && 0 <= yy < v.height && VisitedBefore(v, xx, yy, x, y) && MemPos(v.height, xx, yy, 0) == k && PixelHit(v, xx, yy);
      assert VisitedBefore(v, xx, yy, x + 1, y);
    }
  }

  /** The end of a row is the start of the next one. */
  lemma PaintedNextRow(v: View, y: nat, k: int)
    ensures PaintedBefore(v, v.width, y, k) <==> PaintedBefore(v, 0, y + 1, k)
  {
    if PaintedBefore(v, v.width, y, k) {
      var xx, yy :| 0 <= xx < v.width && 0 <= yy < v.height && VisitedBefore(v, xx, yy, v.width, y) && MemPos(v.height, xx, yy, 0) == k && PixelHit(v, xx, yy);
      assert VisitedBefore(v, xx, yy, 0, y + 1);
    }
    if PaintedBefore(v, 0, y + 1, k) {
      var xx, yy :| 0 <= xx < v.width && 0 <= yy < v.height && VisitedBefore(v, xx, yy, 0, y + 1) && MemPos(v.height, xx, yy, 0) == k && PixelHit(v, xx, yy);
      assert VisitedBefore(v, xx, yy, v.width, y);
    }
  }

  /** Every pixel of a width by height image has an entry below width * height. */
  lemma PixelIndexBound(width: nat, height: nat, x: nat, y: nat)
    requires x < width && y < height
    ensures y * width + x < width * height
  {
    assert y * width + x < (y + 1) * width;
    assert (y + 1) * width <= height * width;
  }

  /** Every pixel whose segment meets the scene has its channel-0 byte inside the buffer. */
  predicate HitsInBounds(v: View) {
    forall x, y :: 0 <= x < v.width && 0 <= y < v.height && PixelHit(v, x, y) ==>
      MemPos(v.height, x, y, 0) < v.width * v.height * 3
  }

  /**
   * An image with no columns, at most one row or no more rows than columns
   * keeps every hit inside the buffer, whatever the scene.
   */
  lemma FewRowsHitsInBounds(v: View)
    requires v.width == 0 || v.height <= 1 || v.height <= v.width
    ensures HitsInBounds(v)
  {
    forall x, y | 0 <= x < v.width && 0 <= y < v.height && PixelHit(v, x, y)
      ensures MemPos(v.height, x, y, 0) < v.width * v.height * 3
    {
      InBoundsWhenFewRows(v.width, v.height, x, y, 0);
    }
  }

  /** The buffer as the pixel loops leave it after visiting every pixel before (x, y). */
  ghost predicate PaintedUpTo(v: View, mem: seq<Byte>, old_mem: seq<Byte>, x: int, y: int) {
    && |mem| == |old_mem|
    && forall k :: 0 <= k < |mem| ==> mem[k] == if PaintedBefore(v, x, y, k) then 255 else old_mem[k]
  }

  /** Visiting pixel (x, y) sets its channel-0 byte when its segment meets the scene. */
  lemma PixelPainted(v: View, x: nat, y: nat, mem: seq<Byte>, next: seq<Byte>, old_mem: seq<Byte>)
    requires x < v.width && y < v.height
    requires PaintedUpTo(v, mem, old_mem, x, y)
    requires PixelHit(v, x, y) ==> 0 <= MemPos(v.height, x, y, 0) < |mem|
    requires next == if PixelHit(v, x, y) then mem[MemPos(v.height, x, y, 0) := 255] else mem
    ensures PaintedUpTo(v, next, old_mem, x + 1, y)
  {
    forall k | 0 <= k < |next|
      ensures next[k] == if PaintedBefore(v, x + 1, y, k) then 255 else old_mem[k]
    {
      PaintedStep(v, x, y, k);
    }
  }

  /** After the last pixel of row y the buffer is as it is before the first pixel of row y + 1. */
  lemma RowPainted(v: View, y: nat, mem: seq<Byte>, old_mem: seq<Byte>)
    requires PaintedUpTo(v, mem, old_mem, v.width, y)
    ensures PaintedUpTo(v, mem, old_mem, 0, y + 1)
  {
    forall k | 0 <= k < |mem|
      ensures mem[k] == if PaintedBefore(v, 0, y + 1, k) then 255 else old_mem[k]
    {
      PaintedNextRow(v, y, k);
    }
  }

  /** The `x` loop of row y. */
  method RenderRow(v: View, img: Image, y: nat, ghost old_mem: seq<Byte>)
    requires img.Valid() && img.width == v.width && img.height == v.height
    requires y < v.height && v.width * v.height <= |v.limits|
    requires forall x :: 0 <= x < v.width && PixelHit(v, x, y) ==> MemPos(v.height, x, y, 0) < v.width * v.height * 3
    requires PaintedUpTo(v, img.mem[..], old_mem, 0, y)
    modifies img.mem
    ensures img.Valid()
    ensures PaintedUpTo(v, img.mem[..], old_mem, 0, y + 1)
  {
    var x := 0;
    while x < v.width
      invariant 0 <= x <= v.width
      invariant img.Valid()
      invariant PaintedUpTo(v, img.mem[..], old_mem, x, y)
    {
      RenderPixel(v, img, x, y, old_mem);
      x := x + 1;
    }
    RowPainted(v, y, img.mem[..], old_mem);
  }

  /**
   * The body of the `x` loop for pixel (x, y): its angle limits give the
   * ray and the segment, and channel 0 is set to 255 when the segment
   * meets the scene.
   */
  method RenderPixel(v: View, img: Image, x: nat, y: nat, ghost old_mem: seq<Byte>)
    requires img.Valid() && img.width == v.width && img.height == v.height
    requires x < v.width && y < v.height && v.width * v.height <= |v.limits|
    requires PixelHit(v, x, y) ==> MemPos(v.height, x, y, 0) < v.width * v.height * 3
    requires PaintedUpTo(v, img.mem[..], old_mem, x, y)
    modifies img.mem
    ensures img.Valid()
    ensures PaintedUpTo(v, img.mem[..], old_mem, x + 1, y)
  {
    ghost var before := img.mem[..];
    PixelIndexBound(v.width, v.height, x, y);
    var lims := v.limits[y * v.width + x];
    var ray := PixelRay(v.eye, lims, v.tan);
    var q1 := Add(ray.point, Scale(2.0 * v.clipEnd, ray.dir));
    var q2 := Sub(ray.point, Scale(2.0 * v.clipEnd, ray.dir));
    SegmentOfPixel(v, x, y, q1, q2);
    var inter := FindHit(v.meshes, q1, q2);
    if inter {
      img.Set(x, y, 0, 255);
    }
    PixelPainted(v, x, y, before, img.mem[..], old_mem);
  }

  /**
   * `render`: with a size mismatch it fails before touching the scene or
   * the image. Otherwise the meshes are baked, and afterwards byte k of the
   * buffer is 255 when some pixel whose segment meets a baked face has k as
   * its channel-0 position; every other byte keeps its value.
   */
  method Render(scene: Scene, img: Image, tan: real -> real) returns (err: Option<RenderError>)
    requires img.Valid()
    requires scene.width == img.width && scene.height == img.height ==>
      && img.width * img.height <= |scene.angleLimits|
      && HitsInBounds(View(BakeAll(scene.meshes), scene.cam.location, scene.clipEnd, scene.angleLimits, img.width, img.height, tan))
    modifies scene`meshes, img.mem
    ensures img.Valid()
    ensures err.Some? <==> scene.width != img.width || scene.height != img.height
    ensures err.Some? ==> scene.meshes == old(scene.meshes) && img.mem[..] == old(img.mem[..])
    ensures err.None? ==> scene.meshes == BakeAll(old(scene.meshes))
    ensures err.None? ==>
      var v := View(scene.meshes, scene.cam.location, scene.clipEnd, scene.angleLimits, img.width, img.height, tan);
      forall k :: 0 <= k < img.mem.Length ==> img.mem[k] == if Painted(v, k) then 255 else old(img.mem[k])
  {
    if img.width != scene.width || img.height != scene.height {
      return Some(DimensionMismatch);
    }
    scene.Preprocess();
    var v := View(scene.meshes, scene.cam.location, scene.clipEnd, scene.angleLimits, img.width, img.height, tan);
    ghost var old_mem := img.mem[..];
    var y := 0;
    while y < v.height
      invariant 0 <= y <= v.height
      invariant img.Valid()
      invariant PaintedUpTo(v, img.mem[..], old_mem, 0, y)
      modifies img.mem
    {
      RenderRow(v, img, y, old_mem);
      y := y + 1;
    }
    return None;
  }

  /** `render` writes only channel 0: a painted byte is the first of its pixel. */
  lemma PaintedChannelZero(v: View, k: int)
    requires Painted(v, k)
    ensures k % 3 == 0
  {
    var xx, yy :| 0 <= xx < v.width && 0 <= yy < v.height && VisitedBefore(v, xx, yy, 0, v.height) && MemPos(v.height, xx, yy, 0) == k && PixelHit(v, xx, yy);
    MemPosChannel(v.height, xx, yy, 0);
  }

  /**
   * For a square image the pixels own distinct bytes, so after `render`
   * channel 0 of pixel (x, y) is painted exactly when its own segment
   * meets the scene.
   */
  lemma SquarePainted(v: View, x: nat, y: nat)
    requires v.width == v.height && x < v.width && y < v.height
    ensures Painted(v, MemPos(v.height, x, y, 0)) <==> PixelHit(v, x, y)
  {
    if Painted(v, MemPos(v.height, x, y, 0)) {
      var xx, yy :| 0 <= xx < v.width && 0 <= yy < v.height && VisitedBefore(v, xx, yy, 0, v.height) && MemPos(v.height, xx, yy, 0) == MemPos(v.height, x, y, 0) && PixelHit(v, xx, yy);
      RowMajorInjective(v.height, x, y, xx, yy);
    }
    if PixelHit(v, x, y) {
      assert VisitedBefore(v, x, y, 0, v.height);
    }
  }

  lemma RowMajorInjective(n: nat, x: nat, y: nat, xx: nat, yy: nat)
    requires x < n && xx < n
    requires MemPos(n, x, y, 0) == MemPos(n, xx, yy, 0)
    ensures x == xx && y == yy
  {
    if y < yy {
      RowsApart(n, y, yy);
    } else if yy < y {
      RowsApart(n, yy, y);
    }
  }

  /** Row y ends before row yy starts. */
  lemma RowsApart(n: nat, y: nat, yy: nat)
    requires y < yy
    ensures y * n + n <= yy * n
  {
    assert y * n + n == (y + 1) * n;
  }
}
