# Quaternion ray tracer core, in Dafny

This is a model of the core of Quaternion, a small C++ ray tracer, with proofs
about what that core computes. The model covers:

- the scene records (`Tri`, `Mesh`, `Camera`, `Light`, `Scene`) and their
  constructors;
- transform baking (`preprocess`);
- the cube primitive;
- the segment/triangle hit test (`sign`, `signed_volume`, `intersects`);
- the pixel loops of `render`;
- the three-channel `Image` buffer;
- the `.qif` byte format, as `Image::write` emits it and as the
  `imgconv.py` converter reads it back.

Floating-point vectors are modelled over `real`.

Files and modules:

| file | module | what |
|---|---|---|
| outcomes.dfy | `Outcomes` | `Option` and `Result` |
| vectors.dfy | `Vectors` | `Vec3` and its arithmetic |
| types.dfy | `Types` | the value records and their constructors |
| baking.dfy | `Baking` | `get_normal`, `preprocess_point`, `preprocess_mesh` |
| geometry.dfy | `Geometry` | `sign`, `signed_volume`, `intersects` |
| hit_example.dfy | `HitExample` | the crossing example of the test program |
| cube.dfy | `Cube` | `primitive_cube` |
| qif.dfy | `Qif` | the `.qif` encoder and decoder, as functions |
| image.dfy | `Images` | the `Image` class: `mempos`, `get`, `set`, `clear`, `write` |
| imgconv.dfy | `ImgConv` | the converter's reading loop, over a three-dimensional array |
| scene.dfy | `Scenes` | the `Scene` class and `preprocess(Scene&)` |
| render.dfy | `Renderer` | `render` |

How each part is modelled:

- **Value records.** `Tri`, `Mesh` and the others are value structs that are
  copied into vectors, so they are datatypes here. A field that a
  constructor leaves unassigned is `None`.
- **Classes.** `Image` and `Scene` are classes, because `render` and
  `preprocess` update them in place.
- **Loops.** The loops of the source (`preprocess_mesh`, `preprocess`, the
  pixel and mesh/face loops of `render`, the converter's y/x/channel loop)
  are methods with `while` loops. Each is proved against a specification
  function: `BakeMesh`, `BakeAll`, `SceneHit`, `Painted`, `Decode`.

## Model

| member | source | states |
|---|---|---|
| Vectors.CrossOrthogonal | src/preprocess.cpp:28-32 | the cross product of the two edges is orthogonal to each of them |
| Vectors.CrossScale | src/preprocess.cpp:30-32 | scaling both edges by s scales their cross product by s*s |
| Types.ConstructorDefaults | src/api.cpp:26-62 | `Tri()` is at the origin; `Tri(p1,p2,p3)` keeps its vertices and assigns no normal; the copy constructor keeps the vertices and drops the normal; `Mesh()` is empty, white (255,255,255), at location (0,0,0) with scale (1,1,1); `Camera()` is at the origin with fov 1.28 |
| Types.LightConstructors | src/api.cpp:65-75 | `Light()` is the light of power 1; `Light(p)` has power p and no location; `Light(loc)` has location loc and no power |
| Baking.Normal | src/preprocess.cpp:26-33 | the normal `get_normal` stores is orthogonal to both edges p2-p1 and p3-p1 |
| Baking.PreprocessPoint | src/preprocess.cpp:36-44 | each coordinate becomes point(i)*scale(i) + location(i), which is the baked point; the mesh is only read |
| Baking.PreprocessMesh | src/preprocess.cpp:46-56 | the face loop gives exactly the baked mesh: every face moved and renormalised in order, then the transform is reset |
| Baking.BakeMeshFaces | src/preprocess.cpp:46-55 | baking keeps the face count and order; face i has the moved original vertices and the cross-product normal of the moved face; afterwards location is (0,0,0), scale is (1,1,1) and the colour is unchanged |
| Baking.IdentityBakeKeepsVertices | src/preprocess.cpp:38-43 | under scale (1,1,1) and location (0,0,0) every vertex stays where it is |
| Baking.BakeMeshIdempotent | src/preprocess.cpp:46-56 | preprocessing a mesh a second time changes nothing |
| Baking.BakeAllIdempotent | src/preprocess.cpp:61-63 | preprocessing every mesh of a scene twice is the same as doing it once |
| Baking.UniformBake | src/preprocess.cpp:36-52 | with a uniform scale s and a translation l, every vertex v moves to s*v + l and the normal is s*s times the original normal |
| Baking.DefaultTriNormal | src/mesh.cpp:70-77 | the normal of a default `Tri()` is the zero vector |
| Baking.DefaultMeshBakeKeepsVertices | src/mesh.cpp:90-100 | preprocessing faces placed on a default `Mesh()` keeps every vertex and the white colour |
| Baking.CopyMeshBakesAlike | src/mesh.cpp:51-56 | the copy constructor keeps the vertices, colour, location and scale and drops the normals; baking the copy gives the same mesh as baking the original |
| Geometry.Sign | src/render.cpp:28-30 | `sign(n)` is n > 0 |
| Geometry.SignedVolume | src/render.cpp:44-46 | `signed_volume(a, b, c, d)` is 0.166 * ((b - a) x (c - a)) . (d - a) |
| Geometry.Intersects | src/render.cpp:52-60 | the five signs v1 = sign(vol(q1, p1, p2, p3)), v2 = sign(vol(q2, p1, p2, p3)), v3 = sign(vol(q1, q2, p1, p2)), v4 = sign(vol(q1, q2, p2, p3)), v5 = sign(vol(q1, q2, p3, p1)) give a hit when v1 != v2, v3 == v4 and v4 == v5 |
| Geometry.SignSplitsAtZero | src/render.cpp:28-30 | `sign(0)` is false; a value and its negation are never both positive; one of them is positive exactly when the value is non-zero |
| Geometry.SignedVolumeDegenerate | src/render.cpp:44-46 | the signed volume is 0 whenever two of its four points coincide |
| Geometry.SignedVolumeByNormal | src/render.cpp:44-46 | the volume of (q, p1, p2, p3) is -0.166 times q's offset from the triangle's plane, measured along the preprocessed normal |
| Geometry.IntersectsSeparates | src/render.cpp:52-60 | when `intersects` reports a hit, exactly one endpoint lies strictly on the negative side of the stored normal; the other lies in the triangle's plane or on the positive side |
| Geometry.CoplanarNeverIntersects | src/render.cpp:52-60 | a segment with both endpoints in the triangle's plane never intersects it |
| Geometry.IntersectsTranslation | src/render.cpp:52-60 | translating the segment and the triangle by the same offset does not change the answer |
| HitExample.IntersectsExample | tests/main.cpp:64-67 | the segment (0,-10,0)-(0,10,1.9) intersects the triangle (-2,0,-2), (-2,0,2), (2,0,0) |
| Cube.PrimitiveCube | src/api.cpp:87-114 | the cube has exactly 12 faces |
| Cube.BuildPrimitiveCube | src/api.cpp:87-114 | the twelve `push_back`s onto `Mesh()` give exactly the cube mesh |
| Cube.CubeShape | src/api.cpp:88-99 | the cube mesh is white with the identity transform; every coordinate of every vertex is size/2 or -size/2; no face has a normal yet |
| Cube.FaceOnItsSide | src/api.cpp:100-111 | faces 2j and 2j+1 lie in side j of the cube |
| Cube.CubeFacesPerPlane | src/api.cpp:100-111 | for size != 0, face i lies in the plane of side j exactly when j = i/2, so each of the six planes x, y, z = +-size/2 holds exactly two faces |
| Cube.CubeFaceNormal | src/api.cpp:100-111 | the normal of face i is size*size times the axis of its side, with sign Orientation(i); the two faces of a side point in opposite directions |
| Cube.CubeNonDegenerate | src/api.cpp:100-111 | for size != 0 no face's cross-product normal is the zero vector |
| Cube.CubeBake | src/api.cpp:87-114 | baking a cube of size != 0 keeps its 12 faces' vertices and gives every face a non-zero normal |
| Qif.Int32Bytes | src/image.cpp:57-58 | an `int` is written as 4 bytes |
| Qif.Int32RoundTrip | scripts/imgconv.py:36-39 | reading 4 written bytes back as an unsigned 32-bit integer, in the same byte order, gives the int modulo 2^32; a non-negative int comes back unchanged |
| Qif.Encode | src/image.cpp:54-60 | `write` emits 8 + width*height*3 bytes: width, height, then the buffer |
| Qif.ReadPixels | scripts/imgconv.py:40-46 | the decoded array has height rows of width pixels of 3 channels |
| Qif.ReadPixelsAt | scripts/imgconv.py:42-46 | channel ch of pixel (x, y) is the stream byte at 8 + 3*(y*width + x) + 2 - ch, which lies inside the stream |
| Qif.Decode | scripts/imgconv.py:38-46 | a stream under 8 bytes fails with a short header; a stream that ends before 8 + 3*width*height bytes fails as truncated; otherwise the result has the header's width and height and a well-shaped pixel array |
| Qif.HeaderRoundTrip | scripts/imgconv.py:39 | the header of a written image reads back as its width and height |
| Qif.PixelRoundTrip | scripts/imgconv.py:42-46 | channel ch of pixel (x, y) of a written image reads back as byte 2 - ch of that pixel in a row-major buffer |
| Qif.RoundTrip | scripts/imgconv.py:39-46 | decoding what `write` emits, in the writer's byte order, succeeds with the same width and height, and img[y][x][ch] is byte 2 - ch of pixel (x, y) of the buffer |
| Images.MemPos | src/image.cpp:38-40 | `mempos(x, y, channel)` is y*height*3 + x*3 + channel |
| Images.Image.Get | src/image.cpp:46-48 | `get(x, y, channel)` is the buffer byte at `mempos(x, y, channel)`, defined when that position is inside the buffer |
| Images.Image.constructor | src/image.cpp:32-36 | the constructor stores width and height and allocates a fresh buffer of width*height*3 bytes |
| Images.Image.Set | src/image.cpp:50-52 | `set` changes only the byte at `mempos(x, y, channel)`, and a following `get` there returns the value |
| Images.Image.Clear | src/image.cpp:42-44 | after `clear` every byte of the buffer is 0 |
| Images.Image.Write | src/image.cpp:54-60 | `write` emits exactly the .qif encoding of the image, and the converter, reading with the same byte order, gets back the image's size and its pixel bytes in reversed channel order |
| Images.MemPosInBounds | src/image.cpp:38-40 | every `mempos` of a pixel lies inside the width*height*3 buffer exactly when width = 0, or height <= 1, or height <= width |
| Images.MemPosRowMajor | src/quaternion.hpp:73-79 | `mempos` agrees with the documented layout, in which row y starts at pixel y*width, exactly when width = 0, or height <= 1, or width = height |
| Images.MemPosAliases | src/image.cpp:38-40 | with fewer rows than columns, pixel (height, y) and pixel (0, y+1) share their bytes, which lie inside the buffer |
| Images.MemPosChannel | src/image.cpp:38-40 | `mempos(x, y, c)` modulo 3 is c |
| ImgConv.ReadQif | scripts/imgconv.py:38-46 | the converter fails exactly as `Decode` does; otherwise its array has shape (height, width, 3) and holds `Decode`'s pixels |
| ImgConv.FilledDecodes | scripts/imgconv.py:42-46 | once every cell has been read, the array is `Decode`'s picture |
| ImgConv.ReadRow | scripts/imgconv.py:43-46 | row y is either read completely, 3*width bytes further into the stream, or the stream ends inside it |
| ImgConv.ReadChannels | scripts/imgconv.py:44-46 | channels 2, 1 and 0 of a pixel take the next three bytes, or the stream ends first |
| Scenes.Scene.constructor | src/api.cpp:78-84 | `Scene()` has clip_start 0.01, clip_end 1000, background (60,60,60), size 1920 by 1080, no meshes or lights, and the default camera |
| Scenes.Scene.Preprocess | src/preprocess.cpp:61-65 | every mesh is baked in order; the camera and the angle table are untouched, because `preprocess_cam` is empty |
| Renderer.PixelRay | src/render.cpp:75-76 | the ray of a pixel starts at the camera location and has direction (tan a, 1, tan c) for the pixel's angle limits a and c |
| Renderer.Segment | src/render.cpp:79-80 | the segment tested for a ray is centred on the ray's start and spans 4*clip_end times its direction |
| Renderer.SegmentOfPixel | src/render.cpp:75-80 | the segment `render` builds from angle-table entry y*width + x is the one whose hit `PixelHit` records |
| Renderer.FindHit | src/render.cpp:84-97 | the mesh and face loops, with their early `break`s, leave `inter` true exactly when some face of some mesh intersects the segment |
| Renderer.PaintedStep | src/render.cpp:73-74 | visiting pixel (x, y) adds exactly that pixel to the set of pixels visited so far |
| Renderer.RenderPixel | src/render.cpp:75-100 | the body of the x loop sets the channel-0 byte of pixel (x, y) to 255 when its segment hits the scene, and changes nothing else |
| Renderer.RenderRow | src/render.cpp:74-101 | after row y every byte is 255 if a pixel visited so far hit the scene at that byte, and otherwise keeps its old value |
| Renderer.FewRowsHitsInBounds | src/image.cpp:38-40 | when the image has no columns, at most one row, or no more rows than columns, every hit pixel's channel-0 byte lies inside the buffer, whatever the scene |
| Renderer.Render | src/render.cpp:63-103 | a size mismatch fails before any mesh or byte changes; otherwise the meshes are baked and byte k is 255 when a hit pixel has k as its channel-0 position, and keeps its old value otherwise |
| Renderer.PaintedChannelZero | src/render.cpp:99-100 | `render` writes only channel 0 of a pixel |
| Renderer.SquarePainted | src/render.cpp:99-100 | for a square image, channel 0 of pixel (x, y) is painted exactly when that pixel's own segment hits the scene |

## Left out

- Floating-point rounding: `float` and `double` are `real`, and `0.166` is the exact real 166/1000.
- `tanf` in `render` is a parameter, `tan: real -> real`, of `Render`.
- The `printf` trace in `render`, and the `std::cerr` message before the throw.
- The throw in `render` is modelled as an error result, `Some(DimensionMismatch)`.
- File I/O is left out: `Image::write` is modelled by the bytes it emits, and the converter by the bytes it reads. `argparse` and `cv2.imwrite` in imgconv.py are not modelled.
- `new`/`delete[]` of the image buffer and the destructor: Dafny allocates and collects the array.
- src/utils.cpp (`Random::uniform` with `rand()`, `hypot`, `_4F`, `Line`) is not part of this model. `_4F` and `Line` appear only as the `AngleLimits` and `Line` datatypes.
- src/main.cpp and tests/main.cpp are not part of this model, except for the commented intersects example of tests/main.cpp.
- The angle table is used as given. Nothing in the source fills `_angle_limits`, because `preprocess_cam` is empty.
- `preprocess_cam` has an empty body, so it is not a member; `Scenes.Scene.Preprocess` states that the camera is unchanged.
- `render` takes no settings argument and has no multi-sampling, no brightness that depends on distance and no far-clip test. It writes the constant 255 to channel 0, and the model does the same.
- The segment runs from `point + 2*clip_end*dir` to `point - 2*clip_end*dir`, so it is centred on the camera; `Renderer.Segment` states this.
- Renderer.Render: it requires the angle table to hold at least width*height entries, because the loop reads entry y*width + x for every pixel; it also requires every hit pixel's channel-0 byte to lie inside the buffer (`HitsInBounds`), because `set` on a byte past the buffer is undefined behaviour in the source. `Renderer.RenderRow` and `Renderer.RenderPixel` require the same of their row and their pixel.
- Renderer.RenderRow: it requires the whole angle table (width*height entries), not only the entries of its row, so that it can share `Render`'s loop invariant.
- Renderer.RenderPixel: it also requires the whole angle table, for the same reason, although it reads only entry y*width + x.
- Byte output: `Image::write` opens its file with `std::ofstream fp(path)`, in text mode. The model assumes no newline translation; on a platform that turns each 0x0A byte into two bytes, the file is not the `Qif.Encode` bytes.
- `mempos` is modelled as written (row stride height*3). The header states a row stride of width*3. `Images.MemPosRowMajor` and `Images.MemPosAliases` state where the two differ.
- Images.Image.Get: it is a function, so it cannot change the buffer or the size, and no separate contract states that it does not.
- 32-bit `int` overflow: the image's size and buffer length are modelled as satisfying the `Image` invariant (width*height*3 fits in an `int`); arithmetic overflow past that bound is not modelled.
- The `sign(int)` overload (src/render.cpp:32-34) has no caller in the core and is not modelled separately.
- `Scene()` in src/mesh.cpp:65-67 sets only the background, and `Mesh`, `Tri` and `Camera` constructors there repeat those of src/api.cpp. The model has one set of constructors, taken from src/api.cpp.
- `Image::clear` is defined in src/image.cpp but not declared in the header; it is modelled as a method of the class.
- The scale invariance of `intersects` (scaling every point by the same positive factor keeps the answer) is not proved.
- Channel order in the header (0 is R, 1 is G, 2 is B) is only a naming convention of `get`/`set`; the converter reverses the order into BGR, as `Qif.RoundTrip` states.
