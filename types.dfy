/**
 * The scene description records of the renderer (Tri, Mesh, Camera, Light,
 * the per-pixel angle record and the Line ray) and their constructors.
 *
 * All of them are value structs in the renderer: they are copied by value
 * into the scene's vectors, so they are datatypes here. A field that a
 * constructor never assigns holds an indeterminate value; it is `None`.
 */
module Types {
  import opened Vectors
  import opened Outcomes

  /** An RGB colour as the renderer writes it, e.g. {255, 255, 255}. */
  datatype Color = Color(r: int, g: int, b: int)

  /** A triangle; `normal` is filled in only by preprocessing. */
  datatype Tri = Tri(p1: Vec3, p2: Vec3, p3: Vec3, normal: Option<Vec3>)

  /** A triangle mesh with its (not yet baked) scale and translation. */
  datatype Mesh = Mesh(faces: seq<Tri>, color: Color, location: Vec3, scale: Vec3)

  datatype Camera = Camera(location: Vec3, fov: real)

  datatype Light = Light(location: Option<Vec3>, power: Option<real>)

  /** Per-pixel angle limits (`_4F`): x start, x end, y start, y end. */
  datatype AngleLimits = AngleLimits(a: real, b: real, c: real, d: real)

  /** A ray: a start point and a direction. */
  datatype Line = Line(point: Vec3, dir: Vec3)

  const White := Color(255, 255, 255)

  /** `Tri()`: all three vertices at the origin, normal not assigned. */
  function NewTri(): Tri {
    Tri(Zero, Zero, Zero, None)
  }

  /** `Tri(p1, p2, p3)`: the normal is not assigned. */
  function TriOf(p1: Vec3, p2: Vec3, p3: Vec3): Tri {
    Tri(p1, p2, p3, None)
  }

  /** `Tri(const Tri&)`: copies the vertices but not the normal. */
  function CopyTri(t: Tri): Tri {
    Tri(t.p1, t.p2, t.p3, None)
  }

  /** `Mesh()`: no faces, white, identity transform. */
  function NewMesh(): Mesh {
    Mesh([], White, Zero, One)
  }

  /**
   * `Mesh(const Mesh&)`: `faces = other.faces` copy-constructs every face
   * through `Tri(const Tri&)`, so the copied faces carry no normal.
   */
  function CopyMesh(m: Mesh): Mesh {
    Mesh(seq(|m.faces|, i requires 0 <= i < |m.faces| => CopyTri(m.faces[i])), m.color, m.location, m.scale)
  }

  /** `Camera()`: at the origin, horizontal field of view 1.28 radians. */
  function NewCamera(): Camera {
    Camera(Zero, 1.28)
  }

  /** `Light()`: power 1, location not assigned. */
  function NewLight(): Light {
    Light(None, Some(1.0))
  }

  /** `Light(double power)`: location not assigned. */
  function LightWithPower(power: real): Light {
    Light(None, Some(power))
  }

  /** `Light(PF3D location)`: power not assigned. */
  function LightAt(location: Vec3): Light {
    Light(Some(location), None)
  }

  /**
   * The defaults of the constructors: `Tri()` sits at the origin, `Tri(p1,
   * p2, p3)` keeps its vertices, the copy constructor keeps the vertices and
   * drops the normal, `Mesh()` is an empty white mesh with the identity
   * transform, and `Camera()` looks out from the origin with fov 1.28.
   */
  lemma ConstructorDefaults(p1: Vec3, p2: Vec3, p3: Vec3, t: Tri)
    ensures NewTri().p1 == Zero && NewTri().p2 == Zero && NewTri().p3 == Zero
    ensures var u := TriOf(p1, p2, p3); u.p1 == p1 && u.p2 == p2 && u.p3 == p3 && u.normal.None?
    ensures CopyTri(t) == TriOf(t.p1, t.p2, t.p3)
    ensures var m := NewMesh(); m.faces == [] && m.color == Color(255, 255, 255) && m.location == Zero && m.scale == One
    ensures NewCamera().location == Zero && NewCamera().fov == 1.28
  {
  }

  /** The default light is the light of power 1; placing a light assigns no power. */
  lemma LightConstructors(p: real, loc: Vec3)
    ensures NewLight() == LightWithPower(1.0)
    ensures LightWithPower(p).power == Some(p) && LightWithPower(p).location.None?
    ensures LightAt(loc).location == Some(loc) && LightAt(loc).power.None?
  {
  }
}
