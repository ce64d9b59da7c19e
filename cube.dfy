/**
 * `primitive_cube`: an axis-aligned cube of edge `size` centred on the
 * origin, as twelve triangles, two per side, on a default mesh.
 */
module Cube {
  import opened Vectors
  import opened Outcomes
  import opened Types
  import opened Baking

  datatype Axis = X | Y | Z

  /** The plane where the `axis` coordinate equals `offset`. */
  datatype Plane = Plane(axis: Axis, offset: real)

  function Coord(v: Vec3, axis: Axis): real {
    match axis
    case X => v.x
    case Y => v.y
    case Z => v.z
  }

  predicate OnPlane(t: Tri, pl: Plane) {
    && Coord(t.p1, pl.axis) == pl.offset
    && Coord(t.p2, pl.axis) == pl.offset
    && Coord(t.p3, pl.axis) == pl.offset
  }

  /** Every coordinate of v is h or -h. */
  predicate IsCorner(v: Vec3, h: real) {
    && (v.x == h || v.x == -h)
    && (v.y == h || v.y == -h)
    && (v.z == h || v.z == -h)
  }

  /** The unit vector along `axis`. */
  function AxisVector(axis: Axis): Vec3 {
    match axis
    case X => Vec3(1.0, 0.0, 0.0)
    case Y => Vec3(0.0, 1.0, 0.0)
    case Z => Vec3(0.0, 0.0, 1.0)
  }

  /**
   * The sides of the cube in the order in which `primitive_cube` emits their
   * faces: front z = +h, back z = -h, y = -h, y = +h, x = -h, x = +h.
   */
  function CubePlanes(size: real): (planes: seq<Plane>)
    ensures |planes| == 6
  {
    var h := size / 2.0;
    [Plane(Z, h), Plane(Z, -h), Plane(Y, -h), Plane(Y, h), Plane(X, -h), Plane(X, h)]
  }

  /**
   * `primitive_cube(size)`: the eight corners at (+-size/2, +-size/2,
   * +-size/2) and twelve faces pushed onto a default `Mesh()`.
   */
  function PrimitiveCube(size: real): (m: Mesh)
    ensures |m.faces| == 12
  {
    var h := size / 2.0;
    var v1, v2, v3, v4 := Vec3(-h, -h, h), Vec3(-h, h, h), Vec3(h, h, h), Vec3(h, -h, h);
    var v5, v6, v7, v8 := Vec3(-h, -h, -h), Vec3(-h, h, -h), Vec3(h, h, -h), Vec3(h, -h, -h);
    NewMesh().(faces := [
      TriOf(v1, v2, v4), TriOf(v3, v2, v4),
      TriOf(v5, v6, v8), TriOf(v7, v6, v8),
      TriOf(v1, v4, v5), TriOf(v8, v4, v5),
      TriOf(v2, v3, v6), TriOf(v7, v3, v6),
      TriOf(v1, v2, v5), TriOf(v6, v2, v5),
      TriOf(v4, v3, v7), TriOf(v4, v8, v7)])
  }

  /**
   * `primitive_cube` step by step: the corners, a default mesh, and twelve
   * `push_back`s of its faces.
   */
  method BuildPrimitiveCube(size: real) returns (mesh: Mesh)
    ensures mesh == PrimitiveCube(size)
  {
    var half := size / 2.0;
    var v1, v2, v3, v4 := Vec3(-half, -half, half), Vec3(-half, half, half), Vec3(half, half, half), Vec3(half, -half, half);
    var v5, v6, v7, v8 := Vec3(-half, -half, -half), Vec3(-half, half, -half), Vec3(half, half, -half), Vec3(half, -half, -half);
    mesh := NewMesh();
    mesh := mesh.(faces := mesh.faces + [TriOf(v1, v2, v4)]);
    mesh := mesh.(faces := mesh.faces + [TriOf(v3, v2, v4)]);
    mesh := mesh.(faces := mesh.faces + [TriOf(v5, v6, v8)]);
    mesh := mesh.(faces := mesh.faces + [TriOf(v7, v6, v8)]);
    mesh := mesh.(faces := mesh.faces + [TriOf(v1, v4, v5)]);
    mesh := mesh.(faces := mesh.faces + [TriOf(v8, v4, v5)]);
    mesh := mesh.(faces := mesh.faces + [TriOf(v2, v3, v6)]);
    mesh := mesh.(faces := mesh.faces + [TriOf(v7, v3, v6)]);
    mesh := mesh.(faces := mesh.faces + [TriOf(v1, v2, v5)]);
    mesh := mesh.(faces := mesh.faces + [TriOf(v6, v2, v5)]);
    mesh := mesh.(faces := mesh.faces + [TriOf(v4, v3, v7)]);
    mesh := mesh.(faces := mesh.faces + [TriOf(v4, v8, v7)]);
  }

  /**
   * Whether face i's normal points along (+1) or against (-1) the axis of
   * its side. The cube's faces are not consistently wound: on every side
   * one face's normal points out of the cube and the other's into it.
   */
  function Orientation(i: nat): real
    requires i < 12
  {
    [-1.0, 1.0, -1.0, 1.0, 1.0, -1.0, 1.0, -1.0, -1.0, 1.0, -1.0, 1.0][i]
  }

  /** A proper cube (size != 0) has its faces on distinct planes. */
  predicate FaceOnlyOnSide(size: real, i: nat)
    requires i < 12
  {
    forall j :: 0 <= j < 6 && OnPlane(PrimitiveCube(size).faces[i], CubePlanes(size)[j]) ==> j == i / 2
  }

  /** Faces 2j and 2j+1 lie in side j. */
  lemma FaceOnItsSide(size: real, i: nat)
    requires i < 12
    ensures OnPlane(PrimitiveCube(size).faces[i], CubePlanes(size)[i / 2])
  {
  }

  lemma FrontBackFacesOnlyOnTheirSide(size: real, i: nat)
    requires size != 0.0 && i < 4
    ensures FaceOnlyOnSide(size, i)
  {
    match i
    case 0 => {} case 1 => {} case 2 => {} case 3 => {}
  }

  lemma BottomTopFacesOnlyOnTheirSide(size: real, i: nat)
    requires size != 0.0 && 4 <= i < 8
    ensures FaceOnlyOnSide(size, i)
  {
    match i
    case 4 => {} case 5 => {} case 6 => {} case 7 => {}
  }

  lemma LeftRightFacesOnlyOnTheirSide(size: real, i: nat)
    requires size != 0.0 && 8 <= i < 12
    ensures FaceOnlyOnSide(size, i)
  {
    match i
    case 8 => {} case 9 => {} case 10 => {} case 11 => {}
  }

  /**
   * Faces 2j and 2j+1 lie in side j, and no other face does: each of the
   * six planes x, y, z = +-size/2 holds exactly two faces. (For size 0 all
   * six planes are the same plane, so the cube is required to be proper.)
   */
  lemma CubeFacesPerPlane(size: real, i: nat, j: nat)
    requires size != 0.0 && i < 12 && j < 6
    ensures OnPlane(PrimitiveCube(size).faces[i], CubePlanes(size)[j]) <==> i / 2 == j
  {
    FaceOnItsSide(size, i);
    if i < 4 {
      FrontBackFacesOnlyOnTheirSide(size, i);
    } else if i < 8 {
      BottomTopFacesOnlyOnTheirSide(size, i);
    } else {
      LeftRightFacesOnlyOnTheirSide(size, i);
    }
  }

  /** The normal of face i: size*size along the axis of its side, signed by Orientation(i). */
  predicate NormalAlongSide(size: real, i: nat)
    requires i < 12
  {
    Normal(PrimitiveCube(size).faces[i]) == Scale(Orientation(i) * (size * size), AxisVector(CubePlanes(size)[i / 2].axis))
  }

  lemma FrontBackNormals(size: real, i: nat)
    requires i < 4
    ensures NormalAlongSide(size, i)
  {
    match i
    case 0 => {} case 1 => {} case 2 => {} case 3 => {}
  }

  lemma BottomTopNormals(size: real, i: nat)
    requires 4 <= i < 8
    ensures NormalAlongSide(size, i)
  {
    match i
    case 4 => {} case 5 => {} case 6 => {} case 7 => {}
  }

  lemma LeftRightNormals(size: real, i: nat)
    requires 8 <= i < 12
    ensures NormalAlongSide(size, i)
  {
    match i
    case 8 => {} case 9 => {} case 10 => {} case 11 => {}
  }

  /**
   * The normal that preprocessing computes for face i is perpendicular to
   * the face's side: size*size times the axis of that side, in the
   * direction Orientation(i).
   */
  lemma CubeFaceNormal(size: real, i: nat)
    requires i < 12
    ensures Normal(PrimitiveCube(size).faces[i])
         == Scale(Orientation(i) * (size * size), AxisVector(CubePlanes(size)[i / 2].axis))
  {
    if i < 4 {
      FrontBackNormals(size, i);
    } else if i < 8 {
      BottomTopNormals(size, i);
    } else {
      LeftRightNormals(size, i);
    }
  }

  /** A cube of non-zero size has no degenerate face. */
  lemma CubeNonDegenerate(size: real, i: nat)
    requires size != 0.0 && i < 12
    ensures Normal(PrimitiveCube(size).faces[i]) != Zero
  {
    CubeFaceNormal(size, i);
    ScaledAxisNonZero(Normal(PrimitiveCube(size).faces[i]), Orientation(i), size, size, CubePlanes(size)[i / 2].axis);
  }

  /**
   * k = o * (a * b) is not zero for a unit sign o and a = b non-zero. The
   * factors are passed separately: the solver reasons about a product of two
   * variables more readily than about a square.
   */
  lemma ScaledAxisNonZero(n: Vec3, o: real, a: real, b: real, axis: Axis)
    requires a == b && a != 0.0 && (o == 1.0 || o == -1.0)
    requires n == Scale(o * (a * b), AxisVector(axis))
    ensures n != Zero
  {
    var k := o * (a * b);
    SignedProductNonZero(o, a, b);
    ScaledAxisCoord(k, axis);
    assert Coord(n, axis) == k;
    assert Coord(Zero, axis) == 0.0;
  }

  lemma SignedProductNonZero(o: real, a: real, b: real)
    requires a == b && a != 0.0 && (o == 1.0 || o == -1.0)
    ensures o * (a * b) != 0.0
  {
  }

  /** k times the unit vector along an axis has k as its coordinate on that axis. */
  lemma ScaledAxisCoord(k: real, axis: Axis)
    ensures Coord(Scale(k, AxisVector(axis)), axis) == k
  {
  }

  /**
   * The cube is built on a default mesh: white, identity transform, and
   * every coordinate of every vertex is size/2 or -size/2; no face carries
   * a normal yet.
   */
  lemma CubeShape(size: real)
    ensures var m := PrimitiveCube(size);
      && IsIdentity(m) && m.color == White
      && forall i :: 0 <= i < 12 ==>
        && IsCorner(m.faces[i].p1, size / 2.0)
        && IsCorner(m.faces[i].p2, size / 2.0)
        && IsCorner(m.faces[i].p3, size / 2.0)
        && m.faces[i].normal.None?
  {
  }

  /**
   * Preprocessing a cube leaves its corners where they are and gives every
   * face a non-zero normal.
   */
  lemma {:induction false} CubeBake(size: real)
    requires size != 0.0
    ensures var c, b := PrimitiveCube(size), BakeMesh(PrimitiveCube(size));
      && |b.faces| == 12
      && forall i :: 0 <= i < 12 ==> SameVertices(b.faces[i], c.faces[i]) && b.faces[i].normal.Some? && b.faces[i].normal.value != Zero
  {
    var c := PrimitiveCube(size);
    CubeShape(size);
    IdentityBakeKeepsVertices(c);
    forall i | 0 <= i < 12
      ensures BakeMesh(c).faces[i].normal == Some(Normal(c.faces[i]))
      ensures Normal(c.faces[i]) != Zero
    {
      BakeMeshFaces(c, i);
      assert SameVertices(BakeMesh(c).faces[i], c.faces[i]);
      CubeNonDegenerate(size, i);
    }
  }
}
