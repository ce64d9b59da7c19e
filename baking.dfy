/**
 * Transform baking: every vertex of a mesh is scaled component-wise and then
 * translated, each face's normal is recomputed from its moved vertices, and
 * the mesh's transform is reset to the identity.
 */
module Baking {
  import opened Vectors
  import opened Outcomes
  import opened Types

  /** The normal `get_normal` stores: the cross product of the two edges leaving p1. */
  function Normal(t: Tri): (n: Vec3)
    ensures Dot(n, Sub(t.p2, t.p1)) == 0.0
    ensures Dot(n, Sub(t.p3, t.p1)) == 0.0
  {
    CrossOrthogonal(Sub(t.p2, t.p1), Sub(t.p3, t.p1));
    Cross(Sub(t.p2, t.p1), Sub(t.p3, t.p1))
  }

  /** Where a vertex ends up under scale `s` and translation `l`. */
  function BakePoint(p: Vec3, s: Vec3, l: Vec3): Vec3 {
    Add(Mul(p, s), l)
  }

  /** A face after baking: moved vertices and the normal of the moved face. */
  function BakeTri(t: Tri, s: Vec3, l: Vec3): Tri {
    var moved := Tri(BakePoint(t.p1, s, l), BakePoint(t.p2, s, l), BakePoint(t.p3, s, l), None);
    moved.(normal := Some(Normal(moved)))
  }

  /** A mesh after `preprocess_mesh`. */
  function BakeMesh(m: Mesh): Mesh {
    Mesh(seq(|m.faces|, i requires 0 <= i < |m.faces| => BakeTri(m.faces[i], m.scale, m.location)),
         m.color, Zero, One)
  }

  /** The meshes of a scene after `preprocess(Scene&)`. */
  function BakeAll(ms: seq<Mesh>): (r: seq<Mesh>)
    ensures |r| == |ms|
  {
    seq(|ms|, i requires 0 <= i < |ms| => BakeMesh(ms[i]))
  }

  predicate SameVertices(t: Tri, u: Tri) {
    t.p1 == u.p1 && t.p2 == u.p2 && t.p3 == u.p3
  }

  /** The identity transform: scale (1,1,1), location (0,0,0). */
  predicate IsIdentity(m: Mesh) {
    m.scale == One && m.location == Zero
  }

  /**
   * `preprocess_point`: the point is updated one coordinate at a time, first
   * multiplied by the mesh scale and then shifted by the mesh location.
   */
  method PreprocessPoint(point: Vec3, mesh: Mesh) returns (p: Vec3)
    ensures p.x == point.x * mesh.scale.x + mesh.location.x
    ensures p.y == point.y * mesh.scale.y + mesh.location.y
    ensures p.z == point.z * mesh.scale.z + mesh.location.z
    ensures p == BakePoint(point, mesh.scale, mesh.location)
  {
    p := point;
    p := p.(x := p.x * mesh.scale.x);
    p := p.(y := p.y * mesh.scale.y);
    p := p.(z := p.z * mesh.scale.z);
    p := p.(x := p.x + mesh.location.x);
    p := p.(y := p.y + mesh.location.y);
    p := p.(z := p.z + mesh.location.z);
  }

  /**
   * `preprocess_mesh`: each face in turn gets its three vertices transformed
   * and its normal recomputed; afterwards the transform is reset.
   */
  method PreprocessMesh(mesh: Mesh) returns (baked: Mesh)
    ensures baked == BakeMesh(mesh)
  {
    var faces := mesh.faces;
    var i := 0;
    while i < |faces|
      invariant 0 <= i <= |faces| == |mesh.faces|
      invariant forall k :: 0 <= k < i ==> faces[k] == BakeTri(mesh.faces[k], mesh.scale, mesh.location)
      invariant forall k :: i <= k < |faces| ==> faces[k] == mesh.faces[k]
    {
      var face := faces[i];
      var p1 := PreprocessPoint(face.p1, mesh);
      var p2 := PreprocessPoint(face.p2, mesh);
      var p3 := PreprocessPoint(face.p3, mesh);
      face := face.(p1 := p1, p2 := p2, p3 := p3);
      face := face.(normal := Some(Normal(face)));
      faces := faces[i := face];
      i := i + 1;
    }
    baked := mesh.(faces := faces, location := Zero, scale := One);
  }

  /**
   * Baking keeps the number and order of the faces: face i has the moved
   * original vertices and the normal of the moved face; the transform is
   * reset to the identity and the colour kept.
   */
  lemma BakeMeshFaces(m: Mesh, i: nat)
    requires i < |m.faces|
    ensures |BakeMesh(m).faces| == |m.faces|
    ensures var f, g := m.faces[i], BakeMesh(m).faces[i];
      && g.p1 == BakePoint(f.p1, m.scale, m.location)
      && g.p2 == BakePoint(f.p2, m.scale, m.location)
      && g.p3 == BakePoint(f.p3, m.scale, m.location)
      && g.normal == Some(Cross(Sub(g.p2, g.p1), Sub(g.p3, g.p1)))
    ensures IsIdentity(BakeMesh(m)) && BakeMesh(m).color == m.color
  {
  }

  /** Under the identity transform every vertex stays where it is. */
  lemma {:induction false} IdentityBakeKeepsVertices(m: Mesh)
    requires IsIdentity(m)
    ensures |BakeMesh(m).faces| == |m.faces|
    ensures forall i :: 0 <= i < |m.faces| ==> SameVertices(BakeMesh(m).faces[i], m.faces[i])
  {
    forall i | 0 <= i < |m.faces|
      ensures SameVertices(BakeMesh(m).faces[i], m.faces[i])
    {
      var f := m.faces[i];
      assert BakePoint(f.p1, One, Zero) == f.p1;
      assert BakePoint(f.p2, One, Zero) == f.p2;
      assert BakePoint(f.p3, One, Zero) == f.p3;
    }
  }

  /** Baking a second time changes nothing: the transform is already the identity. */
  lemma {:induction false} BakeMeshIdempotent(m: Mesh)
    ensures BakeMesh(BakeMesh(m)) == BakeMesh(m)
  {
    var b := BakeMesh(m);
    IdentityBakeKeepsVertices(b);
    assert BakeMesh(b).faces == b.faces by {
      forall i | 0 <= i < |b.faces|
        ensures BakeMesh(b).faces[i] == b.faces[i]
      {
        assert SameVertices(BakeMesh(b).faces[i], b.faces[i]);
      }
    }
  }

  /** Baking every mesh twice is baking it once. */
  lemma {:induction false} BakeAllIdempotent(ms: seq<Mesh>)
    ensures BakeAll(BakeAll(ms)) == BakeAll(ms)
  {
    forall i | 0 <= i < |ms|
      ensures BakeAll(BakeAll(ms))[i] == BakeAll(ms)[i]
    {
      BakeMeshIdempotent(ms[i]);
    }
  }

  /**
   * A uniform scale s and a translation l move every vertex v to s*v + l;
   * the translation does not change the normal, which grows by s*s.
   */
  lemma UniformBake(t: Tri, s: real, l: Vec3)
    ensures var b := BakeTri(t, Vec3(s, s, s), l);
      && b.p1 == Add(Scale(s, t.p1), l)
      && b.p2 == Add(Scale(s, t.p2), l)
      && b.p3 == Add(Scale(s, t.p3), l)
      && b.normal == Some(Scale(s * s, Normal(t)))
  {
    var b := BakeTri(t, Vec3(s, s, s), l);
    UniformPoint(t.p1, s, l);
    UniformPoint(t.p2, s, l);
    UniformPoint(t.p3, s, l);
    EdgeOfMoved(t.p2, t.p1, s, l);
    EdgeOfMoved(t.p3, t.p1, s, l);
    CrossScale(s, Sub(t.p2, t.p1), Sub(t.p3, t.p1));
  }

  lemma UniformPoint(p: Vec3, s: real, l: Vec3)
    ensures BakePoint(p, Vec3(s, s, s), l) == Add(Scale(s, p), l)
  {
  }

  lemma EdgeOfMoved(p: Vec3, q: Vec3, s: real, l: Vec3)
    ensures Sub(Add(Scale(s, p), l), Add(Scale(s, q), l)) == Scale(s, Sub(p, q))
  {
    assert s * p.x + l.x - (s * q.x + l.x) == s * (p.x - q.x);
    assert s * p.y + l.y - (s * q.y + l.y) == s * (p.y - q.y);
    assert s * p.z + l.z - (s * q.z + l.z) == s * (p.z - q.z);
  }

  /** The normal of a default `Tri()` is the zero vector. */
  lemma DefaultTriNormal()
    ensures Normal(NewTri()) == Zero
  {
  }

  /**
   * A mesh built from `Mesh()` has the identity transform, so preprocessing
   * leaves every vertex it was given where it was.
   */
  lemma DefaultMeshBakeKeepsVertices(faces: seq<Tri>)
    ensures var m := NewMesh().(faces := faces);
      && |BakeMesh(m).faces| == |faces|
      && (forall i :: 0 <= i < |faces| ==> SameVertices(BakeMesh(m).faces[i], faces[i]))
      && BakeMesh(m).color == White
  {
    IdentityBakeKeepsVertices(NewMesh().(faces := faces));
  }

  /**
   * `Mesh(const Mesh&)` keeps the faces' vertices, the colour and the
   * transform; the normals it drops are recomputed by baking, so baking a
   * copy gives the same mesh as baking the original.
   */
  lemma {:induction false} CopyMeshBakesAlike(m: Mesh)
    ensures var c := CopyMesh(m);
      && |c.faces| == |m.faces|
      && (forall i :: 0 <= i < |m.faces| ==> SameVertices(c.faces[i], m.faces[i]) && c.faces[i].normal.None?)
      && c.color == m.color && c.location == m.location && c.scale == m.scale
      && BakeMesh(c) == BakeMesh(m)
  {
    var c := CopyMesh(m);
    assert BakeMesh(c).faces == BakeMesh(m).faces by {
      forall i | 0 <= i < |m.faces|
        ensures BakeMesh(c).faces[i] == BakeMesh(m).faces[i]
      {
        assert SameVertices(c.faces[i], m.faces[i]);
      }
    }
  }
}
