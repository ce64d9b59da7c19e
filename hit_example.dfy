/**
 * The crossing example of the renderer's test program, worked through: the
 * segment from (0,-10,0) to (0,10,1.9) against the triangle (-2,0,-2),
 * (-2,0,2), (2,0,0) in the plane y = 0. Each arithmetic step is a lemma of
 * its own, so that no proof obligation holds more than one product of
 * concrete vectors.
 */
module HitExample {
  import opened Vectors
  import opened Types
  import opened Baking
  import opened Geometry

  /** The five points of the example. */
  predicate IsExample(q1: Vec3, q2: Vec3, tri: Tri) {
    && q1 == Vec3(0.0, -10.0, 0.0) && q2 == Vec3(0.0, 10.0, 1.9)
    && tri.p1 == Vec3(-2.0, 0.0, -2.0) && tri.p2 == Vec3(-2.0, 0.0, 2.0) && tri.p3 == Vec3(2.0, 0.0, 0.0)
  }

  /** The example segment crosses the example triangle. */
  lemma IntersectsExample(q1: Vec3, q2: Vec3, tri: Tri)
    requires q1 == Vec3(0.0, -10.0, 0.0) && q2 == Vec3(0.0, 10.0, 1.9)
    requires tri == TriOf(Vec3(-2.0, 0.0, -2.0), Vec3(-2.0, 0.0, 2.0), Vec3(2.0, 0.0, 0.0))
    ensures Intersects(q1, q2, tri)
  {
    assert IsExample(q1, q2, tri);
    FirstEndpointVolume(q1, q2, tri);
    SecondEndpointVolume(q1, q2, tri);
    FirstEdge(q1, q2, tri);
    SecondEdge(q1, q2, tri);
    ThirdEdge(q1, q2, tri);
  }

  lemma TriangleEdges(q1: Vec3, q2: Vec3, tri: Tri)
    requires IsExample(q1, q2, tri)
    ensures Cross(Sub(tri.p2, tri.p1), Sub(tri.p3, tri.p1)) == Vec3(0.0, 16.0, 0.0)
  {
  }

  /** The stored normal of the example triangle points along +y. */
  lemma ExampleNormal(q1: Vec3, q2: Vec3, tri: Tri)
    requires IsExample(q1, q2, tri)
    ensures Normal(tri) == Vec3(0.0, 16.0, 0.0)
  {
    TriangleEdges(q1, q2, tri);
  }

  /** v1: q1 lies below the plane y = 0, against the normal, so its volume is positive ... */
  lemma FirstEndpointVolume(q1: Vec3, q2: Vec3, tri: Tri)
    requires IsExample(q1, q2, tri)
    ensures SignedVolume(q1, tri.p1, tri.p2, tri.p3) == 0.166 * 160.0
  {
    ExampleNormal(q1, q2, tri);
    SignedVolumeByNormal(q1, tri);
  }

  /** ... and v2: q2 lies above it, so its volume is negative. */
  lemma SecondEndpointVolume(q1: Vec3, q2: Vec3, tri: Tri)
    requires IsExample(q1, q2, tri)
    ensures SignedVolume(q2, tri.p1, tri.p2, tri.p3) == -0.166 * 160.0
  {
    ExampleNormal(q1, q2, tri);
    SignedVolumeByNormal(q2, tri);
  }

  /** The volume of (q1, q2, a, b) through the normal n of the plane of q1, q2, a. */
  lemma EdgeVolume(q1: Vec3, q2: Vec3, a: Vec3, b: Vec3, n: Vec3)
    requires n == Cross(Sub(q2, q1), Sub(a, q1))
    ensures SignedVolume(q1, q2, a, b) == 0.166 * Dot(n, Sub(b, q1))
  {
  }

  /** v3: the edge p1 p2. */
  lemma FirstEdge(q1: Vec3, q2: Vec3, tri: Tri)
    requires IsExample(q1, q2, tri)
    ensures SignedVolume(q1, q2, tri.p1, tri.p2) == 0.166 * 160.0
  {
    var n := Vec3(-59.0, -3.8, 40.0);
    FirstEdgeNormal(q1, q2, tri);
    FirstEdgeSide(q1, q2, tri);
    EdgeVolume(q1, q2, tri.p1, tri.p2, n);
  }

  lemma FirstEdgeNormal(q1: Vec3, q2: Vec3, tri: Tri)
    requires IsExample(q1, q2, tri)
    ensures Cross(Sub(q2, q1), Sub(tri.p1, q1)) == Vec3(-59.0, -3.8, 40.0)
  {
  }

  lemma FirstEdgeSide(q1: Vec3, q2: Vec3, tri: Tri)
    requires IsExample(q1, q2, tri)
    ensures Dot(Vec3(-59.0, -3.8, 40.0), Sub(tri.p2, q1)) == 160.0
  {
  }

  /** v4: the edge p2 p3. */
  lemma SecondEdge(q1: Vec3, q2: Vec3, tri: Tri)
    requires IsExample(q1, q2, tri)
    ensures SignedVolume(q1, q2, tri.p2, tri.p3) == 0.166 * 4.0
  {
    var n := Vec3(21.0, -3.8, 40.0);
    SecondEdgeNormal(q1, q2, tri);
    SecondEdgeSide(q1, q2, tri);
    EdgeVolume(q1, q2, tri.p2, tri.p3, n);
  }

  lemma SecondEdgeNormal(q1: Vec3, q2: Vec3, tri: Tri)
    requires IsExample(q1, q2, tri)
    ensures Cross(Sub(q2, q1), Sub(tri.p2, q1)) == Vec3(21.0, -3.8, 40.0)
  {
  }

  lemma SecondEdgeSide(q1: Vec3, q2: Vec3, tri: Tri)
    requires IsExample(q1, q2, tri)
    ensures Dot(Vec3(21.0, -3.8, 40.0), Sub(tri.p3, q1)) == 4.0
  {
  }

  /** v5: the edge p3 p1. */
  lemma ThirdEdge(q1: Vec3, q2: Vec3, tri: Tri)
    requires IsExample(q1, q2, tri)
    ensures SignedVolume(q1, q2, tri.p3, tri.p1) == 0.166 * 156.0
  {
    var n := Vec3(-19.0, 3.8, -40.0);
    ThirdEdgeNormal(q1, q2, tri);
    ThirdEdgeSide(q1, q2, tri);
    EdgeVolume(q1, q2, tri.p3, tri.p1, n);
  }

  lemma ThirdEdgeNormal(q1: Vec3, q2: Vec3, tri: Tri)
    requires IsExample(q1, q2, tri)
    ensures Cross(Sub(q2, q1), Sub(tri.p3, q1)) == Vec3(-19.0, 3.8, -40.0)
  {
  }

  lemma ThirdEdgeSide(q1: Vec3, q2: Vec3, tri: Tri)
    requires IsExample(q1, q2, tri)
    ensures Dot(Vec3(-19.0, 3.8, -40.0), Sub(tri.p1, q1)) == 156.0
  {
  }
}
