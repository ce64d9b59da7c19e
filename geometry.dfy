/**
 * The hit test of the renderer: a strict sign predicate, the scaled signed
 * volume of a tetrahedron, and the segment/triangle test built from five
 * such volumes.
 */
module Geometry {
  import opened Vectors
  import opened Outcomes
  import opened Types
  import opened Baking

  /** `sign`: true for positive values; zero and negative values give false. */
  function Sign(n: real): bool {
    n > 0.0
  }

  /**
   * `signed_volume(a, b, c, d) = 0.166 * ((b - a) x (c - a)) . (d - a)`;
   * 0.166 is the renderer's approximation of 1/6.
   */
  function SignedVolume(a: Vec3, b: Vec3, c: Vec3, d: Vec3): real {
    0.166 * Dot(Cross(Sub(b, a), Sub(c, a)), Sub(d, a))
  }

  /** `intersects`: the segment q1-q2 against the triangle p1 p2 p3. */
  function Intersects(q1: Vec3, q2: Vec3, tri: Tri): bool {
    var v1 := Sign(SignedVolume(q1, tri.p1, tri.p2, tri.p3));
    var v2 := Sign(SignedVolume(q2, tri.p1, tri.p2, tri.p3));
    var v3 := Sign(SignedVolume(q1, q2, tri.p1, tri.p2));
    var v4 := Sign(SignedVolume(q1, q2, tri.p2, tri.p3));
    var v5 := Sign(SignedVolume(q1, q2, tri.p3, tri.p1));
    v1 != v2 && v3 == v4 && v4 == v5
  }

  /** Where q lies relative to the plane of `tri`: the sign of this value. */
  function PlaneSide(q: Vec3, tri: Tri): real {
    Dot(Normal(tri), Sub(q, tri.p1))
  }

  /**
   * Sign tells a value from its negation exactly when it is non-zero: zero
   * and negative values both read as false.
   */
  lemma SignSplitsAtZero(n: real)
    ensures !Sign(0.0)
    ensures Sign(n) ==> !Sign(-n)
    ensures (Sign(n) || Sign(-n)) <==> n != 0.0
  {
  }

  /** The volume vanishes when any two of the four points coincide. */
  lemma SignedVolumeDegenerate(a: Vec3, b: Vec3, c: Vec3, d: Vec3)
    requires a == b || a == c || a == d || b == c || b == d || c == d
    ensures SignedVolume(a, b, c, d) == 0.0
  {
    var u, v, w := Sub(b, a), Sub(c, a), Sub(d, a);
    if a == b || a == c || b == c {
      CrossDegenerate(u, v);
      assert Dot(Cross(u, v), w) == 0.0;
    } else if a == d {
      assert Dot(Cross(u, v), w) == 0.0;
    } else {
      CrossOrthogonal(u, v);
      assert Dot(Cross(u, v), w) == 0.0;
    }
  }

  lemma CrossDegenerate(u: Vec3, v: Vec3)
    requires u == Zero || v == Zero || u == v
    ensures Cross(u, v) == Zero
  {
  }

  /**
   * The volume of (q, p1, p2, p3) is -0.166 times the distance-like value of
   * q against the plane of the triangle, measured along the normal that
   * preprocessing stores: the first two sign tests of `intersects` ask on
   * which side of that plane each endpoint lies.
   */
  lemma SignedVolumeByNormal(q: Vec3, tri: Tri)
    ensures SignedVolume(q, tri.p1, tri.p2, tri.p3) == -0.166 * PlaneSide(q, tri)
  {
    var a, b, c := Sub(tri.p1, q), Sub(tri.p2, q), Sub(tri.p3, q);
    var e1, e2, r := Sub(tri.p2, tri.p1), Sub(tri.p3, tri.p1), Sub(q, tri.p1);
    TripleProductShift(a, b, c, e1, e2, r);
  }

  /**
   * With b = a + e1, c = a + e2 and r = -a:  (a x b) . c == -(e1 x e2) . r.
   */
  lemma TripleProductShift(a: Vec3, b: Vec3, c: Vec3, e1: Vec3, e2: Vec3, r: Vec3)
    requires b == Add(a, e1) && c == Add(a, e2) && r == Sub(Zero, a)
    ensures Dot(Cross(a, b), c) == -Dot(Cross(e1, e2), r)
  {
  }

  /**
   * When the test reports a hit, exactly one endpoint lies strictly on the
   * negative side of the stored normal; the other lies in the triangle's
   * plane or on its positive side (a zero volume reads as false, like a
   * negative one).
   */
  lemma IntersectsSeparates(q1: Vec3, q2: Vec3, tri: Tri)
    requires Intersects(q1, q2, tri)
    ensures (PlaneSide(q1, tri) < 0.0) != (PlaneSide(q2, tri) < 0.0)
  {
    SignedVolumeByNormal(q1, tri);
    SignedVolumeByNormal(q2, tri);
  }

  /**
   * A segment whose two endpoints lie in the triangle's plane never
   * intersects it: both of the first two signs are false.
   */
  lemma CoplanarNeverIntersects(q1: Vec3, q2: Vec3, tri: Tri)
    requires PlaneSide(q1, tri) == 0.0 && PlaneSide(q2, tri) == 0.0
    ensures !Intersects(q1, q2, tri)
  {
    SignedVolumeByNormal(q1, tri);
    SignedVolumeByNormal(q2, tri);
  }

  /**
   * The test depends only on the relative position of the segment and the
   * triangle: moving all five points by the same offset keeps the answer.
   */
  lemma IntersectsTranslation(q1: Vec3, q2: Vec3, tri: Tri, t: Vec3)
    ensures Intersects(Add(q1, t), Add(q2, t), tri.(p1 := Add(tri.p1, t), p2 := Add(tri.p2, t), p3 := Add(tri.p3, t)))
         == Intersects(q1, q2, tri)
  {
    forall a, b | true ensures Sub(Add(b, t), Add(a, t)) == Sub(b, a) {
    }
  }
}
