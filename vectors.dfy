/**
 * Three-component vectors (the renderer's PF3D / Eigen::Vector3f), with
 * floating-point arithmetic taken over the reals.
 */
module Vectors {

  datatype Vec3 = Vec3(x: real, y: real, z: real)

  const Zero := Vec3(0.0, 0.0, 0.0)
  const One := Vec3(1.0, 1.0, 1.0)

  function Add(a: Vec3, b: Vec3): Vec3 {
    Vec3(a.x + b.x, a.y + b.y, a.z + b.z)
  }

  function Sub(a: Vec3, b: Vec3): Vec3 {
    Vec3(a.x - b.x, a.y - b.y, a.z - b.z)
  }

  /** Scalar multiple `k * v`. */
  function Scale(k: real, v: Vec3): Vec3 {
    Vec3(k * v.x, k * v.y, k * v.z)
  }

  /** Component-wise product. */
  function Mul(a: Vec3, b: Vec3): Vec3 {
    Vec3(a.x * b.x, a.y * b.y, a.z * b.z)
  }

  function Dot(a: Vec3, b: Vec3): real {
    a.x * b.x + a.y * b.y + a.z * b.z
  }

  function Cross(a: Vec3, b: Vec3): Vec3 {
    Vec3(a.y * b.z - a.z * b.y, a.z * b.x - a.x * b.z, a.x * b.y - a.y * b.x)
  }

  /** The cross product is orthogonal to both of its factors. */
  lemma CrossOrthogonal(a: Vec3, b: Vec3)
    ensures Dot(Cross(a, b), a) == 0.0
    ensures Dot(Cross(a, b), b) == 0.0
  {
  }

  /** Scaling both factors by s scales the cross product by s*s. */
  lemma CrossScale(s: real, a: Vec3, b: Vec3)
    ensures Cross(Scale(s, a), Scale(s, b)) == Scale(s * s, Cross(a, b))
  {
    var ss := s * s;
    assert (s * a.y) * (s * b.z) - (s * a.z) * (s * b.y) == ss * (a.y * b.z - a.z * b.y) by {
      assert (s * a.y) * (s * b.z) == ss * (a.y * b.z);
      assert (s * a.z) * (s * b.y) == ss * (a.z * b.y);
      assert ss * (a.y * b.z - a.z * b.y) == ss * (a.y * b.z) - ss * (a.z * b.y);
    }
    assert (s * a.z) * (s * b.x) - (s * a.x) * (s * b.z) == ss * (a.z * b.x - a.x * b.z) by {
      assert (s * a.z) * (s * b.x) == ss * (a.z * b.x);
      assert (s * a.x) * (s * b.z) == ss * (a.x * b.z);
      assert ss * (a.z * b.x - a.x * b.z) == ss * (a.z * b.x) - ss * (a.x * b.z);
    }
    assert (s * a.x) * (s * b.y) - (s * a.y) * (s * b.x) == ss * (a.x * b.y - a.y * b.x) by {
      assert (s * a.x) * (s * b.y) == ss * (a.x * b.y);
      assert (s * a.y) * (s * b.x) == ss * (a.y * b.x);
      assert ss * (a.x * b.y - a.y * b.x) == ss * (a.x * b.y) - ss * (a.y * b.x);
    }
  }
}
