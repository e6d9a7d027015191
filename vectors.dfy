/** Component-wise vector arithmetic: addVectors, subtractVectors and
    multiplyVectorByScalar. */
module Vectors {
  import opened Types

  const Zero := Vector3d(0.0, 0.0, 0.0)

  /** The zero vector is a unit on either side, and a sum is zero exactly
      when one summand is the other scaled by -1. */
  function AddVectors(v1: Vector3d, v2: Vector3d): (r: Vector3d)
    ensures v2 == Zero ==> r == v1
    ensures v1 == Zero ==> r == v2
    ensures r == Zero <==> v1 == MultiplyVectorByScalar(v2, -1.0)
  {
    Vector3d(v1.x + v2.x, v1.y + v2.y, v1.z + v2.z)
  }

  /** The difference is the vector that, added back to `v2`, gives `v1`. */
  function SubtractVectors(v1: Vector3d, v2: Vector3d): (r: Vector3d)
    ensures AddVectors(r, v2) == v1
  {
    Vector3d(v1.x - v2.x, v1.y - v2.y, v1.z - v2.z)
  }

  /** Scaling by one is the identity and scaling by zero gives the zero
      vector. */
  function MultiplyVectorByScalar(v: Vector3d, scalar: real): (r: Vector3d)
    ensures scalar == 1.0 ==> r == v
    ensures scalar == 0.0 ==> r == Zero
  {
    Vector3d(v.x * scalar, v.y * scalar, v.z * scalar)
  }

  /** Scaling multiplies the squared length by the square of the scalar. */
  lemma ScalingScalesSquaredLength(v: Vector3d, s: real)
    ensures SquaredLength(MultiplyVectorByScalar(v, s)) == s * s * SquaredLength(v)
  {
    var r := MultiplyVectorByScalar(v, s);
    calc {
      SquaredLength(r);
      (v.x * s) * (v.x * s) + (v.y * s) * (v.y * s) + (v.z * s) * (v.z * s);
      s * s * (v.x * v.x + v.y * v.y + v.z * v.z);
    }
  }

  /** Subtracting what was added gives the vector back, and the other way
      round. */
  lemma AddSubtractRoundTrip(v: Vector3d, w: Vector3d)
    ensures SubtractVectors(AddVectors(v, w), w) == v
    ensures AddVectors(SubtractVectors(v, w), w) == v
  {}

  /** Addition is commutative and associative; subtracting a vector from
      itself gives zero. */
  lemma AddVectorsAlgebra(u: Vector3d, v: Vector3d, w: Vector3d)
    ensures AddVectors(u, v) == AddVectors(v, u)
    ensures AddVectors(AddVectors(u, v), w) == AddVectors(u, AddVectors(v, w))
    ensures SubtractVectors(u, u) == Zero
  {}

  /** Scaling by a and then by b is scaling by a * b. */
  lemma ScalingComposes(v: Vector3d, a: real, b: real)
    ensures MultiplyVectorByScalar(MultiplyVectorByScalar(v, a), b) == MultiplyVectorByScalar(v, a * b)
  {
    assert MultiplyVectorByScalar(MultiplyVectorByScalar(v, a), b)
        == Vector3d(v.x * a * b, v.y * a * b, v.z * a * b);
  }

  /** Scaling distributes over addition. */
  lemma ScalingDistributes(v: Vector3d, w: Vector3d, a: real)
    ensures MultiplyVectorByScalar(AddVectors(v, w), a)
         == AddVectors(MultiplyVectorByScalar(v, a), MultiplyVectorByScalar(w, a))
  {
    assert MultiplyVectorByScalar(AddVectors(v, w), a)
        == Vector3d((v.x + w.x) * a, (v.y + w.y) * a, (v.z + w.z) * a);
  }

  /** Adding a vector scaled by -1 cancels it. */
  lemma NegationCancels(v: Vector3d)
    ensures AddVectors(v, MultiplyVectorByScalar(v, -1.0)) == Zero
  {
    assert MultiplyVectorByScalar(v, -1.0) == Vector3d(-v.x, -v.y, -v.z);
  }
}
