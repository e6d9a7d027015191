/** The value types of the library: a 3D vector, a 3x3 matrix held in a
    variable-size container, the rotation axes, and the error the matrix
    product reports. Doubles become exact reals. */
module Types {

  /** A vector in a right-handed frame: +X index finger, +Y middle finger,
      +Z thumb. */
  datatype Vector3d = Vector3d(x: real, y: real, z: real)

  /** A matrix is a list of rows of any length, so its shape must be
      checked where it is consumed. */
  type Matrix3d = seq<seq<real>>

  datatype Axis = X | Y | Z

  /** The one failure the library reports: "Matrix must be 3x3". The
      "Invalid axis" failure cannot arise, since `Axis` is a closed
      enumeration matched exhaustively. */
  datatype MathError = MatrixNot3x3

  datatype Result<T> = Ok(value: T) | Err(error: MathError)

  /** The component of `v` along `axis`. */
  function Component(v: Vector3d, axis: Axis): real {
    match axis
    case X => v.x
    case Y => v.y
    case Z => v.z
  }

  /** Row and column index of `axis` in a rotation matrix. */
  function AxisIndex(axis: Axis): (i: nat)
    ensures i < 3
  {
    match axis
    case X => 0
    case Y => 1
    case Z => 2
  }

  function SquaredLength(v: Vector3d): real {
    v.x * v.x + v.y * v.y + v.z * v.z
  }

  /** Every row has exactly three entries and there are three rows. */
  predicate Is3x3(m: Matrix3d) {
    |m| == 3 && |m[0]| == 3 && |m[1]| == 3 && |m[2]| == 3
  }
}
