/** Single-axis rotation: degreesToRadians, calculateRotationMatrix and
    rotateVector(v, axis, angle). Sine and cosine are supplied as a `Trig`
    parameter; the properties that need trigonometric identities require
    `Axioms(trig)`. */
module Rotations {
  import opened Types
  import opened Trig
  import opened Vectors
  import opened Matrices

  /** The conversion keeps the sign of the angle, and maps a quarter turn
      to Pi/2 and a full turn to 2 Pi. */
  function DegreesToRadians(degrees: real): (r: real)
    ensures r > 0.0 <==> degrees > 0.0
    ensures r == 0.0 <==> degrees == 0.0
    ensures degrees == 90.0 ==> r == Pi / 2.0
    ensures degrees == 360.0 ==> r == 2.0 * Pi
  {
    degrees * Pi / 180.0
  }

  /** The conversion is additive and odd. */
  lemma DegreesToRadiansFacts(a: real, b: real)
    ensures DegreesToRadians(a + b) == DegreesToRadians(a) + DegreesToRadians(b)
    ensures DegreesToRadians(-a) == -DegreesToRadians(a)
  {}

  /** The right-handed rotation by `radians` about `axis`. Every axis gives
      a 3x3 matrix, so the "Invalid axis" failure cannot occur, and the row
      and the column of the axis are those of the identity matrix. */
  function CalculateRotationMatrix(axis: Axis, radians: real, trig: Trig): (m: Matrix3d)
    ensures Is3x3(m)
    ensures m[AxisIndex(axis)][AxisIndex(axis)] == 1.0
    ensures forall j :: 0 <= j < 3 && j != AxisIndex(axis) ==>
              m[AxisIndex(axis)][j] == 0.0 && m[j][AxisIndex(axis)] == 0.0
  {
    var c, s := trig.cos(radians), trig.sin(radians);
    match axis
    case Z =>
      [[c,   -s,  0.0],
       [s,    c,  0.0],
       [0.0, 0.0, 1.0]]
    case X =>
      [[1.0, 0.0, 0.0],
       [0.0,  c,   -s],
       [0.0,  s,    c]]
    case Y =>
      [[c,   0.0,   s],
       [0.0, 1.0, 0.0],
       [-s,  0.0,   c]]
  }

  /** Dot product of rows `i` and `j` of a 3x3 matrix. */
  function RowDot(m: Matrix3d, i: nat, j: nat): real
    requires Is3x3(m) && i < 3 && j < 3
  {
    m[i][0] * m[j][0] + m[i][1] * m[j][1] + m[i][2] * m[j][2]
  }

  function Determinant(m: Matrix3d): real
    requires Is3x3(m)
  {
    m[0][0] * (m[1][1] * m[2][2] - m[1][2] * m[2][1])
    - m[0][1] * (m[1][0] * m[2][2] - m[1][2] * m[2][0])
    + m[0][2] * (m[1][0] * m[2][1] - m[1][1] * m[2][0])
  }

  /** Rows of a 3x3 matrix are pairwise orthogonal unit vectors. */
  predicate OrthonormalRows(m: Matrix3d)
    requires Is3x3(m)
  {
    && RowDot(m, 0, 0) == 1.0 && RowDot(m, 1, 1) == 1.0 && RowDot(m, 2, 2) == 1.0
    && RowDot(m, 0, 1) == 0.0 && RowDot(m, 0, 2) == 0.0 && RowDot(m, 1, 2) == 0.0
  }

  /** The matrix is a proper rotation: its rows are orthonormal and its
      determinant is +1. */
  lemma RotationMatrixIsProperRotation(axis: Axis, radians: real, trig: Trig)
    requires Axioms(trig)
    ensures OrthonormalRows(CalculateRotationMatrix(axis, radians, trig))
    ensures Determinant(CalculateRotationMatrix(axis, radians, trig)) == 1.0
  {
    var c, s := trig.cos(radians), trig.sin(radians);
    assert s * s + c * c == 1.0;
    var m := CalculateRotationMatrix(axis, radians, trig);
    match axis
    case Z =>
      assert m == [[c, -s, 0.0], [s, c, 0.0], [0.0, 0.0, 1.0]];
      ProperRotationEntries(c, s);
    case X =>
      assert m == [[1.0, 0.0, 0.0], [0.0, c, -s], [0.0, s, c]];
      ProperRotationEntries(c, s);
    case Y =>
      assert m == [[c, 0.0, s], [0.0, 1.0, 0.0], [-s, 0.0, c]];
      ProperRotationEntries(c, s);
  }

  /** The three matrix shapes, for cosine c and sine s on the unit circle. */
  lemma ProperRotationEntries(c: real, s: real)
    requires s * s + c * c == 1.0
    ensures var z := [[c, -s, 0.0], [s, c, 0.0], [0.0, 0.0, 1.0]];
            OrthonormalRows(z) && Determinant(z) == 1.0
    ensures var x := [[1.0, 0.0, 0.0], [0.0, c, -s], [0.0, s, c]];
            OrthonormalRows(x) && Determinant(x) == 1.0
    ensures var y := [[c, 0.0, s], [0.0, 1.0, 0.0], [-s, 0.0, c]];
            OrthonormalRows(y) && Determinant(y) == 1.0
  {
  }

  /** rotateVector(v, axis, angle) with `angle` in degrees. It never fails:
      the rotation matrix always passes the shape check. */
  function RotateVector(v: Vector3d, axis: Axis, angle: real, trig: Trig): (r: Result<Vector3d>)
    ensures r.Ok?
  {
    var radians := DegreesToRadians(angle);
    var rotation := CalculateRotationMatrix(axis, radians, trig);
    MultiplyMatrixByVectorChecked(rotation, v)
  }

  /** A counter-clockwise turn of the plane point (a, b) by the angle whose
      cosine is c and sine is s. */
  function Turn(a: real, b: real, c: real, s: real): (real, real) {
    (c * a - s * b, s * a + c * b)
  }

  /** Closed form of a right-handed rotation about `axis` whose angle has
      cosine c and sine s: it turns the plane the axis is normal to, taking
      the coordinates in the cyclic order (x, y), (y, z), (z, x). */
  function RotatedInPlane(v: Vector3d, axis: Axis, c: real, s: real): Vector3d {
    match axis
    case Z => var (x, y) := Turn(v.x, v.y, c, s); Vector3d(x, y, v.z)
    case X => var (y, z) := Turn(v.y, v.z, c, s); Vector3d(v.x, y, z)
    case Y => var (z, x) := Turn(v.z, v.x, c, s); Vector3d(x, v.y, z)
  }

  /** The matrix product computed by rotateVector agrees with the closed
      form, for the cosine and sine of the angle in radians. */
  lemma RotateVectorClosedForm(v: Vector3d, axis: Axis, angle: real, trig: Trig)
    ensures var radians := DegreesToRadians(angle);
            RotateVector(v, axis, angle, trig)
              == Ok(RotatedInPlane(v, axis, trig.cos(radians), trig.sin(radians)))
  {
    var radians := DegreesToRadians(angle);
    var c, s := trig.cos(radians), trig.sin(radians);
    var m := CalculateRotationMatrix(axis, radians, trig);
    ProductByRows(m, v);
    assert RotateVector(v, axis, angle, trig)
        == Ok(Vector3d(RowTimes(m[0], v), RowTimes(m[1], v), RowTimes(m[2], v)));
    match axis
    case Z =>
      assert m == [[c, -s, 0.0], [s, c, 0.0], [0.0, 0.0, 1.0]];
      assert RowTimes(m[0], v) == c * v.x - s * v.y;
      assert RowTimes(m[1], v) == s * v.x + c * v.y;
      assert RowTimes(m[2], v) == v.z;
      assert RotatedInPlane(v, Z, c, s) == Vector3d(c * v.x - s * v.y, s * v.x + c * v.y, v.z);
    case X =>
      assert m == [[1.0, 0.0, 0.0], [0.0, c, -s], [0.0, s, c]];
      assert RowTimes(m[0], v) == v.x;
      assert RowTimes(m[1], v) == c * v.y - s * v.z;
      assert RowTimes(m[2], v) == s * v.y + c * v.z;
      assert RotatedInPlane(v, X, c, s) == Vector3d(v.x, c * v.y - s * v.z, s * v.y + c * v.z);
    case Y =>
      assert m == [[c, 0.0, s], [0.0, 1.0, 0.0], [-s, 0.0, c]];
      assert RowTimes(m[0], v) == s * v.z + c * v.x;
      assert RowTimes(m[1], v) == v.y;
      assert RowTimes(m[2], v) == c * v.z - s * v.x;
      assert RotatedInPlane(v, Y, c, s) == Vector3d(s * v.z + c * v.x, v.y, c * v.z - s * v.x);
  }

  /** Rotating about an axis leaves the component along that axis
      unchanged. */
  lemma RotationKeepsAxisComponent(v: Vector3d, axis: Axis, angle: real, trig: Trig)
    ensures Component(RotateVector(v, axis, angle, trig).value, axis) == Component(v, axis)
  {
    RotateVectorClosedForm(v, axis, angle, trig);
  }

  /** A turn keeps the squared distance from the origin when
      s^2 + c^2 = 1. */
  lemma TurnKeepsLength(a: real, b: real, c: real, s: real)
    requires s * s + c * c == 1.0
    ensures var (a', b') := Turn(a, b, c, s); a' * a' + b' * b' == a * a + b * b
  {
    var (a', b') := Turn(a, b, c, s);
    calc {
      a' * a' + b' * b';
      (c * a - s * b) * (c * a - s * b) + (s * a + c * b) * (s * a + c * b);
      (s * s + c * c) * (a * a) + (s * s + c * c) * (b * b);
      a * a + b * b;
    }
  }

  lemma ClosedFormKeepsLength(v: Vector3d, axis: Axis, c: real, s: real)
    requires s * s + c * c == 1.0
    ensures SquaredLength(RotatedInPlane(v, axis, c, s)) == SquaredLength(v)
  {
    match axis
    case Z => TurnKeepsLength(v.x, v.y, c, s);
    case X => TurnKeepsLength(v.y, v.z, c, s);
    case Y => TurnKeepsLength(v.z, v.x, c, s);
  }

  /** Rotation preserves the squared length x^2 + y^2 + z^2. */
  lemma RotationPreservesLength(v: Vector3d, axis: Axis, angle: real, trig: Trig)
    requires Axioms(trig)
    ensures SquaredLength(RotateVector(v, axis, angle, trig).value) == SquaredLength(v)
  {
    TrigAt(DegreesToRadians(angle), trig);
    LengthOnUnitCircle(v, axis, angle, trig);
  }

  /** The same, from the one fact about sine and cosine it needs. */
  lemma LengthOnUnitCircle(v: Vector3d, axis: Axis, angle: real, trig: Trig)
    requires var r := DegreesToRadians(angle);
             trig.sin(r) * trig.sin(r) + trig.cos(r) * trig.cos(r) == 1.0
    ensures SquaredLength(RotateVector(v, axis, angle, trig).value) == SquaredLength(v)
  {
    var r := DegreesToRadians(angle);
    RotateVectorClosedForm(v, axis, angle, trig);
    ClosedFormKeepsLength(v, axis, trig.cos(r), trig.sin(r));
  }

  /** Rotating by zero degrees leaves every vector unchanged. */
  lemma RotationByZeroIsIdentity(v: Vector3d, axis: Axis, trig: Trig)
    requires Axioms(trig)
    ensures RotateVector(v, axis, 0.0, trig) == Ok(v)
  {
    RotateVectorClosedForm(v, axis, 0.0, trig);
  }

  /** A quarter turn (90 degrees) about each axis. */
  lemma QuarterTurn(v: Vector3d, axis: Axis, trig: Trig)
    requires Axioms(trig)
    ensures RotateVector(v, axis, 90.0, trig) == Ok(
              match axis
              case Z => Vector3d(-v.y, v.x, v.z)
              case X => Vector3d(v.x, -v.z, v.y)
              case Y => Vector3d(v.z, v.y, -v.x))
  {
    RotateVectorClosedForm(v, axis, 90.0, trig);
  }

  /** The library's test case: (1, 0, 0) turned 90 degrees about Z is
      (0, 1, 0). */
  lemma QuarterTurnOfXAboutZ(trig: Trig)
    requires Axioms(trig)
    ensures RotateVector(Vector3d(1.0, 0.0, 0.0), Z, 90.0, trig) == Ok(Vector3d(0.0, 1.0, 0.0))
  {
    QuarterTurn(Vector3d(1.0, 0.0, 0.0), Z, trig);
  }

  /** The values of sine and cosine at one angle and at its negation that
      the rotation proofs use. */
  lemma TrigAt(r: real, trig: Trig)
    requires Axioms(trig)
    ensures trig.sin(r) * trig.sin(r) + trig.cos(r) * trig.cos(r) == 1.0
    ensures trig.cos(-r) == trig.cos(r) && trig.sin(-r) == -trig.sin(r)
    ensures trig.cos(-r + 2.0 * Pi) == trig.cos(r) && trig.sin(-r + 2.0 * Pi) == -trig.sin(r)
  {}

  /** Turning by (c, -s) undoes a turn by (c, s) when s^2 + c^2 = 1. */
  lemma TurnInverse(a: real, b: real, c: real, s: real)
    requires s * s + c * c == 1.0
    ensures var (a', b') := Turn(a, b, c, s); Turn(a', b', c, -s) == (a, b)
  {
    var (a', b') := Turn(a, b, c, s);
    calc {
      c * a' - (-s) * b';
      c * (c * a - s * b) + s * (s * a + c * b);
      (s * s + c * c) * a;
      a;
    }
    calc {
      (-s) * a' + c * b';
      (-s) * (c * a - s * b) + c * (s * a + c * b);
      (s * s + c * c) * b;
      b;
    }
  }

  lemma ClosedFormInverse(v: Vector3d, axis: Axis, c: real, s: real)
    requires s * s + c * c == 1.0
    ensures RotatedInPlane(RotatedInPlane(v, axis, c, s), axis, c, -s) == v
  {
    match axis
    case Z => TurnInverse(v.x, v.y, c, s);
    case X => TurnInverse(v.y, v.z, c, s);
    case Y => TurnInverse(v.z, v.x, c, s);
  }

  /** Rotating by an angle and then by its negation about the same axis
      gives the vector back. */
  lemma RotationByNegatedAngleUndoes(v: Vector3d, axis: Axis, angle: real, trig: Trig)
    requires Axioms(trig)
    ensures RotateVector(RotateVector(v, axis, angle, trig).value, axis, -angle, trig) == Ok(v)
  {
    DegreesToRadiansFacts(angle, 0.0);
    TrigAt(DegreesToRadians(angle), trig);
    UndoOnUnitCircle(v, axis, angle, -angle, trig);
  }

  /** Rotating by an angle and then by the rest of a full turn, 360 minus
      the angle, about the same axis gives the vector back. */
  lemma FullTurnRoundTrip(v: Vector3d, axis: Axis, angle: real, trig: Trig)
    requires Axioms(trig)
    ensures RotateVector(RotateVector(v, axis, angle, trig).value, axis, 360.0 - angle, trig) == Ok(v)
  {
    var r := DegreesToRadians(angle);
    assert DegreesToRadians(360.0 - angle) == -r + 2.0 * Pi;
    TrigAt(r, trig);
    UndoOnUnitCircle(v, axis, angle, 360.0 - angle, trig);
  }

  /** A rotation by `angle` is undone by one by `back` whose cosine is the
      same and whose sine is the opposite, given s^2 + c^2 = 1. */
  lemma UndoOnUnitCircle(v: Vector3d, axis: Axis, angle: real, back: real, trig: Trig)
    requires var r, r' := DegreesToRadians(angle), DegreesToRadians(back);
             && trig.sin(r) * trig.sin(r) + trig.cos(r) * trig.cos(r) == 1.0
             && trig.cos(r') == trig.cos(r)
             && trig.sin(r') == -trig.sin(r)
    ensures RotateVector(RotateVector(v, axis, angle, trig).value, axis, back, trig) == Ok(v)
  {
    var r := DegreesToRadians(angle);
    var c, s := trig.cos(r), trig.sin(r);
    var w := RotatedInPlane(v, axis, c, s);
    RotateVectorClosedForm(v, axis, angle, trig);
    RotateVectorClosedForm(w, axis, back, trig);
    ClosedFormInverse(v, axis, c, s);
  }

  /** Rotation is linear: it commutes with vector addition and scaling. */
  lemma RotationIsLinear(v: Vector3d, w: Vector3d, k: real, axis: Axis, angle: real, trig: Trig)
    ensures RotateVector(AddVectors(v, w), axis, angle, trig).value
         == AddVectors(RotateVector(v, axis, angle, trig).value, RotateVector(w, axis, angle, trig).value)
    ensures RotateVector(MultiplyVectorByScalar(v, k), axis, angle, trig).value
         == MultiplyVectorByScalar(RotateVector(v, axis, angle, trig).value, k)
  {
    var m := CalculateRotationMatrix(axis, DegreesToRadians(angle), trig);
    ProductIsAdditive(m, v, w);
    ProductIsHomogeneous(m, v, k);
  }
}
