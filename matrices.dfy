/** multiplyMatrixByVector: the 3x3 by 3x1 product, with the shape check
    the library makes before reading the matrix. */
module Matrices {
  import opened Types
  import opened Vectors

  /** The library's guard: it rejects the matrix only when it does not have
      three rows or its FIRST row does not have three entries. */
  predicate ShapeCheckPasses(m: Matrix3d) {
    !(|m| != 3 || |m[0]| != 3)
  }

  /** Row `row` of a matrix times the vector. */
  function RowTimes(row: seq<real>, v: Vector3d): real
    requires |row| >= 3
  {
    row[0] * v.x + row[1] * v.y + row[2] * v.z
  }

  /** Column `j` of a 3x3 matrix, as a vector. */
  function Column(m: Matrix3d, j: nat): Vector3d
    requires Is3x3(m) && j < 3
  {
    Vector3d(m[0][j], m[1][j], m[2][j])
  }

  const Identity: Matrix3d := [[1.0, 0.0, 0.0], [0.0, 1.0, 0.0], [0.0, 0.0, 1.0]]

  /** The product as the library writes it. Rows 1 and 2 are read without
      having been checked, so a caller must supply at least three entries
      in them whenever the guard passes (reading past the end of a row is
      undefined behaviour in the library). */
  function MultiplyMatrixByVector(m: Matrix3d, v: Vector3d): (r: Result<Vector3d>)
    requires ShapeCheckPasses(m) ==> |m[1]| >= 3 && |m[2]| >= 3
    ensures r.Err? <==> !ShapeCheckPasses(m)
    ensures r.Err? ==> r.error == MatrixNot3x3
  {
    if !ShapeCheckPasses(m) then
      Err(MatrixNot3x3)
    else
      Ok(Vector3d(RowTimes(m[0], v), RowTimes(m[1], v), RowTimes(m[2], v)))
  }

  /** The guard lets through a matrix whose second row is too short: the
      product would then read `matrix[1][1]` and `matrix[1][2]` past the end
      of that row. */
  lemma ShapeCheckAdmitsShortRow()
    ensures exists m :: ShapeCheckPasses(m) && !Is3x3(m) && |m[1]| < 3
  {
    var m: Matrix3d := [[1.0, 0.0, 0.0], [0.0], [0.0, 0.0, 1.0]];
    assert ShapeCheckPasses(m) && !Is3x3(m) && |m[1]| < 3;
  }

  /** The product with the check the error message promises: every row is
      checked, so it is total and fails exactly on a matrix that is not
      3x3. On a 3x3 matrix it agrees with the library's product. */
  function MultiplyMatrixByVectorChecked(m: Matrix3d, v: Vector3d): (r: Result<Vector3d>)
    ensures r.Err? <==> !Is3x3(m)
    ensures Is3x3(m) ==> r == MultiplyMatrixByVector(m, v)
  {
    if !Is3x3(m) then Err(MatrixNot3x3) else MultiplyMatrixByVector(m, v)
  }

  /** On a matrix that passes the guard, the product is the vector of row
      products. */
  lemma ProductByRows(m: Matrix3d, v: Vector3d)
    requires Is3x3(m)
    ensures MultiplyMatrixByVector(m, v) == Ok(Vector3d(RowTimes(m[0], v), RowTimes(m[1], v), RowTimes(m[2], v)))
  {}

  /** Column view of the product: Mv is x times column 0 plus y times
      column 1 plus z times column 2. */
  lemma ProductIsCombinationOfColumns(m: Matrix3d, v: Vector3d)
    requires Is3x3(m)
    ensures MultiplyMatrixByVector(m, v)
         == Ok(AddVectors(AddVectors(MultiplyVectorByScalar(Column(m, 0), v.x),
                                     MultiplyVectorByScalar(Column(m, 1), v.y)),
                          MultiplyVectorByScalar(Column(m, 2), v.z)))
  {
    ProductByRows(m, v);
    var c0 := MultiplyVectorByScalar(Column(m, 0), v.x);
    var c1 := MultiplyVectorByScalar(Column(m, 1), v.y);
    var c2 := MultiplyVectorByScalar(Column(m, 2), v.z);
    assert c0 == Vector3d(m[0][0] * v.x, m[1][0] * v.x, m[2][0] * v.x);
    assert c1 == Vector3d(m[0][1] * v.y, m[1][1] * v.y, m[2][1] * v.y);
    assert c2 == Vector3d(m[0][2] * v.z, m[1][2] * v.z, m[2][2] * v.z);
    assert AddVectors(AddVectors(c0, c1), c2)
        == Vector3d(RowTimes(m[0], v), RowTimes(m[1], v), RowTimes(m[2], v));
  }

  /** The product is additive in the vector: M(v + w) = Mv + Mw. */
  lemma ProductIsAdditive(m: Matrix3d, v: Vector3d, w: Vector3d)
    requires Is3x3(m)
    ensures MultiplyMatrixByVector(m, AddVectors(v, w))
         == Ok(AddVectors(MultiplyMatrixByVector(m, v).value, MultiplyMatrixByVector(m, w).value))
  {
    var vw := AddVectors(v, w);
    ProductByRows(m, v);
    ProductByRows(m, w);
    ProductByRows(m, vw);
    RowTimesIsLinear(m[0], v, w, 1.0);
    RowTimesIsLinear(m[1], v, w, 1.0);
    RowTimesIsLinear(m[2], v, w, 1.0);
  }

  /** The product is homogeneous in the vector: M(s v) = s (Mv). */
  lemma ProductIsHomogeneous(m: Matrix3d, v: Vector3d, s: real)
    requires Is3x3(m)
    ensures MultiplyMatrixByVector(m, MultiplyVectorByScalar(v, s))
         == Ok(MultiplyVectorByScalar(MultiplyMatrixByVector(m, v).value, s))
  {
    var sv := MultiplyVectorByScalar(v, s);
    ProductByRows(m, v);
    ProductByRows(m, sv);
    RowTimesIsLinear(m[0], v, v, s);
    RowTimesIsLinear(m[1], v, v, s);
    RowTimesIsLinear(m[2], v, v, s);
    var mv := Vector3d(RowTimes(m[0], v), RowTimes(m[1], v), RowTimes(m[2], v));
    assert MultiplyVectorByScalar(mv, s)
        == Vector3d(RowTimes(m[0], sv), RowTimes(m[1], sv), RowTimes(m[2], sv));
  }

  lemma RowTimesIsLinear(row: seq<real>, v: Vector3d, w: Vector3d, s: real)
    requires |row| >= 3
    ensures RowTimes(row, AddVectors(v, w)) == RowTimes(row, v) + RowTimes(row, w)
    ensures RowTimes(row, MultiplyVectorByScalar(v, s)) == RowTimes(row, v) * s
  {
    calc {
      RowTimes(row, MultiplyVectorByScalar(v, s));
      row[0] * (v.x * s) + row[1] * (v.y * s) + row[2] * (v.z * s);
      (row[0] * v.x + row[1] * v.y + row[2] * v.z) * s;
    }
  }

  /** The identity matrix passes the check and leaves every vector as it
      is. */
  lemma IdentityProduct(v: Vector3d)
    ensures MultiplyMatrixByVector(Identity, v) == Ok(v)
  {}
}
