# cpp-math: 3D vector and single-axis rotation, modelled in Dafny

This project models the small linear-algebra layer of the `cpp_math`
library. The library works in a right-handed frame: the index finger is +X,
the middle finger is +Y and the thumb is +Z. It offers these operations:

- component-wise vector addition, subtraction and scaling;
- the product of a 3x3 matrix and a vector. The matrix is held in a
  variable-size list of rows, so its shape is checked first, and a failed
  check raises "Matrix must be 3x3";
- conversion from degrees to radians;
- the right-handed rotation matrix about X, Y or Z;
- `rotateVector(v, axis, angle)`, which rotates `v` by `angle` degrees about
  one axis by building that matrix and multiplying.

The model is over exact reals, not IEEE doubles. The library's `sin` and
`cos` are foreign code. Each operation that needs them takes a `Trig` value
holding two functions. Every proof that relies on trigonometry requires
`Axioms(trig)`, which states these identities:

- sin²a + cos²a = 1;
- sin(−a) = −sin a and cos(−a) = cos a;
- sin(a + 2π) = sin a and cos(a + 2π) = cos a;
- sin 0 = 0 and cos 0 = 1;
- sin(π/2) = 1 and cos(π/2) = 0.

`M_PI` is the constant `Pi`, its decimal literal read as an exact real.
`Trig.AxiomsSatisfiable` exhibits functions that meet all the identities, so
no result is proved from inconsistent assumptions.

Modules:

- `Types`: the header's value types. `Vector3d` is a datatype of three reals
  and `Matrix3d` is `seq<seq<real>>`. `Axis` is a closed enumeration, and
  `Result` carries the shape error.
- `Trig`: `Pi`, the `Trig` pair and its axioms.
- `Vectors`: `addVectors`, `subtractVectors` and `multiplyVectorByScalar`.
- `Matrices`: `multiplyMatrixByVector` as written, plus a fully checked
  version (see Findings).
- `Rotations`: `degreesToRadians`, `calculateRotationMatrix`, `rotateVector`,
  and the closed form of a plane turn that the rotation proofs go through.

## Model

| member | source | states |
|---|---|---|
| `Trig.AxiomsSatisfiable` | src/cpp-math/cpp_math.cc:24-40 | the identities assumed of the library's `sin` and `cos` (with π = M_PI) are consistent: a pair of 2π-periodic step functions meets all of them |
| `Vectors.AddVectors` | src/cpp-math/cpp_math.cc:48-51 | the zero vector is a unit on either side, and a sum is zero exactly when the first summand is the second scaled by −1 |
| `Vectors.SubtractVectors` | src/cpp-math/cpp_math.cc:53-56 | the difference v1 − v2 is the vector that, added to v2, gives v1 back |
| `Vectors.AddSubtractRoundTrip` | src/cpp-math/cpp_math.cc:48-56 | subtracting w from v + w gives v, and adding w to v − w gives v |
| `Vectors.AddVectorsAlgebra` | src/cpp-math/cpp_math.cc:48-51 | addition is commutative and associative, and v − v is zero |
| `Vectors.MultiplyVectorByScalar` | src/cpp-math/cpp_math.cc:58-61 | scaling by 1 leaves the vector unchanged; scaling by 0 gives the zero vector |
| `Vectors.ScalingComposes` | src/cpp-math/cpp_math.cc:58-61 | scaling by a then b is scaling by a·b |
| `Vectors.ScalingDistributes` | src/cpp-math/cpp_math.cc:48-61 | scaling distributes over addition |
| `Vectors.NegationCancels` | src/cpp-math/cpp_math.cc:48-61 | v plus (−1)·v is the zero vector |
| `Vectors.ScalingScalesSquaredLength` | src/cpp-math/cpp_math.cc:58-61 | scaling by s multiplies the squared length by s² |
| `Matrices.MultiplyMatrixByVector` | src/cpp-math/cpp_math.cc:63-75 | the product fails with the 3x3 error exactly when the matrix does not have 3 rows or its first row does not have 3 entries |
| `Matrices.ShapeCheckAdmitsShortRow` | src/cpp-math/cpp_math.cc:65-67 | a matrix exists that passes the guard yet has a second row shorter than 3, so it is not 3x3 |
| `Matrices.MultiplyMatrixByVectorChecked` | src/cpp-math/cpp_math.cc:65-67 | with every row checked, the product fails exactly on a matrix that is not 3x3; on a 3x3 matrix it equals the library's product |
| `Matrices.ProductIsCombinationOfColumns` | src/cpp-math/cpp_math.cc:69-74 | the product equals x·column0 + y·column1 + z·column2, the column view of the row-by-row formula |
| `Matrices.ProductIsAdditive` | src/cpp-math/cpp_math.cc:69-74 | M(v + w) = Mv + Mw |
| `Matrices.ProductIsHomogeneous` | src/cpp-math/cpp_math.cc:69-74 | M(s·v) = s·(Mv) |
| `Matrices.IdentityProduct` | src/cpp-math/cpp_math.cc:63-75 | the identity matrix passes the check and returns every vector unchanged |
| `Rotations.DegreesToRadians` | src/cpp-math/cpp_math.cc:46 | the result has the sign of the angle (zero exactly at 0°); 90° is π/2 and 360° is 2π |
| `Rotations.DegreesToRadiansFacts` | src/cpp-math/cpp_math.cc:46 | the conversion is additive and odd |
| `Rotations.CalculateRotationMatrix` | src/cpp-math/cpp_math.cc:19-44 | every axis yields a 3x3 matrix, so "Invalid axis" cannot be raised; the axis's own row and column are those of the identity |
| `Rotations.RotationMatrixIsProperRotation` | src/cpp-math/cpp_math.cc:19-41 | each rotation matrix has orthonormal rows and determinant +1 |
| `Rotations.RotateVector` | src/cpp-math/cpp_math.cc:11-17 | rotating never fails: the matrix it builds always passes the shape check |
| `Rotations.RotateVectorClosedForm` | src/cpp-math/cpp_math.cc:11-41 | the matrix product equals the counter-clockwise turn of the plane normal to the axis, (a, b) to (c·a − s·b, s·a + c·b) |
| `Rotations.RotationKeepsAxisComponent` | src/cpp-math/cpp_math.cc:23-40 | rotating about Z keeps z; about X keeps x; about Y keeps y |
| `Rotations.RotationPreservesLength` | src/cpp-math/cpp_math.cc:19-41 | the rotated vector has the same x² + y² + z² as the input |
| `Rotations.RotationByZeroIsIdentity` | src/cpp-math/cpp_math.cc:11-17 | a rotation by 0° about any axis returns the input unchanged |
| `Rotations.QuarterTurn` | src/cpp-math/cpp_math.cc:11-17 | 90° about Z maps (x,y,z) to (−y,x,z); about X to (x,−z,y); about Y to (z,y,−x) |
| `Rotations.QuarterTurnOfXAboutZ` | tests/src/test-rotations.cc:20-26 | (1,0,0) turned 90° about Z is exactly (0,1,0) |
| `Rotations.RotationByNegatedAngleUndoes` | src/cpp-math/cpp_math.cc:11-17 | rotating by an angle and then by its negation about the same axis returns the input |
| `Rotations.FullTurnRoundTrip` | src/cpp-math/cpp_math.cc:11-17 | rotating by θ and then by 360 − θ about the same axis returns the input |
| `Rotations.RotationIsLinear` | src/cpp-math/cpp_math.cc:11-17 | rotation commutes with vector addition and with scaling |

## Findings

| source | as written | input that shows it | evidently intended | confidence | as-written member | corrected member |
|---|---|---|---|---|---|---|
| src/cpp-math/cpp_math.cc:65-67 | the guard tests `matrix.size()` and `matrix[0].size()` only | `[[1,0,0],[0],[0,0,1]]` passes the guard; line 71 then reads `matrix[1][1]` and `matrix[1][2]` past the end of row 1 | every row has exactly three entries, as the message "Matrix must be 3x3" says | medium, not executed | `Matrices.ShapeCheckAdmitsShortRow` | `Matrices.MultiplyMatrixByVectorChecked` |

`Rotations.RotateVector` uses the corrected product. The two products agree
on every 3x3 matrix, and every matrix `calculateRotationMatrix` builds is
3x3.

## Left out

- Matrices.MultiplyMatrixByVector: it requires rows 1 and 2 to have at
  least three entries whenever the guard passes. The library reads those
  entries unchecked, and a shorter row gives undefined behaviour, which is
  not modelled. The Findings section records the gap.
- Rotations.CalculateRotationMatrix: `Axis` is a closed enumeration, so the
  "Invalid axis" throw is unreachable in the model. A C++ `enum class` can be
  cast from an out-of-range integer and would reach the throw.
- The console print of the rotation matrix inside `rotateVector`
  (src/cpp-math/cpp_math.cc:15) and both `operator<<` formatters
  (src/cpp-math/cpp_math.cc:77-88) are output only.
- IEEE-754 rounding is not modelled; all arithmetic is exact. The test's
  0.0001 tolerance comparison (tests/src/test-rotations.cc:6-14) therefore
  becomes exact equality.
- The bodies of `sin`, `cos` and `M_PI` come from the C library. Only the
  identities listed above are assumed; the angle-addition formulas are not,
  so composing rotations by two arbitrary angles into one is not proved.
- `rotateVector(v, HeliAngles)`, `heliAngleToAxis`,
  `calculatePointByDistanceAndAngles` and `operator<<(HeliAngles)` are
  declared in include/cpp-math/cpp_math.h:66-84 but have no implementation.
  The types only they use (`HeliAngles`, `CameraAngles`, `HeliAngle`) are
  not modelled either.
- conanfile.py is build packaging, not logic.
