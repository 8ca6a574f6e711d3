/**
 * Coordinate frames, kept symbolic.
 *
 * The plugin multiplies and inverts 4x4 floating-point matrices that come
 * from the tracking runtime and from the game camera.  None of the
 * properties proved here depend on matrix numerics, so a matrix is a term:
 * a value handed over by the runtime or the game, or a product, inverse or
 * orientation part of other matrices.  Two matrices are equal only when
 * they are built the same way, which is exactly what the proofs need
 * ("the view matrix is the inverse of that eye's world matrix").
 */
module Transforms {

  datatype Matrix =
    | Sampled(id: nat)                 // a value produced outside the model
    | Zero                             // default(MatrixD)
    | Mul(left: Matrix, right: Matrix) // left * right
    | Invert(m: Matrix)
    | Orientation(m: Matrix)           // rotation part only (GetOrientation)

  /** VRage's MatrixAndInvert: a matrix stored together with its inverse. */
  datatype MatrixAndInvert = MatrixAndInvert(matrix: Matrix, inverted: Matrix)

  /** `new MatrixAndInvert(m)`: the inverse is computed once, on construction. */
  function WithInverse(m: Matrix): MatrixAndInvert
  {
    MatrixAndInvert(m, Invert(m))
  }

  /** default(MatrixAndInvert): both matrices are default(MatrixD). */
  const DefaultAndInvert: MatrixAndInvert := MatrixAndInvert(Zero, Zero)

  datatype Vector2 = Vector2(x: real, y: real)
  datatype Vector3 = Vector3(x: real, y: real, z: real)

  const Zero2: Vector2 := Vector2(0.0, 0.0)
  const Zero3: Vector3 := Vector3(0.0, 0.0, 0.0)
}
