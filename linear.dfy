/**
 * The vector, quaternion and matrix values the model passes around. Their
 * arithmetic (products, interpolation, composition) is not modelled: the
 * operations that need it take it as a function parameter.
 */
module Linear {
  datatype Vec3 = Vec3(x: real, y: real, z: real)

  datatype Quat = Quat(x: real, y: real, z: real, w: real)

  /** A 4x4 matrix, its sixteen entries in column-major order. */
  datatype Mat4 = Mat4(entries: seq<real>)
}
