/** The vector and quaternion values of ornament.c. Floating point is modelled by
    real numbers; sinf and cosf are not computed but passed in as a Libm record of
    function values, so every statement about meshes holds for any trigonometry. */
module VecMath {

  datatype Vec3 = Vec3(x: real, y: real, z: real)

  /** Quaternion in the source's field order (x, y, z, w). */
  datatype Quat = Quat(x: real, y: real, z: real, w: real)

  /** The source's M_PI constant. */
  const Pi: real := 3.14159265358979323846

  /** The libm functions the geometry builders call (sinf, cosf, sqrtf). */
  datatype Libm = Libm(sin: real -> real, cos: real -> real, sqrt: real -> real)

  /** v3_scale. */
  function Scale(a: Vec3, s: real): Vec3
  {
    Vec3(a.x * s, a.y * s, a.z * s)
  }

  /** v3_len: the square root of the vector's dot product with itself. */
  function Len(m: Libm, a: Vec3): real
  {
    m.sqrt(a.x * a.x + a.y * a.y + a.z * a.z)
  }

  function QIdent(): Quat
  {
    Quat(0.0, 0.0, 0.0, 1.0)
  }

  /** Hamilton product, component for component as q_mul writes it. */
  function QMul(a: Quat, b: Quat): Quat
  {
    Quat(a.w * b.x + a.x * b.w + a.y * b.z - a.z * b.y,
         a.w * b.y - a.x * b.z + a.y * b.w + a.z * b.x,
         a.w * b.z + a.x * b.y - a.y * b.x + a.z * b.w,
         a.w * b.w - a.x * b.x - a.y * b.y - a.z * b.z)
  }
}
