/** Three-component vectors over the reals: the part of the gl-matrix `vec3`
    operations (subtract, cross, add, divide) that the terrain's normal pass
    uses. Normalisation needs a square root and is supplied by the caller. */
module Geometry {

  datatype Vec3 = Vec3(x: real, y: real, z: real)

  const Zero: Vec3 := Vec3(0.0, 0.0, 0.0)

  function Add(a: Vec3, b: Vec3): Vec3
  {
    Vec3(a.x + b.x, a.y + b.y, a.z + b.z)
  }

  /** a - b, as `vec3.subtract(out, a, b)`. */
  function Sub(a: Vec3, b: Vec3): Vec3
  {
    Vec3(a.x - b.x, a.y - b.y, a.z - b.z)
  }

  /** a × b, as `vec3.cross(out, a, b)`. */
  function Cross(a: Vec3, b: Vec3): Vec3
  {
    Vec3(a.y * b.z - a.z * b.y, a.z * b.x - a.x * b.z, a.x * b.y - a.y * b.x)
  }

  /** Each component divided by c, as the averaging pass does it. */
  function DivBy(a: Vec3, c: real): Vec3
    requires c != 0.0
  {
    Vec3(a.x / c, a.y / c, a.z / c)
  }

  /** The normal of triangle (p1, p2, p3): the cross product of p2 - p1 and
      p3 - p1, passed through the caller's normalisation. */
  function FaceNormal(p1: Vec3, p2: Vec3, p3: Vec3, normalize: Vec3 -> Vec3): Vec3
  {
    normalize(Cross(Sub(p2, p1), Sub(p3, p1)))
  }
}
