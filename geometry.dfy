/** The vector and box primitive, reduced to what the navmesh bookkeeping uses:
    componentwise addition and subtraction of exact (real) triples. */
module Geometry {

  datatype Vec3 = Vec3(x: real, y: real, z: real)
  {
    function Plus(o: Vec3): Vec3 { Vec3(x + o.x, y + o.y, z + o.z) }
    function Minus(o: Vec3): Vec3 { Vec3(x - o.x, y - o.y, z - o.z) }
  }

  /** An axis-aligned box given by its two corners. */
  datatype AABB = AABB(min: Vec3, max: Vec3)
}
