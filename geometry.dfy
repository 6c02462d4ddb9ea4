/**
 * Vectors over the reals and the numeric conversions the bullet code relies on.
 * The source computes in `f32`; rounding is not modelled, but every cast whose
 * range matters (`f32 as u32`, `u64 as u32`) is written out.
 */
module Geometry {

  datatype Vec2 = Vec2(x: real, y: real) {
    function Plus(o: Vec2): Vec2 { Vec2(x + o.x, y + o.y) }
    function Scale(k: real): Vec2 { Vec2(x * k, y * k) }
  }

  const ZERO2: Vec2 := Vec2(0.0, 0.0)

  datatype Vec3 = Vec3(x: real, y: real, z: real)

  /** A packed `(x, y, rotation, 0)` buffer entry. */
  datatype Vec4 = Vec4(x: real, y: real, z: real, w: real)

  function DistanceSquared(a: Vec3, b: Vec3): (d: real)
    ensures d >= 0.0
  {
    (a.x - b.x) * (a.x - b.x) + (a.y - b.y) * (a.y - b.y) + (a.z - b.z) * (a.z - b.z)
  }

  /** `std::f32::consts::PI`, as the mathematical constant. */
  const PI: real := 3.141592653589793

  /** `Vec2::from_angle`: the unit vector of a heading. Its trigonometry is not
      modelled; every operation that needs it receives it as a parameter. */
  type FromAngle = real -> Vec2

  /** `f32::to_radians`. */
  function ToRadians(degrees: real): (r: real)
    ensures degrees == 180.0 ==> r == PI
    ensures degrees == 0.0 ==> r == 0.0
  {
    degrees * (PI / 180.0)
  }

  const U32_MAX: nat := 0xFFFF_FFFF

  /** `x as u32` for an `f32` x: truncates toward zero and saturates at both ends. */
  function SaturatingToU32(x: real): (n: nat)
    ensures n <= U32_MAX
    ensures x <= 0.0 ==> n == 0
    ensures x >= U32_MAX as real ==> n == U32_MAX
    ensures 0.0 <= x < U32_MAX as real ==> n as real <= x < n as real + 1.0
  {
    if x <= 0.0 then 0
    else if x >= U32_MAX as real then U32_MAX
    else x.Floor
  }

  /** `n as u32` for a `u64` n: keeps the low 32 bits. */
  function WrapToU32(n: nat): (r: nat)
    ensures r <= U32_MAX
    ensures n <= U32_MAX ==> r == n
    ensures (n - r) % (U32_MAX + 1) == 0
  {
    n % (U32_MAX + 1)
  }
}
