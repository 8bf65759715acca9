/** Vectors and matrices as Blender's `mathutils` uses them, and Python's
    integer conversions of floats. Coordinates are modelled as `real`. */
module Geometry {

  datatype Vec3 = Vec3(x: real, y: real, z: real)

  datatype Vec4 = Vec4(x: real, y: real, z: real, w: real)

  /** A 4x4 matrix given by its rows. */
  datatype Mat4 = Mat4(r0: Vec4, r1: Vec4, r2: Vec4, r3: Vec4)

  function Dot(row: Vec4, v: Vec4): real {
    row.x * v.x + row.y * v.y + row.z * v.z + row.w * v.w
  }

  /** `v.to_4d()`: the point in homogeneous coordinates, w = 1. */
  function To4D(v: Vec3): Vec4 {
    Vec4(v.x, v.y, v.z, 1.0)
  }

  /** `m @ v` for a 4x4 matrix and a 4D vector. */
  function MulVec4(m: Mat4, v: Vec4): Vec4 {
    Vec4(Dot(m.r0, v), Dot(m.r1, v), Dot(m.r2, v), Dot(m.r3, v))
  }

  /** `m @ v` for a 4x4 matrix and a 3D vector: mathutils extends the vector
      with w = 1 and keeps the first three components, without dividing. */
  function TransformPoint(m: Mat4, v: Vec3): Vec3 {
    var h := MulVec4(m, To4D(v));
    Vec3(h.x, h.y, h.z)
  }

  /** Python's built-in `round` on a float: the nearest integer, and on a
      tie the even one. */
  function RoundHalfEven(r: real): (n: int)
    ensures n as real - 0.5 <= r <= n as real + 0.5
    ensures (r == n as real - 0.5 || r == n as real + 0.5) ==> n % 2 == 0
  {
    var f := r.Floor;
    var frac := r - f as real;
    if frac < 0.5 then f
    else if frac > 0.5 then f + 1
    else if f % 2 == 0 then f
    else f + 1
  }

  /** Two integers within half a unit of each other are equal. */
  lemma NearestWhole(n: int, m: int)
    requires m as real - 0.5 <= n as real <= m as real + 0.5
    ensures n == m
  {
  }

  /** Python's `int(x)` on a float: truncation toward zero. */
  function TruncToInt(r: real): (n: int)
    ensures r >= 0.0 ==> n as real <= r < n as real + 1.0
    ensures r < 0.0 ==> n as real - 1.0 < r <= n as real
  {
    if r >= 0.0 then r.Floor else -((-r).Floor)
  }

  /** A value at most half a unit from an integer interval's end stays inside
      it once rounded: the bound Python's `round` keeps. */
  lemma RoundStaysInRange(r: real, lo: int, hi: int)
    requires lo as real <= r <= hi as real
    ensures lo <= RoundHalfEven(r) <= hi
  {
  }
}
