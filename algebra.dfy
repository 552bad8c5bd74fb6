/**
 * Exact stand-ins for the engine's linear-algebra types.  Components are
 * `real` instead of `f32`, so rounding is not modelled.  Quaternion
 * normalised interpolation needs a square root, so it is not defined here:
 * every operation that uses it takes it as a parameter of type `Nlerp`.
 */
module Algebra {

  datatype Vec2 = Vec2(x: real, y: real)

  datatype Vec3 = Vec3(x: real, y: real, z: real)

  /** The four components of a quaternion `w + i·x + j·y + k·z`. */
  datatype Quat = Quat(w: real, i: real, j: real, k: real)

  const Zero: Vec3 := Vec3(0.0, 0.0, 0.0)

  function Add(a: Vec3, b: Vec3): Vec3
  {
    Vec3(a.x + b.x, a.y + b.y, a.z + b.z)
  }

  /** `v.scale(s)`: every component multiplied by `s`. */
  function Scale(v: Vec3, s: real): (r: Vec3)
    ensures s == 1.0 ==> r == v
    ensures s == 0.0 ==> r == Zero
  {
    Vec3(v.x * s, v.y * s, v.z * s)
  }

  /** `a.lerp(b, t)`, written as nalgebra does: `a * (1 - t) + b * t`. */
  function Lerp(a: Vec3, b: Vec3, t: real): (r: Vec3)
    ensures t == 0.0 ==> r == a
    ensures t == 1.0 ==> r == b
    ensures a == b ==> r == a
  {
    Add(Scale(a, 1.0 - t), Scale(b, t))
  }

  /** `v.xy()`: the first two components. */
  function Xy(v: Vec3): Vec2
  {
    Vec2(v.x, v.y)
  }

  /** `v.to_homogeneous()` of a 2-D vector: a direction, so the appended component is zero. */
  function Homogeneous(v: Vec2): (r: Vec3)
    ensures Xy(r) == v && r.z == 0.0
  {
    Vec3(v.x, v.y, 0.0)
  }

  predicate IsUnit(q: Quat)
  {
    q.w * q.w + q.i * q.i + q.j * q.j + q.k * q.k == 1.0
  }

  /** `a.nlerp(b, t)` on unit quaternions; supplied by the caller. */
  type Nlerp = (Quat, Quat, real) -> Quat

  /** The property nlerp is meant to have: unit inputs give a unit result. */
  ghost predicate KeepsUnit(nlerp: Nlerp)
  {
    forall p, q, t :: IsUnit(p) && IsUnit(q) ==> IsUnit(nlerp(p, q, t))
  }
}
