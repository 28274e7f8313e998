/**
 * The `DVec3` arithmetic the simulation uses, over exact reals.
 *
 * The f64 operations that real arithmetic cannot express (square roots, the
 * direction of a vector, a quotient whose divisor may be zero) are gathered in
 * `FloatOps` and handed to the integrators as a parameter: nothing is assumed
 * about them except, where a proof needs it, that a length is never negative
 * (`Sound`).
 */
module Vectors {
  datatype Vec3 = Vec3(x: real, y: real, z: real)

  const Zero := Vec3(0.0, 0.0, 0.0)

  function Add(a: Vec3, b: Vec3): Vec3 {
    Vec3(a.x + b.x, a.y + b.y, a.z + b.z)
  }

  function Sub(a: Vec3, b: Vec3): Vec3 {
    Vec3(a.x - b.x, a.y - b.y, a.z - b.z)
  }

  function Scale(a: Vec3, k: real): Vec3 {
    Vec3(a.x * k, a.y * k, a.z * k)
  }

  function Dot(a: Vec3, b: Vec3): real {
    a.x * b.x + a.y * b.y + a.z * b.z
  }

  /** `DVec3::distance_squared`: exact in real arithmetic. */
  function DistanceSquared(a: Vec3, b: Vec3): real {
    Dot(Sub(a, b), Sub(a, b))
  }

  /** The f64 operations left uninterpreted. */
  datatype FloatOps = FloatOps(
    length: Vec3 -> real,           // DVec3::length (a square root)
    normalize: Vec3 -> Vec3,        // DVec3::normalize (NaN for the zero vector)
    divide: (real, real) -> real)   // f64 `/` (infinite or NaN for a zero divisor)

  /** The one fact about the uninterpreted operations that the model relies on. */
  ghost predicate Sound(ops: FloatOps) {
    forall v :: ops.length(v) >= 0.0
  }

  /** `DVec3::distance`, which is the length of the difference. */
  function Distance(ops: FloatOps, a: Vec3, b: Vec3): real {
    ops.length(Sub(a, b))
  }

  /** `DVec3 / f64`: each component divided by `d`. */
  function DivideVec(ops: FloatOps, v: Vec3, d: real): Vec3 {
    Vec3(ops.divide(v.x, d), ops.divide(v.y, d), ops.divide(v.z, d))
  }

  /** Every position moved by its velocity times `dt` (`*pos += *vel * dt`). */
  function Advance(p: seq<Vec3>, v: seq<Vec3>, dt: real): (r: seq<Vec3>)
    requires |v| == |p|
    ensures |r| == |p|
    ensures forall i :: 0 <= i < |p| ==> Sub(r[i], p[i]) == Scale(v[i], dt)
  {
    seq(|p|, i requires 0 <= i < |p| => Add(p[i], Scale(v[i], dt)))
  }
}
