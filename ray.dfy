/** A ray `origin + t * direction`. */
module Rays {
  import opened Vector

  datatype Ray = Ray(origin: Vec3, direction: Vec3)

  /** `Ray::new`: the accessors give back what was stored. */
  function New(origin: Vec3, direction: Vec3): (r: Ray)
    ensures r.origin == origin && r.direction == direction
  {
    Ray(origin, direction)
  }

  /** `at(t)`: the point reached after moving `t` times the direction. */
  function At(r: Ray, t: real): (p: Vec3)
    ensures Sub(p, r.origin) == Scale(t, r.direction)
  {
    Add(r.origin, Scale(t, r.direction))
  }

  lemma AtZero(r: Ray)
    ensures At(r, 0.0) == r.origin
    ensures At(r, 1.0) == Add(r.origin, r.direction)
  {
  }

  /** Points advance linearly in `t`. */
  lemma AtAffine(r: Ray, s: real, t: real)
    ensures At(r, s + t) == Add(At(r, s), Scale(t, r.direction))
    ensures Sub(At(r, t), At(r, s)) == Scale(t - s, r.direction)
  {
  }
}
