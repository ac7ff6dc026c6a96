/** A ray: an origin and a direction, evaluated at a parameter `t`. */
module Rays {
  import opened Vectors

  /** `origin` and `direction` are the constructor's arguments; the source's
      `GetOrigin` and `GetDirection` return them unchanged. */
  datatype Ray = Ray(origin: Vec3, direction: Vec3) {

    /** The point reached after travelling `t` times the direction. */
    function At(t: real): (p: Vec3)
      ensures Sub(p, origin) == Scale(t, direction)
    {
      Add(origin, Scale(t, direction))
    }
  }

  /** At parameter zero the ray is at its origin. */
  lemma AtZero(r: Ray)
    ensures r.At(0.0) == r.origin
  {
  }

  /** Two points of a ray differ by the parameter difference times the
      direction. */
  lemma AtDifference(r: Ray, s: real, t: real)
    ensures Sub(r.At(s), r.At(t)) == Scale(s - t, r.direction)
  {
  }
}
