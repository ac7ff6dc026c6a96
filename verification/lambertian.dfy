/** The diffuse material. The random vector that `RandomVec3()` would draw is
    a parameter. */
module LambertianMaterial {
  import opened Vectors
  import opened Rays
  import opened Hittables
  import opened Materials
  import opened Utils

  /** The candidate direction: the mirror direction of the unit incoming
      direction plus a normalized random vector. */
  function Candidate(m: MathLib, ray: Ray, record: HitInfo, randomVec: Vec3): Vec3 {
    Add(Reflect(Normalize(m, ray.direction), record.normal), Normalize(m, randomVec))
  }

  /** `Lambertian::Scatter` never absorbs: the ray always leaves from the hit
      point, tinted by the albedo, along the candidate direction, or along the
      normal when the candidate is near zero. So the direction is near zero
      only when the normal is. */
  function Scatter(m: MathLib, albedo: Vec3, ray: Ray, record: HitInfo, randomVec: Vec3)
    : (r: ScatterResult)
    ensures r.scatters
    ensures r.attenuation == albedo
    ensures r.scattered.origin == record.point
    ensures r.scattered.direction == Candidate(m, ray, record, randomVec)
         || r.scattered.direction == record.normal
    ensures NearZero(Candidate(m, ray, record, randomVec)) ==>
      r.scattered.direction == record.normal
    ensures !NearZero(Candidate(m, ray, record, randomVec)) ==>
      r.scattered.direction == Candidate(m, ray, record, randomVec)
    ensures !NearZero(record.normal) ==> !NearZero(r.scattered.direction)
  {
    var candidate := Candidate(m, ray, record, randomVec);
    var direction := if NearZero(candidate) then record.normal else candidate;
    ScatterResult(true, albedo, Ray(record.point, direction))
  }
}
