/** The reflective material. The point `RandomInUnitSphere()` would draw is a
    parameter. */
module MetalMaterial {
  import opened Arith
  import opened Vectors
  import opened Rays
  import opened Hittables
  import opened Materials

  /** `Metal::Scatter`: the mirror direction of the unit incoming direction,
      perturbed by `fuzz` times the random point. The attenuation is the
      albedo even when the ray is absorbed, and the ray goes on exactly when
      its direction points to the normal's side. */
  function Scatter(m: MathLib, fuzz: real, albedo: Vec3, ray: Ray, record: HitInfo, inUnitSphere: Vec3)
    : (r: ScatterResult)
    ensures r.attenuation == albedo
    ensures r.scattered.origin == record.point
    ensures r.scattered.direction ==
      Add(Reflect(Normalize(m, ray.direction), record.normal), Scale(fuzz, inUnitSphere))
    ensures r.scatters <==> Dot(r.scattered.direction, record.normal) > 0.0
  {
    var reflection := Reflect(Normalize(m, ray.direction), record.normal);
    var scattered := Ray(record.point, Add(reflection, Scale(fuzz, inUnitSphere)));
    ScatterResult(Dot(scattered.direction, record.normal) > 0.0, albedo, scattered)
  }

  /** A perfect mirror (`fuzz = 0`) hit from the front of a unit normal always
      scatters, along the mirror direction, whatever the random point. */
  lemma MirrorAlwaysScatters(m: MathLib, albedo: Vec3, ray: Ray, record: HitInfo, inUnitSphere: Vec3)
    requires Lawful(m)
    requires Dot(record.normal, record.normal) == 1.0
    requires Dot(ray.direction, record.normal) < 0.0
    ensures Scatter(m, 0.0, albedo, ray, record, inUnitSphere).scatters
    ensures Scatter(m, 0.0, albedo, ray, record, inUnitSphere).scattered.direction
      == Reflect(Normalize(m, ray.direction), record.normal)
  {
    var unit := Normalize(m, ray.direction);
    var reflection := Reflect(unit, record.normal);
    assert Add(reflection, Scale(0.0, inUnitSphere)) == reflection;
    NormalizeKeepsSide(m, ray.direction, record.normal);
    ReflectAboutUnitNormal(unit, record.normal);
  }

  /** The fuzzed direction lies within `fuzz` of the mirror direction: the
      random point is drawn from inside the unit ball, so the offset
      `fuzz * p` is shorter than `fuzz`. */
  lemma FuzzWithinRadius(m: MathLib, fuzz: real, albedo: Vec3, ray: Ray, record: HitInfo, inUnitSphere: Vec3)
    requires Dot(inUnitSphere, inUnitSphere) < 1.0
    ensures var offset := Sub(Scatter(m, fuzz, albedo, ray, record, inUnitSphere).scattered.direction,
                              Reflect(Normalize(m, ray.direction), record.normal));
      && Dot(offset, offset) <= Square(fuzz)
      && (fuzz != 0.0 ==> Dot(offset, offset) < Square(fuzz))
  {
    var mirror := Reflect(Normalize(m, ray.direction), record.normal);
    var offset := Sub(Add(mirror, Scale(fuzz, inUnitSphere)), mirror);
    assert offset == Scale(fuzz, inUnitSphere);
    DotScaleBoth(fuzz, inUnitSphere);
    DotSelf(inUnitSphere);
    SquareSign(fuzz);
    ProductNonNegative(Square(fuzz), 1.0 - Dot(inUnitSphere, inUnitSphere));
    assert Product(Square(fuzz), 1.0 - Dot(inUnitSphere, inUnitSphere))
        == Square(fuzz) - Product(Square(fuzz), Dot(inUnitSphere, inUnitSphere));
    if fuzz != 0.0 {
      ProductPositive(Square(fuzz), 1.0 - Dot(inUnitSphere, inUnitSphere));
    }
  }

  /** A ray hitting the front of a unit normal always scatters when the fuzz
      is no larger than the cosine of incidence: the random offset can tilt
      the mirror direction by less than that cosine along the normal. */
  lemma FuzzBelowCosineScatters(m: MathLib, fuzz: real, albedo: Vec3, ray: Ray, record: HitInfo, inUnitSphere: Vec3)
    requires Lawful(m)
    requires Dot(record.normal, record.normal) == 1.0
    requires Dot(ray.direction, record.normal) < 0.0
    requires Dot(inUnitSphere, inUnitSphere) < 1.0
    requires 0.0 <= fuzz <= -Dot(Normalize(m, ray.direction), record.normal)
    ensures Scatter(m, fuzz, albedo, ray, record, inUnitSphere).scatters
  {
    var n := record.normal;
    var unit := Normalize(m, ray.direction);
    NormalizeKeepsSide(m, ray.direction, n);
    var mirror := Reflect(unit, n);
    ReflectAboutUnitNormal(unit, n);
    var d := Add(mirror, Scale(fuzz, inUnitSphere));
    DotAddLeft(mirror, Scale(fuzz, inUnitSphere), n);
    DotScaleLeft(fuzz, inUnitSphere, n);
    ComponentInsideBall(inUnitSphere, n);
    assert Product(fuzz, Dot(inUnitSphere, n) + 1.0) == Product(fuzz, Dot(inUnitSphere, n)) + fuzz;
    if fuzz > 0.0 {
      ProductPositive(fuzz, Dot(inUnitSphere, n) + 1.0);
    }
  }
}
