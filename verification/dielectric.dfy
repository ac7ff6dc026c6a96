/** The glass material. The number `RandomFloat()` would draw is a
    parameter. */
module DielectricMaterial {
  import opened Arith
  import opened Vectors
  import opened Rays
  import opened Hittables
  import opened Materials

  /** The ratio of refractive indices across the surface: `1 / index` when
      entering through the front face, `index` when leaving. */
  function RefractionRatio(refractionIndex: real, frontFace: bool): (k: real)
    requires refractionIndex != 0.0
    ensures frontFace ==> k * refractionIndex == 1.0
    ensures !frontFace ==> k == refractionIndex
  {
    if frontFace then 1.0 / refractionIndex else refractionIndex
  }

  /** `fmin(dot(-unit, normal), 1)`: the cosine of the incidence angle,
      capped at 1. */
  function CosTheta(unit: Vec3, normal: Vec3): (c: real)
    ensures c <= 1.0 && c <= Dot(Neg(unit), normal)
    ensures c == 1.0 || c == Dot(Neg(unit), normal)
  {
    Min(Dot(Neg(unit), normal), 1.0)
  }

  function SinTheta(m: MathLib, cosine: real): real {
    m.sqrt(1.0 - cosine * cosine)
  }

  /** Snell's law has no solution: the ray must be reflected. */
  predicate CannotRefract(m: MathLib, ratio: real, cosine: real) {
    ratio * SinTheta(m, cosine) > 1.0
  }

  /** Schlick's approximation `r0 + (1 - r0) (1 - cosine)^5` with
      `r0 = ((1 - k) / (1 + k))^2`. */
  function Reflectance(m: MathLib, cosine: real, ratio: real): real
    requires 1.0 + ratio != 0.0
  {
    var r0 := Square((1.0 - ratio) / (1.0 + ratio));
    r0 + (1.0 - r0) * m.pow(1.0 - cosine, 5.0)
  }

  /** At normal incidence the reflectance is `r0`. */
  lemma ReflectanceAtNormalIncidence(m: MathLib, ratio: real)
    requires Lawful(m) && 1.0 + ratio != 0.0
    ensures Reflectance(m, 1.0, ratio) == Square((1.0 - ratio) / (1.0 + ratio))
  {
    assert m.pow(0.0, 5.0) == Square(Square(0.0)) * 0.0;
  }

  /** Between equal indices `r0` is 0 and the reflectance is `(1 - c)^5`. */
  lemma ReflectanceMatchedIndex(m: MathLib, cosine: real)
    requires Lawful(m)
    ensures Reflectance(m, cosine, 1.0) == Square(Square(1.0 - cosine)) * (1.0 - cosine)
  {
    assert Square((1.0 - 1.0) / (1.0 + 1.0)) == 0.0;
  }

  /** For a positive ratio, `(1 - k) / (1 + k)` lies strictly between -1
      and 1. */
  lemma SchlickBaseBelowOne(ratio: real)
    requires ratio > 0.0
    ensures -1.0 < (1.0 - ratio) / (1.0 + ratio) < 1.0
  {
    var q := (1.0 - ratio) / (1.0 + ratio);
    assert Product(q, 1.0 + ratio) == 1.0 - ratio;
    if q >= 1.0 {
      assert false;
    } else if q <= -1.0 {
      assert false;
    }
  }

  /** The fifth power of a number in [0, 1] is in [0, 1]. */
  lemma FifthPowerUnitInterval(m: MathLib, b: real)
    requires Lawful(m) && 0.0 <= b <= 1.0
    ensures 0.0 <= m.pow(b, 5.0) <= 1.0
  {
    ProductUnitInterval(b, b);
    ProductUnitInterval(Square(b), Square(b));
    ProductUnitInterval(Square(Square(b)), b);
  }

  /** For a cosine in [0, 1] and a positive ratio the reflectance is a
      probability. */
  lemma ReflectanceIsProbability(m: MathLib, cosine: real, ratio: real)
    requires Lawful(m)
    requires 0.0 <= cosine <= 1.0 && ratio > 0.0
    ensures 0.0 <= Reflectance(m, cosine, ratio) <= 1.0
  {
    var q := (1.0 - ratio) / (1.0 + ratio);
    SchlickBaseBelowOne(ratio);
    SquareAbs(q);
    SquareSign(q);
    SquareMonotone(Abs(q), 1.0);
    var r0 := Square(q);
    var p := m.pow(1.0 - cosine, 5.0);
    FifthPowerUnitInterval(m, 1.0 - cosine);
    ProductNonNegative(1.0 - r0, p);
    ProductNonNegative(1.0 - r0, 1.0 - p);
    assert Product(1.0 - r0, 1.0 - p) == (1.0 - r0) - Product(1.0 - r0, p);
  }

  /** The direction chosen before the final `refract`: the mirror direction
      when refraction is impossible or the draw falls below the reflectance,
      the refracted direction otherwise. */
  function ChooseDirection(m: MathLib, refractionIndex: real, ray: Ray, record: HitInfo, draw: real)
    : (v: Vec3)
    requires refractionIndex != 0.0 && refractionIndex != -1.0
    ensures var ratio := RefractionRatio(refractionIndex, record.frontFace);
      var unit := Normalize(m, ray.direction);
      var cosine := CosTheta(unit, record.normal);
      && (CannotRefract(m, ratio, cosine) ==> v == Reflect(unit, record.normal))
      && (!CannotRefract(m, ratio, cosine) && Reflectance(m, cosine, ratio) > draw ==>
          v == Reflect(unit, record.normal))
      && (!CannotRefract(m, ratio, cosine) && Reflectance(m, cosine, ratio) <= draw ==>
          v == Refract(m, unit, record.normal, ratio))
  {
    var ratio := RefractionRatio(refractionIndex, record.frontFace);
    var unit := Normalize(m, ray.direction);
    var cosine := CosTheta(unit, record.normal);
    if CannotRefract(m, ratio, cosine) || Reflectance(m, cosine, ratio) > draw then
      Reflect(unit, record.normal)
    else
      Refract(m, unit, record.normal, ratio)
  }

  /** `Dielectric::Scatter` never absorbs and never tints. As written, it
      passes the chosen direction through `refract` a second time, so the
      ray leaves along the refraction of the mirror direction or of the
      refracted direction. Under total internal reflection the draw plays
      no part. */
  function Scatter(m: MathLib, refractionIndex: real, ray: Ray, record: HitInfo, draw: real)
    : (r: ScatterResult)
    requires refractionIndex != 0.0 && refractionIndex != -1.0
    ensures r.scatters && r.attenuation == White
    ensures r.scattered.origin == record.point
    ensures var ratio := RefractionRatio(refractionIndex, record.frontFace);
      var unit := Normalize(m, ray.direction);
      var cosine := CosTheta(unit, record.normal);
      var mirrored := Refract(m, Reflect(unit, record.normal), record.normal, ratio);
      var refracted := Refract(m, Refract(m, unit, record.normal, ratio), record.normal, ratio);
      && (CannotRefract(m, ratio, cosine) ==> r.scattered.direction == mirrored)
      && (!CannotRefract(m, ratio, cosine) && Reflectance(m, cosine, ratio) > draw ==>
          r.scattered.direction == mirrored)
      && (!CannotRefract(m, ratio, cosine) && Reflectance(m, cosine, ratio) <= draw ==>
          r.scattered.direction == refracted)
  {
    var ratio := RefractionRatio(refractionIndex, record.frontFace);
    var direction := ChooseDirection(m, refractionIndex, ray, record, draw);
    ScatterResult(true, White, Ray(record.point, Refract(m, direction, record.normal, ratio)))
  }

  /** On a hit oriented against the ray, the cosine lies in [0, 1] and the
      sine in [0, 1]. */
  lemma CosineAndSineInUnitInterval(m: MathLib, ray: Ray, record: HitInfo)
    requires Lawful(m)
    requires Dot(ray.direction, record.normal) <= 0.0
    ensures 0.0 <= CosTheta(Normalize(m, ray.direction), record.normal) <= 1.0
    ensures 0.0 <= SinTheta(m, CosTheta(Normalize(m, ray.direction), record.normal)) <= 1.0
  {
    var unit := Normalize(m, ray.direction);
    NormalizeKeepsSide(m, ray.direction, record.normal);
    assert Dot(Neg(unit), record.normal) == -Dot(unit, record.normal);
    var c := CosTheta(unit, record.normal);
    ProductUnitInterval(c, c);
    var sine := SinTheta(m, c);
    assert Square(sine) == 1.0 - c * c;
    SquareAtMostOne(sine);
  }

  /** Entering glass whose index is at least 1 through the front face,
      refraction is always possible: total internal reflection only happens
      from inside. */
  lemma FrontFaceNeverTotallyReflects(m: MathLib, refractionIndex: real, ray: Ray, record: HitInfo)
    requires Lawful(m)
    requires refractionIndex >= 1.0 && record.frontFace
    requires Dot(ray.direction, record.normal) <= 0.0
    ensures !CannotRefract(m, RefractionRatio(refractionIndex, true),
                           CosTheta(Normalize(m, ray.direction), record.normal))
  {
    CosineAndSineInUnitInterval(m, ray, record);
    var ratio := RefractionRatio(refractionIndex, true);
    InverseAtMostOne(refractionIndex);
    var sine := SinTheta(m, CosTheta(Normalize(m, ray.direction), record.normal));
    ProductUnitInterval(ratio, sine);
  }

  /** Between equal indices a ray that is not reflected passes straight
      through: both calls of `refract` return the unit incoming direction. */
  lemma PassThroughWhenIndexOne(m: MathLib, ray: Ray, record: HitInfo, draw: real)
    requires Lawful(m)
    requires Dot(ray.direction, record.normal) < 0.0
    requires draw >= Reflectance(m, CosTheta(Normalize(m, ray.direction), record.normal), 1.0)
    ensures Scatter(m, 1.0, ray, record, draw).scattered.direction == Normalize(m, ray.direction)
  {
    var unit := Normalize(m, ray.direction);
    CosineAndSineInUnitInterval(m, ray, record);
    NormalizeKeepsSide(m, ray.direction, record.normal);
    assert RefractionRatio(1.0, record.frontFace) == 1.0;
    assert !CannotRefract(m, 1.0, CosTheta(unit, record.normal));
    RefractRatioOne(m, unit, record.normal);
    assert ChooseDirection(m, 1.0, ray, record, draw) == unit;
  }

  /** Between equal indices and with a unit normal the glass is transparent
      whatever the draw: the refracted path returns the unit direction, and
      on the mirror path the second `refract` reflects the mirror direction
      back. */
  lemma IndexOneIsTransparent(m: MathLib, ray: Ray, record: HitInfo, draw: real)
    requires Lawful(m)
    requires Dot(record.normal, record.normal) == 1.0
    requires Dot(ray.direction, record.normal) < 0.0
    ensures Scatter(m, 1.0, ray, record, draw).scattered.direction == Normalize(m, ray.direction)
  {
    var unit := Normalize(m, ray.direction);
    var n := record.normal;
    NormalizeKeepsSide(m, ray.direction, n);
    assert RefractionRatio(1.0, record.frontFace) == 1.0;
    var chosen := ChooseDirection(m, 1.0, ray, record, draw);
    if chosen == Reflect(unit, n) {
      ReflectAboutUnitNormal(unit, n);
      assert Dot(n, chosen) > 0.0;
      RefractRatioOneMirrors(m, chosen, n);
      ReflectTwice(unit, n);
    } else {
      CosineAndSineInUnitInterval(m, ray, record);
      assert !CannotRefract(m, 1.0, CosTheta(unit, n));
      RefractRatioOne(m, unit, n);
      assert chosen == unit;
    }
  }

  /** The second `refract` undoes a reflection: a ray straight down onto the
      front face of glass with index 1.5, with draw 0, takes the mirror
      branch (the reflectance is 0.04), yet the scattered ray keeps going
      down into the glass. */
  lemma ReflectionRefractedAgain(m: MathLib, index: real, ray: Ray, record: HitInfo, draw: real)
    requires Lawful(m)
    requires index == 1.5 && draw == 0.0
    requires ray.direction == Vec3(0.0, 0.0, -1.0)
    requires record.normal == Vec3(0.0, 0.0, 1.0) && record.frontFace
    ensures ChooseDirection(m, index, ray, record, draw) == record.normal
    ensures Scatter(m, index, ray, record, draw).scattered.direction == ray.direction
  {
    StraightDownReflects(m, ray, record);
    var ratio := RefractionRatio(index, true);
    assert ratio == 2.0 / 3.0;
    RefractAlongNormal(m, record.normal, ratio);
    assert Neg(record.normal) == ray.direction;
  }

  /** A ray straight down onto the front face at normal incidence takes the
      mirror branch with draw 0. */
  lemma StraightDownReflects(m: MathLib, ray: Ray, record: HitInfo)
    requires Lawful(m)
    requires ray.direction == Vec3(0.0, 0.0, -1.0)
    requires record.normal == Vec3(0.0, 0.0, 1.0) && record.frontFace
    ensures ChooseDirection(m, 1.5, ray, record, 0.0) == Vec3(0.0, 0.0, 1.0)
  {
    StraightDownIsUnit(m);
    GlassAtNormalIncidence(m);
    MirrorStraightUp();
  }

  lemma StraightDownIsUnit(m: MathLib)
    requires Lawful(m)
    ensures Normalize(m, Vec3(0.0, 0.0, -1.0)) == Vec3(0.0, 0.0, -1.0)
  {
    SqrtOfSquare(m, 1.0);
  }

  lemma MirrorStraightUp()
    ensures CosTheta(Vec3(0.0, 0.0, -1.0), Vec3(0.0, 0.0, 1.0)) == 1.0
    ensures Reflect(Vec3(0.0, 0.0, -1.0), Vec3(0.0, 0.0, 1.0)) == Vec3(0.0, 0.0, 1.0)
  {
    CosineStraightDown();
    ReflectStraightDown();
  }

  lemma CosineStraightDown()
    ensures Dot(Neg(Vec3(0.0, 0.0, -1.0)), Vec3(0.0, 0.0, 1.0)) == 1.0
  {
  }

  lemma ReflectStraightDown()
    ensures Reflect(Vec3(0.0, 0.0, -1.0), Vec3(0.0, 0.0, 1.0)) == Vec3(0.0, 0.0, 1.0)
  {
    var down := Vec3(0.0, 0.0, -1.0);
    var up := Vec3(0.0, 0.0, 1.0);
    assert Dot(up, down) == -1.0;
    assert Scale(2.0 * Dot(up, down), up) == Vec3(0.0, 0.0, -2.0);
  }

  /** At normal incidence on glass of index 1.5 from outside, refraction is
      possible and the reflectance is 0.04. */
  lemma GlassAtNormalIncidence(m: MathLib)
    requires Lawful(m)
    ensures !CannotRefract(m, RefractionRatio(1.5, true), 1.0)
    ensures Reflectance(m, 1.0, RefractionRatio(1.5, true)) == 0.04
  {
    var ratio := RefractionRatio(1.5, true);
    assert ratio == 2.0 / 3.0;
    SqrtOfSquare(m, 0.0);
    assert SinTheta(m, 1.0) == 0.0;
    ReflectanceAtNormalIncidence(m, ratio);
    assert (1.0 - ratio) / (1.0 + ratio) == 0.2;
  }

  /** Refracting a unit normal about itself, at any ratio, reverses it:
      `k` is 1, so the result is `eta * n - (eta + 1) * n`. */
  lemma RefractAlongNormal(m: MathLib, n: Vec3, eta: real)
    requires Lawful(m) && Dot(n, n) == 1.0
    ensures Refract(m, n, n, eta) == Neg(n)
  {
    UnitNormalSelfRefraction(m, n, eta, Dot(n, n));
  }

  lemma UnitNormalSelfRefraction(m: MathLib, n: Vec3, eta: real, d: real)
    requires Lawful(m) && d == 1.0
    ensures RefractGiven(m, n, n, eta, d) == Neg(n)
  {
    var k := 1.0 - eta * eta * (1.0 - d * d);
    assert k == Square(1.0);
    SqrtOfSquare(m, 1.0);
    var c := eta * d + m.sqrt(k);
    assert c == eta + 1.0;
    assert Sub(Scale(eta, n), Scale(c, n)) == Neg(n) by {
      assert eta * n.x - (eta + 1.0) * n.x == -n.x;
      assert eta * n.y - (eta + 1.0) * n.y == -n.y;
      assert eta * n.z - (eta + 1.0) * n.z == -n.z;
    }
  }
}
