/** The numeric helpers of `Utils`: the near-zero test, the packed-pixel
    encoder, and the random-number helpers with their function-local static
    distribution. */
module Utils {
  import opened Wrappers
  import opened Arith
  import opened Vectors

  /** The threshold of `NearZero`, `1e-8`. */
  const Delta: real := 0.00000001

  /** Every component has absolute value below `1e-8`. */
  predicate NearZero(v: Vec3) {
    Abs(v.x) < Delta && Abs(v.y) < Delta && Abs(v.z) < Delta
  }

  /** A near-zero vector is short: its squared length is below `3e-16`; and
      the zero vector is near zero. */
  lemma NearZeroIsShort(v: Vec3)
    ensures NearZero(v) ==> Dot(v, v) < 3.0 * Square(Delta)
    ensures NearZero(Zero)
  {
    if NearZero(v) {
      SquareMonotone(Abs(v.x), Delta);
      SquareMonotone(Abs(v.y), Delta);
      SquareMonotone(Abs(v.z), Delta);
      SquareAbs(v.x);
      SquareAbs(v.y);
      SquareAbs(v.z);
      assert Dot(v, v) == Square(v.x) + Square(v.y) + Square(v.z);
    }
  }

  const Uint32Limit: int := 0x1_0000_0000

  /** `static_cast<uint32_t>` of a float: truncation toward zero. A value
      outside `(-1, 2^32)` makes the cast undefined; the model maps it to 0. */
  function ToUint32(x: real): (n: nat)
    ensures n < Uint32Limit
    ensures 0.0 <= x < Uint32Limit as real ==> n as real <= x < n as real + 1.0
    ensures -1.0 < x < 1.0 ==> n == 0
  {
    if 0.0 <= x < Uint32Limit as real then x.Floor else 0
  }

  /** `glm::clamp(x, lo, hi)`, that is `min(max(x, lo), hi)`. */
  function Clamp(x: real, lo: real, hi: real): (r: real)
    ensures lo <= hi ==> lo <= r <= hi
    ensures lo <= x <= hi ==> r == x
    ensures lo <= hi && x < lo ==> r == lo
    ensures hi < x ==> r == hi
  {
    Min(Max(x, lo), hi)
  }

  /** One channel of `GetColor`: average over the samples, clamp to [0, 1],
      scale to 255, raise to `1 / gamma` and truncate to `uint32_t`. With
      `gamma >= 1` the channel fits in a byte; with `gamma = 1` it is the
      truncated, clamped average times 255, so a saturated channel is 255. */
  function Channel(m: MathLib, c: real, samplesPerPixel: int, gamma: real): (n: nat)
    requires samplesPerPixel != 0 && gamma != 0.0
    ensures n < Uint32Limit
    ensures Lawful(m) && gamma >= 1.0 ==> n <= 255
    ensures Lawful(m) && gamma == 1.0 ==>
      n == (Clamp(c / samplesPerPixel as real, 0.0, 1.0) * 255.0).Floor
    ensures Lawful(m) && gamma == 1.0 && c / samplesPerPixel as real >= 1.0 ==> n == 255
  {
    var scale := 1.0 / samplesPerPixel as real;
    var base := Clamp(c * scale, 0.0, 1.0) * 255.0;
    ScaledByInverse(c, samplesPerPixel as real);
    PowOfScaledChannel(m, base, gamma);
    ToUint32(m.pow(base, 1.0 / gamma))
  }

  lemma ScaledByInverse(c: real, s: real)
    requires s != 0.0
    ensures c * (1.0 / s) == c / s
  {
  }

  /** Raising a value in [0, 255] to `1 / gamma` keeps it in [0, 255] when
      `gamma >= 1`, and leaves it unchanged when `gamma = 1`. */
  lemma PowOfScaledChannel(m: MathLib, base: real, gamma: real)
    requires 0.0 <= base <= 255.0 && gamma != 0.0
    ensures Lawful(m) && gamma >= 1.0 ==> 0.0 <= m.pow(base, 1.0 / gamma) <= 255.0
    ensures Lawful(m) && gamma == 1.0 ==> m.pow(base, 1.0 / gamma) == base
  {
    if Lawful(m) && gamma >= 1.0 {
      InverseAtMostOne(gamma);
      assert 0.0 <= m.pow(base, 1.0 / gamma) <= Max(base, 1.0);
    }
  }

  /** The pixel encoder `(255 << 24) | (B << 16) | (G << 8) | R` over
      `uint32_t`; bits shifted past bit 31 are lost. The alpha byte is always
      `0xFF`, whatever the channels are. */
  function GetColor(m: MathLib, color: Vec3, samplesPerPixel: int, gamma: real): (r: bv32)
    requires samplesPerPixel != 0 && gamma != 0.0
    ensures r >> 24 == 0xFF
  {
    var red := Channel(m, color.x, samplesPerPixel, gamma) as bv32;
    var green := Channel(m, color.y, samplesPerPixel, gamma) as bv32;
    var blue := Channel(m, color.z, samplesPerPixel, gamma) as bv32;
    Pack(red, green, blue)
  }

  function Pack(red: bv32, green: bv32, blue: bv32): bv32 {
    (0xFF << 24) | (blue << 16) | (green << 8) | red
  }

  /** Bytes 0, 1 and 2 of the packed word are the three channels when each
      fits in a byte. */
  lemma PackedBytes(red: bv32, green: bv32, blue: bv32)
    requires red < 256 && green < 256 && blue < 256
    ensures Pack(red, green, blue) & 0xFF == red
    ensures (Pack(red, green, blue) >> 8) & 0xFF == green
    ensures (Pack(red, green, blue) >> 16) & 0xFF == blue
  {
  }

  /** With `gamma >= 1` the red, green and blue channels land in bytes 0, 1
      and 2 without overlapping. */
  lemma GetColorLayout(m: MathLib, color: Vec3, samplesPerPixel: int, gamma: real)
    requires Lawful(m)
    requires samplesPerPixel != 0 && gamma >= 1.0
    ensures GetColor(m, color, samplesPerPixel, gamma) & 0xFF
      == Channel(m, color.x, samplesPerPixel, gamma) as bv32
    ensures (GetColor(m, color, samplesPerPixel, gamma) >> 8) & 0xFF
      == Channel(m, color.y, samplesPerPixel, gamma) as bv32
    ensures (GetColor(m, color, samplesPerPixel, gamma) >> 16) & 0xFF
      == Channel(m, color.z, samplesPerPixel, gamma) as bv32
  {
    var red := Channel(m, color.x, samplesPerPixel, gamma);
    var green := Channel(m, color.y, samplesPerPixel, gamma);
    var blue := Channel(m, color.z, samplesPerPixel, gamma);
    ByteFits(red);
    ByteFits(green);
    ByteFits(blue);
    PackedBytes(red as bv32, green as bv32, blue as bv32);
  }

  lemma ByteFits(n: nat)
    requires n < 256
    ensures n as bv32 < 256
  {
  }

  /** With `gamma = 0.5`, which the gamma slider allows, a pure red pixel
      encodes red as `255^2 = 65025 = 0xFE01`, whose high byte lands in the
      green byte although the green channel is 0. */
  lemma GammaBelowOneBleeds(m: MathLib)
    requires Lawful(m)
    ensures Channel(m, 1.0, 1, 0.5) == 65025
    ensures Channel(m, 0.0, 1, 0.5) == 0
    ensures (GetColor(m, Vec3(1.0, 0.0, 0.0), 1, 0.5) >> 8) & 0xFF == 0xFE
  {
    ChannelAtHalfGamma(m, 1.0, 255.0);
    ChannelAtHalfGamma(m, 0.0, 0.0);
    assert ToUint32(65025.0) == 65025;
    assert ToUint32(0.0) == 0;
    var full: nat := 65025;
    var none: nat := 0;
    assert Channel(m, 1.0, 1, 0.5) as bv32 == full as bv32;
    assert Channel(m, 0.0, 1, 0.5) as bv32 == none as bv32;
    assert (Pack(full as bv32, none as bv32, none as bv32) >> 8) & 0xFF == 0xFE;
  }

  /** With one sample and `gamma = 0.5` a channel in [0, 1] is raised to the
      power 2 after scaling to 255. */
  lemma ChannelAtHalfGamma(m: MathLib, c: real, scaled: real)
    requires Lawful(m)
    requires 0.0 <= c <= 1.0 && scaled == c * 255.0
    ensures Channel(m, c, 1, 0.5) == ToUint32(Square(scaled))
  {
    assert 1.0 / 1 as real == 1.0;
    assert Clamp(c * 1.0, 0.0, 1.0) == c;
    assert 1.0 / 0.5 == 2.0;
    assert m.pow(scaled, 2.0) == Square(scaled);
  }

  /** `RandomInHemiSphere`'s final step: keep the point when it lies on the
      normal's side, otherwise negate it. */
  function FlipToHemisphere(p: Vec3, normal: Vec3): (r: Vec3)
    ensures Dot(r, normal) >= 0.0
    ensures Dot(r, r) == Dot(p, p)
    ensures r == p || r == Neg(p)
  {
    if Dot(p, normal) > 0.0 then p else Neg(p)
  }

  /** The constant `PI` of the configuration header, `3.1415926`. */
  const Pi: real := 3.1415926

  /** `DegreesToRadians`: `PI / 180` radians per degree, so a half turn of
      180 degrees is `PI` and the map is proportional. */
  function DegreesToRadians(degree: real): (r: real)
    ensures 180.0 * r == Pi * degree
    ensures degree == 180.0 ==> r == Pi
  {
    Pi / 180.0 * degree
  }

  /** The bounds of a `std::uniform_real_distribution`. */
  datatype Bounds = Bounds(min: real, max: real)

  /** The value a distribution with bounds `b` maps the engine output `u` in
      [0, 1) to. */
  function Uniform(b: Bounds, u: real): (r: real)
    ensures b.min < b.max && 0.0 <= u < 1.0 ==> b.min <= r < b.max
  {
    UniformBelowMax(b, u);
    b.min + Product(b.max - b.min, u)
  }

  lemma UniformBelowMax(b: Bounds, u: real)
    ensures b.min < b.max && 0.0 <= u < 1.0 ==>
      0.0 <= Product(b.max - b.min, u) < b.max - b.min
  {
    if b.min < b.max && 0.0 <= u < 1.0 {
      ProductNonNegative(b.max - b.min, u);
      ProductPositive(b.max - b.min, 1.0 - u);
      assert Product(b.max - b.min, 1.0 - u) == (b.max - b.min) - Product(b.max - b.min, u);
    }
  }

  /** Every component of `v` lies in the half-open range of `b`. */
  predicate InBox(b: Bounds, v: Vec3) {
    b.min <= v.x < b.max && b.min <= v.y < b.max && b.min <= v.z < b.max
  }

  /** The distribution after a call with bounds `(min, max)`: the static is
      built on the first call and kept afterwards. */
  function FixedOn(distribution: Option<Bounds>, min: real, max: real): (d: Option<Bounds>)
    ensures d.Some?
    ensures distribution.Some? ==> d == distribution
  {
    if distribution.None? then Some(Bounds(min, max)) else distribution
  }

  /** The state behind `RandomFloat`: the engine `std::mt19937` seen as its
      stream of outputs scaled to [0, 1), the number of outputs used so far,
      and the function-local static distribution, absent until the first
      call. */
  class RandomSource {
    const engine: nat -> real
    var drawn: nat
    var distribution: Option<Bounds>

    /** The engine's outputs all lie in [0, 1). */
    ghost predicate Valid() {
      forall n: nat :: 0.0 <= engine(n) < 1.0
    }

    /** The `k`-th point `RandomInUnitSphere` draws when the engine stands at
        `start`: three consecutive outputs through the distribution `b`. */
    function SpherePoint(b: Bounds, start: nat, k: nat): Vec3 {
      var i := start + 3 * k;
      Vec3(Uniform(b, engine(i)), Uniform(b, engine(i + 1)), Uniform(b, engine(i + 2)))
    }

    /** The first `count` points drawn from `start` all lie outside the open
        unit ball. */
    predicate SphereRejected(b: Bounds, start: nat, count: nat) {
      forall k: nat :: k < count ==> Dot(SpherePoint(b, start, k), SpherePoint(b, start, k)) >= 1.0
    }

    /** The `k`-th point `RandomInUnitDisk` draws when the engine stands at
        `start`: two consecutive outputs and `z = 0`. */
    function DiskPoint(b: Bounds, start: nat, k: nat): Vec3 {
      var i := start + 2 * k;
      Vec3(Uniform(b, engine(i)), Uniform(b, engine(i + 1)), 0.0)
    }

    /** The first `count` disk points drawn from `start` all lie outside the
        open unit disk. */
    predicate DiskRejected(b: Bounds, start: nat, count: nat) {
      forall k: nat :: k < count ==> Dot(DiskPoint(b, start, k), DiskPoint(b, start, k)) >= 1.0
    }

    constructor (engine: nat -> real)
      requires forall n: nat :: 0.0 <= engine(n) < 1.0
      ensures Valid()
      ensures this.engine == engine && drawn == 0 && distribution == None
    {
      this.engine := engine;
      drawn := 0;
      distribution := None;
    }

    /** The bounds of every call after the first are ignored: the value is
        drawn from the range of the first call. */
    method RandomFloat(min: real, max: real) returns (r: real)
      modifies this
      ensures distribution == FixedOn(old(distribution), min, max)
      ensures drawn == old(drawn) + 1
      ensures r == Uniform(distribution.value, engine(old(drawn)))
    {
      distribution := FixedOn(distribution, min, max);
      r := Uniform(distribution.value, engine(drawn));
      drawn := drawn + 1;
    }

    /** The three arguments of the `glm::vec3` constructor are read left to
        right, so x, y and z take consecutive engine outputs. */
    method RandomVec3(min: real, max: real) returns (v: Vec3)
      modifies this
      ensures distribution == FixedOn(old(distribution), min, max)
      ensures drawn == old(drawn) + 3
      ensures v == Vec3(Uniform(distribution.value, engine(old(drawn))),
                        Uniform(distribution.value, engine(old(drawn) + 1)),
                        Uniform(distribution.value, engine(old(drawn) + 2)))
    {
      var x := RandomFloat(min, max);
      var y := RandomFloat(min, max);
      var z := RandomFloat(min, max);
      v := Vec3(x, y, z);
    }

    /** The rejection loop: draw a point with `RandomVec3(-1, 1)` until its
        squared length is below 1. The loop gives up after `fuel` rejected
        draws. Its points lie in the box of the distribution fixed by the
        FIRST call of `RandomFloat`, which need not be [-1, 1). The point
        returned is the first draw inside the ball, after which the engine
        has advanced by three outputs per draw; `None` means all `fuel`
        draws fell outside. */
    method RandomInUnitSphere(fuel: nat) returns (p: Option<Vec3>)
      requires Valid()
      modifies this
      ensures distribution == FixedOn(old(distribution), -1.0, 1.0)
      ensures p.Some? ==> Dot(p.value, p.value) < 1.0
      ensures p.Some? && distribution.value.min < distribution.value.max ==>
        InBox(distribution.value, p.value)
      ensures p.None? ==>
        drawn == old(drawn) + 3 * fuel && SphereRejected(distribution.value, old(drawn), fuel)
      ensures p.Some? ==> exists k: nat ::
        && k < fuel
        && p.value == SpherePoint(distribution.value, old(drawn), k)
        && SphereRejected(distribution.value, old(drawn), k)
        && drawn == old(drawn) + 3 * (k + 1)
    {
      var tries := 0;
      distribution := FixedOn(distribution, -1.0, 1.0);
      while tries < fuel
        invariant tries <= fuel
        invariant distribution == FixedOn(old(distribution), -1.0, 1.0)
        invariant drawn == old(drawn) + 3 * tries
        invariant SphereRejected(distribution.value, old(drawn), tries)
        decreases fuel - tries
      {
        var point := RandomVec3(-1.0, 1.0);
        assert point == SpherePoint(distribution.value, old(drawn), tries);
        if Dot(point, point) >= 1.0 {
          tries := tries + 1;
          continue;
        }
        return Some(point);
      }
      return None;
    }

    /** The rejection loop of `RandomInUnitDisk`: two draws with bounds
        `(-1, 1)` and `z = 0`, repeated until the point is inside the unit
        circle. The loop gives up after `fuel` rejected draws. The point
        returned is the first draw inside the disk, after which the engine
        has advanced by two outputs per draw. */
    method RandomInUnitDisk(fuel: nat) returns (p: Option<Vec3>)
      requires Valid()
      modifies this
      ensures distribution == FixedOn(old(distribution), -1.0, 1.0)
      ensures p.Some? ==> p.value.z == 0.0 && Dot(p.value, p.value) < 1.0
      ensures p.Some? && distribution.value.min < distribution.value.max ==>
        distribution.value.min <= p.value.x < distribution.value.max &&
        distribution.value.min <= p.value.y < distribution.value.max
      ensures p.None? ==>
        drawn == old(drawn) + 2 * fuel && DiskRejected(distribution.value, old(drawn), fuel)
      ensures p.Some? ==> exists k: nat ::
        && k < fuel
        && p.value == DiskPoint(distribution.value, old(drawn), k)
        && DiskRejected(distribution.value, old(drawn), k)
        && drawn == old(drawn) + 2 * (k + 1)
    {
      var tries := 0;
      distribution := FixedOn(distribution, -1.0, 1.0);
      while tries < fuel
        invariant tries <= fuel
        invariant distribution == FixedOn(old(distribution), -1.0, 1.0)
        invariant drawn == old(drawn) + 2 * tries
        invariant DiskRejected(distribution.value, old(drawn), tries)
        decreases fuel - tries
      {
        var x := RandomFloat(-1.0, 1.0);
        var y := RandomFloat(-1.0, 1.0);
        var point := Vec3(x, y, 0.0);
        assert point == DiskPoint(distribution.value, old(drawn), tries);
        if Dot(point, point) >= 1.0 {
          tries := tries + 1;
          continue;
        }
        return Some(point);
      }
      return None;
    }

    /** A point of the unit ball turned onto the normal's side: the first
        draw of `RandomInUnitSphere`, flipped. */
    method RandomInHemiSphere(normal: Vec3, fuel: nat) returns (p: Option<Vec3>)
      requires Valid()
      modifies this
      ensures distribution == FixedOn(old(distribution), -1.0, 1.0)
      ensures p.Some? ==> Dot(p.value, p.value) < 1.0 && Dot(p.value, normal) >= 0.0
      ensures p.None? ==>
        drawn == old(drawn) + 3 * fuel && SphereRejected(distribution.value, old(drawn), fuel)
      ensures p.Some? ==> exists k: nat ::
        && k < fuel
        && p.value == FlipToHemisphere(SpherePoint(distribution.value, old(drawn), k), normal)
        && SphereRejected(distribution.value, old(drawn), k)
        && drawn == old(drawn) + 3 * (k + 1)
    {
      var inUnitSphere := RandomInUnitSphere(fuel);
      if inUnitSphere.None? {
        return None;
      }
      ghost var start := old(drawn);
      ghost var k: nat :| k < fuel && inUnitSphere.value == SpherePoint(distribution.value, start, k)
        && SphereRejected(distribution.value, start, k) && drawn == start + 3 * (k + 1);
      p := Some(FlipToHemisphere(inUnitSphere.value, normal));
    }
  }
}
