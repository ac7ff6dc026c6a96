/** Three-component vectors over exact reals and the glm operations the
    renderer uses on them. Floating-point rounding is not modelled.

    The C library's square root and power cannot be defined over the reals in
    Dafny, so they are carried as a `MathLib` value; `Lawful` states the laws
    the proofs rely on, and every lemma that needs them takes `Lawful(m)` as a
    hypothesis. */
module Vectors {
  import opened Arith

  datatype Vec3 = Vec3(x: real, y: real, z: real)

  const Zero := Vec3(0.0, 0.0, 0.0)
  const White := Vec3(1.0, 1.0, 1.0)

  function Add(a: Vec3, b: Vec3): Vec3 { Vec3(a.x + b.x, a.y + b.y, a.z + b.z) }

  function Sub(a: Vec3, b: Vec3): Vec3 { Vec3(a.x - b.x, a.y - b.y, a.z - b.z) }

  function Neg(a: Vec3): Vec3 { Vec3(-a.x, -a.y, -a.z) }

  /** Scalar times vector, `k * v` in glm. */
  function Scale(k: real, a: Vec3): Vec3 { Vec3(k * a.x, k * a.y, k * a.z) }

  /** Vector divided by a scalar, `v / k` in glm. */
  function Div(a: Vec3, k: real): Vec3
    requires k != 0.0
  {
    Vec3(a.x / k, a.y / k, a.z / k)
  }

  /** Componentwise product, `a * b` in glm (used to tint a colour). */
  function Mul(a: Vec3, b: Vec3): Vec3 { Vec3(a.x * b.x, a.y * b.y, a.z * b.z) }

  function Dot(a: Vec3, b: Vec3): real { a.x * b.x + a.y * b.y + a.z * b.z }

  /** `std::sqrt` and `std::pow` as parameters. */
  datatype MathLib = MathLib(sqrt: real -> real, pow: (real, real) -> real)

  /** The laws of square root and power that the proofs use. Each holds of
      the real functions, so no correct library is ruled out. */
  ghost predicate Lawful(m: MathLib) {
    && (forall x :: x >= 0.0 ==> m.sqrt(x) >= 0.0 && Square(m.sqrt(x)) == x)
    && (forall b :: m.pow(b, 1.0) == b)
    && (forall b :: m.pow(b, 2.0) == Square(b))
    && (forall b :: m.pow(b, 5.0) == Square(Square(b)) * b)
    && (forall b, e :: 0.0 <= b && 0.0 < e <= 1.0 ==> 0.0 <= m.pow(b, e) <= Max(b, 1.0))
  }

  /** `glm::normalize`: `v * inversesqrt(dot(v, v))`. For the zero vector the
      source produces NaN; the model returns the vector unchanged. */
  function Normalize(m: MathLib, v: Vec3): Vec3 {
    var len := m.sqrt(Dot(v, v));
    if len == 0.0 then v else Scale(1.0 / len, v)
  }

  /** `glm::reflect(i, n) = i - 2 * dot(n, i) * n`. */
  function Reflect(i: Vec3, n: Vec3): Vec3 {
    Sub(i, Scale(2.0 * Dot(n, i), n))
  }

  /** `glm::refract(i, n, eta)`: the zero vector when `k < 0`, otherwise
      `eta * i - (eta * dot(n, i) + sqrt(k)) * n`. */
  function Refract(m: MathLib, i: Vec3, n: Vec3, eta: real): Vec3 {
    RefractGiven(m, i, n, eta, Dot(n, i))
  }

  /** The body of `refract` once `d = dot(n, i)` has been computed. */
  function RefractGiven(m: MathLib, i: Vec3, n: Vec3, eta: real, d: real): Vec3 {
    var k := 1.0 - eta * eta * (1.0 - d * d);
    if k < 0.0 then Zero else Sub(Scale(eta, i), Scale(eta * d + m.sqrt(k), n))
  }

  /** The squared length is never negative and vanishes only for the zero
      vector. */
  lemma DotSelf(v: Vec3)
    ensures Dot(v, v) >= 0.0
    ensures Dot(v, v) == 0.0 <==> v == Zero
  {
    SquareSign(v.x);
    SquareSign(v.y);
    SquareSign(v.z);
    assert Dot(v, v) == Square(v.x) + Square(v.y) + Square(v.z);
  }

  lemma DotZero(n: Vec3)
    ensures Dot(Zero, n) == 0.0
  {
  }

  lemma DotScaleLeft(k: real, a: Vec3, b: Vec3)
    ensures Dot(Scale(k, a), b) == Product(k, Dot(a, b))
  {
  }

  /** The dot product distributes over a sum on the left. */
  lemma DotAddLeft(a: Vec3, b: Vec3, c: Vec3)
    ensures Dot(Add(a, b), c) == Dot(a, c) + Dot(b, c)
  {
  }

  lemma DotScaleBoth(k: real, a: Vec3)
    ensures Dot(Scale(k, a), Scale(k, a)) == Product(Square(k), Dot(a, a))
  {
  }

  /** The square root of a square is the absolute value. */
  lemma SqrtOfSquare(m: MathLib, x: real)
    requires Lawful(m)
    ensures m.sqrt(Square(x)) == Abs(x)
  {
    SquareSign(x);
    SquareAbs(x);
    SquareInjective(m.sqrt(Square(x)), Abs(x));
  }

  /** A positive number has a positive square root. */
  lemma SqrtPositive(m: MathLib, x: real)
    requires Lawful(m)
    requires x > 0.0
    ensures m.sqrt(x) > 0.0
  {
    assert Square(m.sqrt(x)) == x;
  }

  /** Dividing a vector by a square root of its squared length gives a unit
      vector. */
  lemma ScaledToUnit(s: real, v: Vec3)
    requires s > 0.0 && Square(s) == Dot(v, v)
    ensures Dot(Scale(1.0 / s, v), Scale(1.0 / s, v)) == 1.0
  {
    var k := 1.0 / s;
    DotScaleBoth(k, v);
    assert k * s == 1.0;
    assert Product(Square(k), Square(s)) == Square(k * s);
  }

  /** `normalize` yields a unit vector for a non-zero input and the zero
      vector for the zero vector. */
  lemma NormalizeIsUnit(m: MathLib, v: Vec3)
    requires Lawful(m)
    ensures v != Zero ==> Dot(Normalize(m, v), Normalize(m, v)) == 1.0
    ensures v == Zero ==> Normalize(m, v) == Zero
  {
    DotSelf(v);
    if v != Zero {
      SqrtPositive(m, Dot(v, v));
      ScaledToUnit(m.sqrt(Dot(v, v)), v);
    }
  }

  /** Scaling by a positive factor keeps the side of any plane through the
      origin that a vector lies on. */
  lemma ScaleKeepsSide(k: real, v: Vec3, n: Vec3)
    requires k > 0.0
    ensures Dot(Scale(k, v), n) < 0.0 <==> Dot(v, n) < 0.0
    ensures Dot(Scale(k, v), n) > 0.0 <==> Dot(v, n) > 0.0
  {
    DotScaleLeft(k, v, n);
    ProductSign(k, Dot(v, n));
  }

  /** `normalize` keeps the side of any plane through the origin that a
      vector lies on. */
  lemma NormalizeKeepsSide(m: MathLib, v: Vec3, n: Vec3)
    requires Lawful(m)
    ensures Dot(Normalize(m, v), n) < 0.0 <==> Dot(v, n) < 0.0
    ensures Dot(Normalize(m, v), n) > 0.0 <==> Dot(v, n) > 0.0
  {
    DotSelf(v);
    if v != Zero {
      SqrtPositive(m, Dot(v, v));
      var k := 1.0 / m.sqrt(Dot(v, v));
      assert Normalize(m, v) == Scale(k, v);
      ScaleKeepsSide(k, v, n);
    } else {
      NormalizeIsUnit(m, v);
      DotZero(n);
    }
  }

  /** Each component of a normalized vector lies in [-1, 1]. */
  lemma NormalizeBounded(m: MathLib, v: Vec3)
    requires Lawful(m)
    ensures -1.0 <= Normalize(m, v).y <= 1.0
  {
    NormalizeIsUnit(m, v);
    var u := Normalize(m, v);
    if v != Zero {
      SquareSign(u.x);
      SquareSign(u.z);
      assert Dot(u, u) == Square(u.x) + Square(u.y) + Square(u.z);
      SquareAtMostOne(u.y);
    }
  }

  /** Reflecting about a unit normal flips the normal component and keeps the
      length. */
  lemma ReflectAboutUnitNormal(i: Vec3, n: Vec3)
    requires Dot(n, n) == 1.0
    ensures Dot(Reflect(i, n), n) == -Dot(i, n)
    ensures Dot(Reflect(i, n), Reflect(i, n)) == Dot(i, i)
  {
    var d := Dot(n, i);
    assert Dot(Reflect(i, n), n) == Dot(i, n) - 2.0 * d * Dot(n, n);
    assert Dot(Reflect(i, n), Reflect(i, n))
        == Dot(i, i) - 4.0 * d * Dot(n, i) + 4.0 * d * d * Dot(n, n);
  }

  /** With ratio 1 and an incident direction on the far side of the normal,
      `refract` returns the direction unchanged. */
  lemma RefractRatioOne(m: MathLib, i: Vec3, n: Vec3)
    requires Lawful(m)
    requires Dot(n, i) <= 0.0
    ensures Refract(m, i, n, 1.0) == i
  {
    UnitRatioPassesThrough(m, i, n, Dot(n, i));
  }

  /** With ratio 1 the discriminant of `refract` is `d * d`, whose root is
      `-d` when `d` is not positive, so the normal term cancels. */
  lemma UnitRatioPassesThrough(m: MathLib, i: Vec3, n: Vec3, d: real)
    requires Lawful(m) && d <= 0.0
    ensures RefractGiven(m, i, n, 1.0, d) == i
  {
    var k := 1.0 - 1.0 * 1.0 * (1.0 - d * d);
    assert k == Square(d);
    SquareSign(d);
    SqrtOfSquare(m, d);
    var e := 1.0 * d + m.sqrt(k);
    assert e == 0.0;
    ScaleByZero(e, n);
    assert Scale(1.0, i) == i;
  }

  lemma ScaleByZero(e: real, n: Vec3)
    requires e == 0.0
    ensures Scale(e, n) == Zero
  {
  }

  /** With ratio 1 and an incident direction on the normal's side, `refract`
      is the mirror image: `sqrt(d * d)` is `d`, so the normal term is
      `2 d n`. */
  lemma RefractRatioOneMirrors(m: MathLib, i: Vec3, n: Vec3)
    requires Lawful(m)
    requires Dot(n, i) >= 0.0
    ensures Refract(m, i, n, 1.0) == Reflect(i, n)
  {
    UnitRatioMirrors(m, i, n, Dot(n, i));
  }

  lemma UnitRatioMirrors(m: MathLib, i: Vec3, n: Vec3, d: real)
    requires Lawful(m) && d >= 0.0
    ensures RefractGiven(m, i, n, 1.0, d) == Sub(i, Scale(2.0 * d, n))
  {
    var k := 1.0 - 1.0 * 1.0 * (1.0 - d * d);
    assert k == Square(d);
    SquareSign(d);
    SqrtOfSquare(m, d);
    assert 1.0 * d + m.sqrt(k) == 2.0 * d;
    assert Scale(1.0, i) == i;
  }

  /** Reflecting twice about a unit normal gives the original direction. */
  lemma ReflectTwice(i: Vec3, n: Vec3)
    requires Dot(n, n) == 1.0
    ensures Reflect(Reflect(i, n), n) == i
  {
    ReflectAboutUnitNormal(i, n);
    var d := Dot(n, i);
    assert Dot(n, Reflect(i, n)) == -d;
    assert Reflect(Reflect(i, n), n) == Sub(Sub(i, Scale(2.0 * d, n)), Scale(-2.0 * d, n));
  }

  /** The Cauchy-Schwarz inequality, by Lagrange's identity: the gap is a sum
      of three squares. */
  lemma CauchySchwarz(a: Vec3, b: Vec3)
    ensures Square(Dot(a, b)) <= Product(Dot(a, a), Dot(b, b))
  {
    var u := a.x * b.y - a.y * b.x;
    var v := a.x * b.z - a.z * b.x;
    var w := a.y * b.z - a.z * b.y;
    Lagrange(a.x, a.y, a.z, b.x, b.y, b.z);
    SquareSign(u);
    SquareSign(v);
    SquareSign(w);
  }

  /** Lagrange's identity in three dimensions, over the coordinates. */
  lemma Lagrange(a1: real, a2: real, a3: real, b1: real, b2: real, b3: real)
    ensures (a1 * a1 + a2 * a2 + a3 * a3) * (b1 * b1 + b2 * b2 + b3 * b3)
          - (a1 * b1 + a2 * b2 + a3 * b3) * (a1 * b1 + a2 * b2 + a3 * b3)
         == (a1 * b2 - a2 * b1) * (a1 * b2 - a2 * b1)
          + (a1 * b3 - a3 * b1) * (a1 * b3 - a3 * b1)
          + (a2 * b3 - a3 * b2) * (a2 * b3 - a3 * b2)
  {
  }

  /** A point inside the unit ball has a component strictly between -1 and
      1 along any unit vector. */
  lemma ComponentInsideBall(p: Vec3, n: Vec3)
    requires Dot(p, p) < 1.0 && Dot(n, n) == 1.0
    ensures -1.0 < Dot(p, n) < 1.0
  {
    CauchySchwarz(p, n);
    assert Dot(p, n) == Dot(n, p);
    var c := Abs(Dot(p, n));
    SquareAbs(Dot(p, n));
    if c > 1.0 {
      SquareMonotone(1.0, c);
    }
  }
}
