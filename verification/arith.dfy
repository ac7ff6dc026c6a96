/** Facts about products and squares of reals that the geometric proofs use.

    Products are named by functions so that each fact is stated once, about a
    single term, and later proofs combine those terms linearly. */
module Arith {

  function Product(p: real, q: real): real { p * q }

  function Square(x: real): real { x * x }

  function Abs(x: real): real { if x < 0.0 then -x else x }

  function Max(a: real, b: real): real { if a < b then b else a }

  function Min(a: real, b: real): real { if b < a then b else a }

  /** An integer forced into `[lo, hi]`: `lo` below it, `hi` above it. */
  function ClampInt(x: int, lo: int, hi: int): (r: int)
    ensures lo <= hi ==> lo <= r <= hi
    ensures lo <= x <= hi ==> r == x
    ensures x < lo ==> r == lo
    ensures lo <= x && hi < x ==> r == hi
  {
    if x < lo then lo else if hi < x then hi else x
  }

  lemma ProductPositive(p: real, q: real)
    requires p > 0.0 && q > 0.0
    ensures Product(p, q) > 0.0
  {
  }

  lemma ProductNonNegative(p: real, q: real)
    requires p >= 0.0 && q >= 0.0
    ensures Product(p, q) >= 0.0
  {
    if p > 0.0 && q > 0.0 {
      ProductPositive(p, q);
    }
  }

  /** Multiplying by a positive factor keeps the sign. */
  lemma ProductSign(k: real, d: real)
    requires k > 0.0
    ensures Product(k, d) < 0.0 <==> d < 0.0
    ensures Product(k, d) > 0.0 <==> d > 0.0
  {
    if d < 0.0 {
      ProductPositive(k, -d);
    } else if d > 0.0 {
      ProductPositive(k, d);
    }
  }

  /** A square is never negative, and it is zero only at zero. */
  lemma SquareSign(x: real)
    ensures Square(x) >= 0.0
    ensures x != 0.0 ==> Square(x) > 0.0
  {
    if x > 0.0 {
      ProductPositive(x, x);
    } else if x < 0.0 {
      ProductPositive(-x, -x);
    }
  }

  /** Two non-negative reals with the same square are equal. */
  lemma SquareInjective(s: real, a: real)
    requires s >= 0.0 && a >= 0.0
    requires Square(s) == Square(a)
    ensures s == a
  {
    if s != a {
      ProductPositive(s + a, if s < a then a - s else s - a);
      assert false;
    }
  }

  /** The square of a real equals the square of its absolute value. */
  lemma SquareAbs(x: real)
    ensures Square(Abs(x)) == Square(x)
  {
    if x < 0.0 {
      assert Square(-x) == Square(x);
    }
  }

  /** A real whose square is at most one lies in [-1, 1]. */
  lemma SquareAtMostOne(y: real)
    requires Square(y) <= 1.0
    ensures -1.0 <= y <= 1.0
  {
    if y > 1.0 {
      ProductPositive(y - 1.0, y + 1.0);
      assert false;
    } else if y < -1.0 {
      ProductPositive(-y - 1.0, -y + 1.0);
      assert false;
    }
  }

  /** A product of two numbers in [0, 1] is again in [0, 1]. */
  lemma ProductUnitInterval(p: real, q: real)
    requires 0.0 <= p <= 1.0 && 0.0 <= q <= 1.0
    ensures 0.0 <= Product(p, q) <= 1.0
  {
    ProductNonNegative(p, q);
    ProductNonNegative(1.0 - p, q);
    assert Product(1.0 - p, q) == q - Product(p, q);
  }

  /** Squaring is strictly increasing on the non-negative reals. */
  lemma SquareMonotone(a: real, b: real)
    requires 0.0 <= a < b
    ensures Square(a) < Square(b)
  {
    ProductPositive(b - a, b + a);
    assert Product(b - a, b + a) == Square(b) - Square(a);
  }

  /** The reciprocal of a number at least 1 lies in (0, 1]. */
  lemma InverseAtMostOne(x: real)
    requires x >= 1.0
    ensures 0.0 < 1.0 / x <= 1.0
  {
    assert Product(1.0 / x, x) == 1.0;
    if 1.0 / x > 1.0 {
      assert false;
    }
  }
}
