/** Ray-sphere intersection. Substituting the ray into the sphere's equation
    gives a quadratic in the ray parameter; the hit test takes the nearer root
    when it lies in the requested interval, the farther one otherwise, and
    reports no hit when neither does. */
module Spheres {
  import opened Wrappers
  import opened Arith
  import opened Vectors
  import opened Rays
  import opened Materials
  import opened Hittables

  /** The quadratic `a t^2 + 2 halfB t + c`. */
  datatype Quadratic = Quadratic(a: real, halfB: real, c: real) {

    /** A quarter of the usual discriminant `b^2 - 4ac`. */
    function Discriminant(): real { halfB * halfB - a * c }

    function ValueAt(t: real): real { a * Square(t) + 2.0 * halfB * t + c }
  }

  datatype Sphere = Sphere(center: Vec3, radius: real, material: Material) {

    /** The coefficients computed at the top of the hit test. */
    function Coefficients(ray: Ray): Quadratic {
      var oc := Sub(ray.origin, center);
      Quadratic(Dot(ray.direction, ray.direction), Dot(oc, ray.direction),
                Dot(oc, oc) - radius * radius)
    }

    /** `p` lies on the sphere's surface. */
    predicate Contains(p: Vec3) {
      Dot(Sub(p, center), Sub(p, center)) == Square(radius)
    }

    /** `(point - center) / radius`: unit length for a point on the sphere,
        pointing away from the centre for a positive radius and towards it
        for a negative one. */
    function OutwardNormal(p: Vec3): (n: Vec3)
      requires radius != 0.0
      ensures Contains(p) ==> Dot(n, n) == 1.0
      ensures radius > 0.0 ==> Dot(n, Sub(p, center)) >= 0.0
      ensures radius < 0.0 ==> Dot(n, Sub(p, center)) <= 0.0
    {
      DivideByLength(Sub(p, center), radius);
      DivideKeepsSide(Sub(p, center), radius);
      Div(Sub(p, center), radius)
    }

    /** The record filled in for a hit at parameter `t`. */
    function HitAt(ray: Ray, t: real): (h: HitInfo)
      requires radius != 0.0
      ensures h.t == t && h.point == ray.At(t) && h.material == material
      ensures h.frontFace <==> Dot(ray.direction, OutwardNormal(h.point)) < 0.0
      ensures h.normal == OrientNormal(ray.direction, OutwardNormal(h.point))
      ensures Dot(ray.direction, h.normal) <= 0.0
      ensures Contains(h.point) ==> Dot(h.normal, h.normal) == 1.0
    {
      var p := ray.At(t);
      var outward := OutwardNormal(p);
      HitInfo(t, p, OrientNormal(ray.direction, outward), IsFrontFace(ray.direction, outward), material)
    }

    /** The hit test as a value: `None` when the discriminant is negative or
        neither root lies in `[tMin, tMax]`, otherwise the hit at the nearer
        root in range. */
    function Intersect(m: MathLib, ray: Ray, tMin: real, tMax: UpperBound): (r: Option<HitInfo>)
      requires radius != 0.0
      ensures r.Some? ==> InRange(r.value.t, tMin, tMax)
      ensures r.Some? ==> r.value == HitAt(ray, r.value.t)
    {
      var q := Coefficients(ray);
      if q.Discriminant() < 0.0 || q.a == 0.0 then None
      else
        var sqrtd := m.sqrt(q.Discriminant());
        var near := (-q.halfB - sqrtd) / q.a;
        var far := (-q.halfB + sqrtd) / q.a;
        if InRange(near, tMin, tMax) then Some(HitAt(ray, near))
        else if InRange(far, tMin, tMax) then Some(HitAt(ray, far))
        else None
    }

    /** The source's hit test: writes the record and returns true on a hit,
        leaves the record untouched otherwise. */
    method Hit(m: MathLib, ray: Ray, tMin: real, tMax: UpperBound, record: HitRecord)
      returns (hit: bool)
      requires radius != 0.0
      modifies record
      ensures hit == Intersect(m, ray, tMin, tMax).Some?
      ensures hit ==> record.Holds(Intersect(m, ray, tMin, tMax).value)
      ensures !hit ==> unchanged(record)
    {
      var oc := Sub(ray.origin, center);
      var a := Dot(ray.direction, ray.direction);
      var halfB := Dot(oc, ray.direction);
      var c := Dot(oc, oc) - radius * radius;
      var discriminant := halfB * halfB - a * c;
      ghost var q := Coefficients(ray);
      assert q == Quadratic(a, halfB, c);
      assert discriminant == q.Discriminant();
      if discriminant < 0.0 || a == 0.0 {
        return false;
      }
      var sqrtd := m.sqrt(discriminant);
      var root := (-halfB - sqrtd) / a;
      if root < tMin || (tMax.AtMost? && root > tMax.bound) {
        root := (-halfB + sqrtd) / a;
        if root < tMin || (tMax.AtMost? && root > tMax.bound) {
          return false;
        }
      }
      assert Intersect(m, ray, tMin, tMax) == Some(HitAt(ray, root));
      record.t := root;
      record.point := ray.At(record.t);
      var outward := Div(Sub(record.point, center), radius);
      record.SetFaceNormal(ray, outward);
      record.material := Some(material);
      return true;
    }
  }

  /** Dividing `v` by `r` with `r^2 = |v|^2` gives a unit vector. */
  lemma DivideByLength(v: Vec3, r: real)
    requires r != 0.0
    ensures Dot(v, v) == Square(r) ==> Dot(Div(v, r), Div(v, r)) == 1.0
  {
    if Dot(v, v) == Square(r) {
      var k := 1.0 / r;
      assert Div(v, r) == Scale(k, v);
      DotScaleBoth(k, v);
      assert Product(Square(k), Square(r)) == Square(k * r);
    }
  }

  /** Dividing `v` by `r` keeps the side of `v` for a positive `r` and flips
      it for a negative one. */
  lemma DivideKeepsSide(v: Vec3, r: real)
    requires r != 0.0
    ensures r > 0.0 ==> Dot(Div(v, r), v) >= 0.0
    ensures r < 0.0 ==> Dot(Div(v, r), v) <= 0.0
  {
    var k := 1.0 / r;
    assert Div(v, r) == Scale(k, v);
    DotScaleLeft(k, v, v);
    DotSelf(v);
    if r > 0.0 {
      ProductNonNegative(k, Dot(v, v));
    } else {
      assert Product(k, Dot(v, v)) == -Product(-k, Dot(v, v));
      ProductNonNegative(-k, Dot(v, v));
    }
  }

  /** The squared distance from the sphere's centre along the ray, expanded
      in powers of `t`. */
  lemma ExpandAlongRay(oc: Vec3, d: Vec3, t: real)
    ensures Dot(Add(oc, Scale(t, d)), Add(oc, Scale(t, d)))
         == Dot(oc, oc) + 2.0 * t * Dot(oc, d) + Square(t) * Dot(d, d)
  {
  }

  /** Multiplying the quadratic by `a` completes the square:
      `a * q(t) = (a t + halfB)^2 - discriminant`. */
  lemma CompletedSquare(q: Quadratic, t: real)
    ensures Product(q.a, q.ValueAt(t)) == Square(q.a * t + q.halfB) - q.Discriminant()
  {
  }

  /** The quadratic at `t` is the squared distance of the ray's point from
      the centre minus the squared radius. */
  lemma RootValue(s: Sphere, ray: Ray, t: real)
    ensures s.Coefficients(ray).ValueAt(t)
         == Dot(Sub(ray.At(t), s.center), Sub(ray.At(t), s.center)) - Square(s.radius)
  {
    var oc := Sub(ray.origin, s.center);
    var e := Sub(ray.At(t), s.center);
    OffsetAlongRay(ray, s.center, t);
    RearrangeQuadratic(Dot(e, e), Dot(oc, oc), s.Coefficients(ray), t, Square(s.radius));
  }

  /** The offset of the ray's point from `center`, squared and expanded. */
  lemma OffsetAlongRay(ray: Ray, center: Vec3, t: real)
    ensures Dot(Sub(ray.At(t), center), Sub(ray.At(t), center))
         == Dot(Sub(ray.origin, center), Sub(ray.origin, center))
            + 2.0 * t * Dot(Sub(ray.origin, center), ray.direction)
            + Square(t) * Dot(ray.direction, ray.direction)
  {
    var oc := Sub(ray.origin, center);
    assert Sub(ray.At(t), center) == Add(oc, Scale(t, ray.direction));
    ExpandAlongRay(oc, ray.direction, t);
  }

  lemma RearrangeQuadratic(e: real, o: real, q: Quadratic, t: real, r2: real)
    requires e == o + 2.0 * t * q.halfB + Square(t) * q.a
    requires q.c == o - r2
    ensures q.ValueAt(t) == e - r2
  {
  }

  /** The point at parameter `t` is on the sphere exactly when `t` is a root
      of the coefficients' quadratic. */
  lemma ContainsIffRoot(s: Sphere, ray: Ray, t: real)
    ensures s.Contains(ray.At(t)) <==> s.Coefficients(ray).ValueAt(t) == 0.0
  {
    RootValue(s, ray, t);
  }

  /** For a non-zero direction, the roots of the quadratic are exactly the
      two candidates the hit test computes. */
  lemma RootsAreCandidates(m: MathLib, q: Quadratic, t: real)
    requires Lawful(m)
    requires q.a > 0.0 && q.Discriminant() >= 0.0
    ensures q.ValueAt(t) == 0.0 <==>
      (t == (-q.halfB - m.sqrt(q.Discriminant())) / q.a ||
       t == (-q.halfB + m.sqrt(q.Discriminant())) / q.a)
  {
    var s := m.sqrt(q.Discriminant());
    var w := q.a * t + q.halfB;
    CompletedSquare(q, t);
    if q.ValueAt(t) == 0.0 {
      assert Square(w) == Square(s);
      SquareAbs(w);
      SquareInjective(Abs(w), s);
    } else {
      ProductSign(q.a, q.ValueAt(t));
      assert Square(w) != Square(s);
    }
  }

  /** With a negative discriminant the quadratic has no root. */
  lemma NoRootsWhenDiscriminantNegative(q: Quadratic, t: real)
    requires q.a > 0.0 && q.Discriminant() < 0.0
    ensures q.ValueAt(t) != 0.0
  {
    CompletedSquare(q, t);
    SquareSign(q.a * t + q.halfB);
    ProductSign(q.a, q.ValueAt(t));
  }

  /** The nearer candidate is never beyond the farther one. */
  lemma NearNotBeyondFar(q: Quadratic, s: real)
    requires q.a > 0.0 && s >= 0.0
    ensures (-q.halfB - s) / q.a <= (-q.halfB + s) / q.a
  {
    var k := 1.0 / q.a;
    assert (-q.halfB - s) / q.a == k * (-q.halfB - s);
    assert (-q.halfB + s) / q.a == k * (-q.halfB + s);
    ProductNonNegative(k, 2.0 * s);
  }

  /** For a ray with a non-zero direction, the hit test finds the first point
      of the sphere along the ray within `[tMin, tMax]`: on a hit the point
      is on the sphere and no smaller parameter in the interval reaches the
      sphere; no hit means no parameter in the interval does. */
  lemma IntersectIsFirstContact(m: MathLib, s: Sphere, ray: Ray, tMin: real, tMax: UpperBound)
    requires Lawful(m) && s.radius != 0.0 && ray.direction != Zero
    ensures s.Intersect(m, ray, tMin, tMax).None? <==>
      (forall t :: InRange(t, tMin, tMax) ==> !s.Contains(ray.At(t)))
    ensures s.Intersect(m, ray, tMin, tMax).Some? ==>
      s.Contains(s.Intersect(m, ray, tMin, tMax).value.point)
    ensures s.Intersect(m, ray, tMin, tMax).Some? ==>
      forall t :: tMin <= t < s.Intersect(m, ray, tMin, tMax).value.t ==> !s.Contains(ray.At(t))
  {
    var q := s.Coefficients(ray);
    DotSelf(ray.direction);
    assert q.a > 0.0;
    if q.Discriminant() < 0.0 {
      forall t
        ensures !s.Contains(ray.At(t))
      {
        NoRootsWhenDiscriminantNegative(q, t);
        ContainsIffRoot(s, ray, t);
      }
    } else {
      var sqrtd := m.sqrt(q.Discriminant());
      var near := (-q.halfB - sqrtd) / q.a;
      var far := (-q.halfB + sqrtd) / q.a;
      NearNotBeyondFar(q, sqrtd);
      forall t
        ensures s.Contains(ray.At(t)) <==> t == near || t == far
      {
        RootsAreCandidates(m, q, t);
        ContainsIffRoot(s, ray, t);
      }
    }
  }

  /** Querying with a smaller upper bound `b` gives the same hit when the
      full query's hit lies at or before `b`, and no hit otherwise. */
  lemma IntersectNarrowed(m: MathLib, s: Sphere, ray: Ray, tMin: real, tMax: UpperBound, b: real)
    requires Lawful(m) && s.radius != 0.0 && Within(b, tMax)
    ensures s.Intersect(m, ray, tMin, AtMost(b)) ==
      (var full := s.Intersect(m, ray, tMin, tMax);
       if full.Some? && full.value.t <= b then full else None)
  {
    var q := s.Coefficients(ray);
    DotSelf(ray.direction);
    if q.Discriminant() >= 0.0 && q.a != 0.0 {
      NearNotBeyondFar(q, m.sqrt(q.Discriminant()));
    }
  }
}
