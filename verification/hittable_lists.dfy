/** The world: a list of objects scanned for the nearest hit. Each object is
    queried with the interval `[tMin, closest so far]`, so a later object
    only replaces the current hit when it is at least as near. */
module HittableLists {
  import opened Wrappers
  import opened Vectors
  import opened Rays
  import opened Hittables
  import opened Spheres

  /** Every sphere has a non-zero radius, so every hit test is defined. */
  predicate NonDegenerate(objects: seq<Sphere>) {
    forall i :: 0 <= i < |objects| ==> objects[i].radius != 0.0
  }

  /** The bound the scan uses after it has found `found`. */
  function ClosestSoFar(found: Option<HitInfo>, tMax: UpperBound): UpperBound {
    if found.Some? then AtMost(found.value.t) else tMax
  }

  /** The scan over `objects` as a value. The result, when there is one,
      lies in `[tMin, tMax]`. */
  function ListHit(m: MathLib, objects: seq<Sphere>, ray: Ray, tMin: real, tMax: UpperBound)
    : (r: Option<HitInfo>)
    requires NonDegenerate(objects)
    ensures r.Some? ==> InRange(r.value.t, tMin, tMax)
    decreases |objects|
  {
    if objects == [] then None
    else
      var prev := ListHit(m, objects[..|objects| - 1], ray, tMin, tMax);
      var h := objects[|objects| - 1].Intersect(m, ray, tMin, ClosestSoFar(prev, tMax));
      if h.Some? then h else prev
  }

  /** The hit `h` is the object's own hit over the whole interval. */
  predicate ObjectHits(m: MathLib, s: Sphere, ray: Ray, tMin: real, tMax: UpperBound, h: HitInfo)
    requires s.radius != 0.0
  {
    s.Intersect(m, ray, tMin, tMax) == Some(h)
  }

  /** The object reports no hit in the interval, or one strictly beyond `t`. */
  predicate HitsBeyond(m: MathLib, s: Sphere, ray: Ray, tMin: real, tMax: UpperBound, t: real)
    requires s.radius != 0.0
  {
    var r := s.Intersect(m, ray, tMin, tMax);
    r.None? || r.value.t > t
  }

  /** The object reports no hit in the interval, or one no nearer than `t`. */
  predicate HitsNoNearer(m: MathLib, s: Sphere, ray: Ray, tMin: real, tMax: UpperBound, t: real)
    requires s.radius != 0.0
  {
    var r := s.Intersect(m, ray, tMin, tMax);
    r.None? || r.value.t >= t
  }

  /** The scan finds nothing exactly when no object has a hit in the
      interval. */
  lemma {:induction false} ListHitNone(m: MathLib, objects: seq<Sphere>, ray: Ray, tMin: real, tMax: UpperBound)
    requires Lawful(m) && NonDegenerate(objects)
    ensures ListHit(m, objects, ray, tMin, tMax).None? <==>
      forall i :: 0 <= i < |objects| ==> objects[i].Intersect(m, ray, tMin, tMax).None?
  {
    if objects != [] {
      var n := |objects| - 1;
      var pre := objects[..n];
      ListHitNone(m, pre, ray, tMin, tMax);
      var prev := ListHit(m, pre, ray, tMin, tMax);
      if prev.Some? {
        IntersectNarrowed(m, objects[n], ray, tMin, tMax, prev.value.t);
      }
      assert forall i :: 0 <= i < n ==> pre[i] == objects[i];
    }
  }

  /** On a hit, the scan returns the hit of some object `i` over the whole
      interval; no object reports a nearer hit, and every object after `i`
      reports none or a strictly farther one, so ties go to the object added
      last. */
  lemma {:induction false} ListHitNearest(m: MathLib, objects: seq<Sphere>, ray: Ray, tMin: real, tMax: UpperBound)
    returns (i: nat)
    requires Lawful(m) && NonDegenerate(objects)
    requires ListHit(m, objects, ray, tMin, tMax).Some?
    ensures i < |objects|
    ensures ObjectHits(m, objects[i], ray, tMin, tMax, ListHit(m, objects, ray, tMin, tMax).value)
    ensures forall j :: 0 <= j < |objects| ==>
      HitsNoNearer(m, objects[j], ray, tMin, tMax, ListHit(m, objects, ray, tMin, tMax).value.t)
    ensures forall j :: i < j < |objects| ==>
      HitsBeyond(m, objects[j], ray, tMin, tMax, ListHit(m, objects, ray, tMin, tMax).value.t)
  {
    var n := |objects| - 1;
    var pre := objects[..n];
    var last := objects[n];
    var prev := ListHit(m, pre, ray, tMin, tMax);
    var result := ListHit(m, objects, ray, tMin, tMax).value;
    if prev.None? {
      ListHitNone(m, pre, ray, tMin, tMax);
      i := n;
      assert forall j :: 0 <= j < n ==> pre[j] == objects[j];
    } else {
      var k := ListHitNearest(m, pre, ray, tMin, tMax);
      IntersectNarrowed(m, last, ray, tMin, tMax, prev.value.t);
      assert forall j :: 0 <= j < n ==> pre[j] == objects[j];
      if last.Intersect(m, ray, tMin, AtMost(prev.value.t)).Some? {
        i := n;
      } else {
        i := k;
      }
    }
  }

  /** The scan's hit only gets nearer as more objects are scanned: the bound
      `closest_so_far` never increases. */
  lemma {:induction false} ListHitPrefix(m: MathLib, objects: seq<Sphere>, k: nat, ray: Ray, tMin: real, tMax: UpperBound)
    requires Lawful(m) && NonDegenerate(objects) && k <= |objects|
    ensures ListHit(m, objects[..k], ray, tMin, tMax).Some? ==>
      ListHit(m, objects, ray, tMin, tMax).Some? &&
      ListHit(m, objects, ray, tMin, tMax).value.t <= ListHit(m, objects[..k], ray, tMin, tMax).value.t
    decreases |objects|
  {
    if k < |objects| {
      var n := |objects| - 1;
      var pre := objects[..n];
      assert objects[..k] == pre[..k];
      ListHitPrefix(m, pre, k, ray, tMin, tMax);
      var prev := ListHit(m, pre, ray, tMin, tMax);
      if prev.Some? {
        IntersectNarrowed(m, objects[n], ray, tMin, tMax, prev.value.t);
      }
    } else {
      assert objects[..k] == objects;
    }
  }

  /** For a ray with a non-zero direction, the scan finds the first point
      along the ray, within `[tMin, tMax]`, that lies on any sphere of the
      world; it finds nothing exactly when no sphere is met in the interval. */
  lemma NearestVisibleSurface(m: MathLib, objects: seq<Sphere>, ray: Ray, tMin: real, tMax: UpperBound)
    requires Lawful(m) && NonDegenerate(objects) && ray.direction != Zero
    ensures ListHit(m, objects, ray, tMin, tMax).None? <==>
      forall j, t :: 0 <= j < |objects| && InRange(t, tMin, tMax) ==> !objects[j].Contains(ray.At(t))
    ensures ListHit(m, objects, ray, tMin, tMax).Some? ==>
      (exists j :: 0 <= j < |objects| &&
        objects[j].Contains(ListHit(m, objects, ray, tMin, tMax).value.point)) &&
      forall j, t :: 0 <= j < |objects| && tMin <= t < ListHit(m, objects, ray, tMin, tMax).value.t ==>
        !objects[j].Contains(ray.At(t))
  {
    var r := ListHit(m, objects, ray, tMin, tMax);
    forall j | 0 <= j < |objects|
      ensures objects[j].Intersect(m, ray, tMin, tMax).None? <==>
        (forall t :: InRange(t, tMin, tMax) ==> !objects[j].Contains(ray.At(t)))
      ensures objects[j].Intersect(m, ray, tMin, tMax).Some? ==>
        forall t :: tMin <= t < objects[j].Intersect(m, ray, tMin, tMax).value.t ==>
          !objects[j].Contains(ray.At(t))
    {
      IntersectIsFirstContact(m, objects[j], ray, tMin, tMax);
    }
    ListHitNone(m, objects, ray, tMin, tMax);
    if r.Some? {
      var i := ListHitNearest(m, objects, ray, tMin, tMax);
      IntersectIsFirstContact(m, objects[i], ray, tMin, tMax);
      forall j, t | 0 <= j < |objects| && tMin <= t < r.value.t
        ensures !objects[j].Contains(ray.At(t))
      {
        assert InRange(t, tMin, tMax);
      }
    }
  }

  /** The world's list of objects. */
  class HittableList {
    var objects: seq<Sphere>

    constructor ()
      ensures objects == []
    {
      objects := [];
    }

    /** The one-object constructor adds its argument to an empty list. */
    constructor Single(hittable: Sphere)
      ensures objects == [hittable]
    {
      objects := [];
      new;
      Add(hittable);
    }

    method GetObjects() returns (r: seq<Sphere>)
      ensures r == objects
    {
      r := objects;
    }

    /** Appends at the end; the earlier objects keep their order. */
    method Add(hittable: Sphere)
      modifies this
      ensures objects == old(objects) + [hittable]
    {
      objects := objects + [hittable];
    }

    method Clear()
      modifies this
      ensures objects == []
    {
      objects := [];
    }

    /** The nearest-hit scan: on a hit the record holds the scan's result;
        otherwise the record is left as it was. */
    method Hit(m: MathLib, ray: Ray, tMin: real, tMax: UpperBound, record: HitRecord)
      returns (hitAnything: bool)
      requires NonDegenerate(objects)
      modifies record
      ensures hitAnything == ListHit(m, objects, ray, tMin, tMax).Some?
      ensures hitAnything ==> record.Holds(ListHit(m, objects, ray, tMin, tMax).value)
      ensures !hitAnything ==> unchanged(record)
    {
      hitAnything := false;
      var closestSoFar := tMax;
      var tempRecord := new HitRecord();
      for i := 0 to |objects|
        invariant NonDegenerate(objects[..i])
        invariant hitAnything == ListHit(m, objects[..i], ray, tMin, tMax).Some?
        invariant closestSoFar == ClosestSoFar(ListHit(m, objects[..i], ray, tMin, tMax), tMax)
        invariant hitAnything ==> record.Holds(ListHit(m, objects[..i], ray, tMin, tMax).value)
        invariant !hitAnything ==> unchanged(record)
      {
        assert objects[..i + 1][..i] == objects[..i];
        var hit := objects[i].Hit(m, ray, tMin, closestSoFar, tempRecord);
        if hit {
          hitAnything := true;
          closestSoFar := AtMost(tempRecord.t);
          record.CopyFrom(tempRecord);
        }
      }
      assert objects[..|objects|] == objects;
    }
  }
}
