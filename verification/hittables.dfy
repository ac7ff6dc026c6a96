/** The hit record filled in by intersection tests, and the face-normal
    convention: the stored normal always points against the incoming ray. */
module Hittables {
  import opened Wrappers
  import opened Vectors
  import opened Rays
  import opened Materials

  /** An upper bound on the ray parameter: a number, or +infinity. */
  datatype UpperBound = Unbounded | AtMost(bound: real)

  /** `t` lies in the closed interval `[tMin, tMax]`. */
  predicate InRange(t: real, tMin: real, tMax: UpperBound) {
    tMin <= t && (tMax.AtMost? ==> t <= tMax.bound)
  }

  /** A bound `b` that is no larger than `tMax`. */
  predicate Within(b: real, tMax: UpperBound) {
    tMax.AtMost? ==> b <= tMax.bound
  }

  /** The contents of a filled hit record as a value. */
  datatype HitInfo = HitInfo(t: real, point: Vec3, normal: Vec3, frontFace: bool, material: Material)

  /** The ray meets the surface from outside. */
  predicate IsFrontFace(direction: Vec3, outward: Vec3) {
    Dot(direction, outward) < 0.0
  }

  /** The normal stored in the record: the outward normal, flipped when the
      ray comes from inside. It never points along the ray, keeps the length
      of the outward normal, and a ray grazing the surface counts as coming
      from inside. */
  function OrientNormal(direction: Vec3, outward: Vec3): (n: Vec3)
    ensures Dot(direction, n) <= 0.0
    ensures n == outward || n == Neg(outward)
    ensures Dot(n, n) == Dot(outward, outward)
    ensures Dot(direction, outward) == 0.0 ==> n == Neg(outward)
  {
    if IsFrontFace(direction, outward) then outward else Neg(outward)
  }

  /** The record a hit test writes into. A value-initialised record has every
      field zero and no material. */
  class HitRecord {
    var frontFace: bool
    var t: real
    var point: Vec3
    var normal: Vec3
    var material: Option<Material>

    constructor ()
      ensures !frontFace && t == 0.0 && point == Zero && normal == Zero && material == None
    {
      frontFace := false;
      t := 0.0;
      point := Zero;
      normal := Zero;
      material := None;
    }

    /** The record holds exactly the hit `h`. */
    predicate Holds(h: HitInfo)
      reads this
    {
      t == h.t && point == h.point && normal == h.normal
      && frontFace == h.frontFace && material == Some(h.material)
    }

    /** Decides the face and orients the normal; nothing else is written. */
    method SetFaceNormal(ray: Ray, outward: Vec3)
      modifies this`frontFace, this`normal
      ensures frontFace == IsFrontFace(ray.direction, outward)
      ensures normal == OrientNormal(ray.direction, outward)
      ensures Dot(ray.direction, normal) <= 0.0
      ensures t == old(t) && point == old(point) && material == old(material)
    {
      frontFace := Dot(ray.direction, outward) < 0.0;
      normal := if frontFace then outward else Neg(outward);
    }

    /** Assignment of one record to another. */
    method CopyFrom(other: HitRecord)
      modifies this
      ensures frontFace == other.frontFace && t == other.t && point == other.point
      ensures normal == other.normal && material == other.material
    {
      frontFace := other.frontFace;
      t := other.t;
      point := other.point;
      normal := other.normal;
      material := other.material;
    }
  }
}
