/** The record an intersection test fills in, and the rule that orients its
    normal against the incoming ray. */
module Hits {
  import opened Numeric
  import opened Vector
  import opened Rays
  import opened Intervals

  /** The value held by a `Hit`. */
  datatype HitRecord = HitRecord(p: Vec3, normal: Vec3, t: real, frontFace: bool)

  /** `Hit::new()`: everything zero, not a front face. */
  function Blank(): HitRecord {
    HitRecord(Zero(), Zero(), 0.0, false)
  }

  /** Whether the ray meets the surface from the side `outwardNormal` points to
      (with the corrected inner product in place of `dot`). */
  predicate IsFrontFace(r: Ray, outwardNormal: Vec3) {
    InnerProduct(r.direction, outwardNormal) < 0.0
  }

  /** The record after `set_face_normal`: `p` and `t` kept, the normal is the
      outward normal on a front face and its negation otherwise. */
  function WithFaceNormal(rec: HitRecord, r: Ray, outwardNormal: Vec3): (res: HitRecord)
    ensures res.p == rec.p && res.t == rec.t
    ensures res.frontFace <==> InnerProduct(r.direction, outwardNormal) < 0.0
    ensures res.normal == outwardNormal || res.normal == Neg(outwardNormal)
    ensures LengthSquared(res.normal) == LengthSquared(outwardNormal)
  {
    NegKeepsLength(outwardNormal);
    var front := IsFrontFace(r, outwardNormal);
    rec.(frontFace := front, normal := if front then outwardNormal else Neg(outwardNormal))
  }

  /** For a non-zero outward normal the stored normal equals it exactly when the
      face is a front face, in both directions. */
  lemma FrontFaceKeepsOutwardNormal(rec: HitRecord, r: Ray, outwardNormal: Vec3)
    requires outwardNormal != Zero()
    ensures WithFaceNormal(rec, r, outwardNormal).frontFace
        <==> WithFaceNormal(rec, r, outwardNormal).normal == outwardNormal
  {
    NegInvolution(outwardNormal);
  }

  /** Orienting twice against the same ray changes nothing more. */
  lemma WithFaceNormalIdempotent(rec: HitRecord, r: Ray, outwardNormal: Vec3)
    ensures var once := WithFaceNormal(rec, r, outwardNormal);
      WithFaceNormal(once, r, outwardNormal) == once
  {
  }

  /** A `Hit` whose fields are updated in place. */
  class Hit {
    var p: Vec3
    var normal: Vec3
    var t: real
    var frontFace: bool

    function Value(): HitRecord
      reads this
    {
      HitRecord(p, normal, t, frontFace)
    }

    /** `Hit::new()`. */
    constructor ()
      ensures Value() == Blank()
    {
      p := Zero();
      normal := Zero();
      t := 0.0;
      frontFace := false;
    }

    /** `set_face_normal`. */
    method SetFaceNormal(r: Ray, outwardNormal: Vec3)
      modifies this
      ensures frontFace == (InnerProduct(r.direction, outwardNormal) < 0.0)
      ensures normal == (if frontFace then outwardNormal else Neg(outwardNormal))
      ensures p == old(p) && t == old(t)
      ensures Value() == WithFaceNormal(old(Value()), r, outwardNormal)
    {
      frontFace := InnerProduct(r.direction, outwardNormal) < 0.0;
      normal := if frontFace then outwardNormal else Neg(outwardNormal);
    }

    /** `*rec = other.clone()`. */
    method Assign(other: Hit)
      modifies this
      ensures Value() == old(other.Value())
    {
      p, normal, t, frontFace := other.p, other.normal, other.t, other.frontFace;
    }
  }

  /** The default `Hittable::hit`: reports no hit and, having no `modifies`
      clause, leaves `rec` untouched. */
  method DefaultHit(r: Ray, rayT: Interval, rec: Hit) returns (hit: bool)
    ensures !hit
  {
    hit := false;
  }
}
