/** A sphere and its ray intersection test (the half-`b` form of the quadratic). */
module Spheres {
  import opened Numeric
  import opened Vector
  import opened Rays
  import opened Intervals
  import Hits

  datatype Sphere = Sphere(center: Vec3, radius: real)

  /** `Sphere::new`: the centre as given, a negative radius floored to 0. */
  function New(center: Vec3, radius: real): (s: Sphere)
    ensures s.center == center && 0.0 <= s.radius
    ensures 0.0 <= radius ==> s.radius == radius
    ensures radius < 0.0 ==> s.radius == 0.0
  {
    Sphere(center, if radius < 0.0 then 0.0 else radius)
  }

  /** The coefficients of `a t^2 - 2 h t + c = 0` for the ray against the sphere. */
  datatype Quadratic = Quadratic(a: real, h: real, c: real)

  /** The coefficients, with the corrected inner product for `h`. */
  function Coefficients(s: Sphere, r: Ray): Quadratic {
    var oc := Vector.Sub(s.center, r.origin);
    Quadratic(LengthSquared(r.direction), InnerProduct(r.direction, oc),
              LengthSquared(oc) - s.radius * s.radius)
  }

  /** The coefficients as `Sphere::hit` computes them, `h` through `dot` as
      written. */
  function CoefficientsAsWritten(s: Sphere, r: Ray): Quadratic {
    var oc := Vector.Sub(s.center, r.origin);
    Quadratic(LengthSquared(r.direction), Dot(r.direction, oc),
              LengthSquared(oc) - s.radius * s.radius)
  }

  function Discriminant(q: Quadratic): real {
    q.h * q.h - q.a * q.c
  }

  /** `(h - sqrtd) / a`, tried first. */
  function NearRoot(q: Quadratic, sqrt: real -> real): Float {
    Quotient(q.h - sqrt(Discriminant(q)), q.a)
  }

  /** `(h + sqrtd) / a`, tried when the near root is not surrounded. */
  function FarRoot(q: Quadratic, sqrt: real -> real): Float {
    Quotient(q.h + sqrt(Discriminant(q)), q.a)
  }

  /** `(p - center) / radius`. The source divides by zero for a radius-0
      sphere; the model keeps `p - center` there. */
  function OutwardNormal(s: Sphere, p: Vec3): Vec3 {
    if s.radius != 0.0 then DivScalar(Vector.Sub(p, s.center), s.radius)
    else Vector.Sub(p, s.center)
  }

  /** The record written for an accepted root `t`: every field is overwritten. */
  function Fill(s: Sphere, r: Ray, t: real): (rec: Hits.HitRecord)
    ensures rec.t == t && rec.p == At(r, t)
    ensures var n := OutwardNormal(s, At(r, t));
      rec.frontFace == Hits.IsFrontFace(r, n) && rec.normal == (if rec.frontFace then n else Neg(n))
  {
    var p := At(r, t);
    var n := OutwardNormal(s, p);
    Hits.WithFaceNormal(Hits.HitRecord(p, n, t, false), r, n)
  }

  /** What `Sphere::hit` reports: `None` for `false`, or the record it writes. */
  function Query(s: Sphere, r: Ray, rayT: Interval, sqrt: real -> real): (res: Option<Hits.HitRecord>)
    ensures res.Some? ==> Surrounds(rayT, Finite(res.value.t)) && res.value == Fill(s, r, res.value.t)
    ensures Discriminant(Coefficients(s, r)) < 0.0 ==> res.None?
  {
    var q := Coefficients(s, r);
    if Discriminant(q) < 0.0 then None
    else
      var root := if Surrounds(rayT, NearRoot(q, sqrt)) then NearRoot(q, sqrt) else FarRoot(q, sqrt);
      if Surrounds(rayT, root) then Some(Fill(s, r, root.val)) else None
  }

  /** `Sphere::hit`: writes `rec` only when it returns true. */
  method Hit(s: Sphere, r: Ray, rayT: Interval, rec: Hits.Hit, sqrt: real -> real) returns (hit: bool)
    modifies rec
    ensures hit <==> Query(s, r, rayT, sqrt).Some?
    ensures hit ==> rec.Value() == Query(s, r, rayT, sqrt).value
    ensures !hit ==> rec.Value() == old(rec.Value())
  {
    var q := Coefficients(s, r);
    var discriminant := Discriminant(q);
    if discriminant < 0.0 {
      return false;
    }
    var sqrtd := sqrt(discriminant);
    var root := Quotient(q.h - sqrtd, q.a);
    if !Surrounds(rayT, root) {
      root := Quotient(q.h + sqrtd, q.a);
      if !Surrounds(rayT, root) {
        return false;
      }
    }
    rec.t := root.val;
    rec.p := At(r, rec.t);
    rec.normal := OutwardNormal(s, rec.p);
    var outwardNormal := OutwardNormal(s, rec.p);
    ghost var before := rec.Value();
    rec.SetFaceNormal(r, outwardNormal);
    assert rec.Value() == Hits.WithFaceNormal(before, r, outwardNormal);
    assert before.(frontFace := false) == Hits.HitRecord(At(r, root.val), outwardNormal, root.val, false);
    return true;
  }

  lemma DivideMonotone(x: real, y: real, a: real)
    requires 0.0 < a && x <= y
    ensures x / a <= y / a
  {
    assert y / a - x / a == (y - x) / a;
  }

  /** The near root never lies beyond the far root. */
  lemma NearNotBeyondFar(q: Quadratic, sqrt: real -> real)
    requires IsSqrt(sqrt)
    requires 0.0 <= q.a && 0.0 <= Discriminant(q)
    ensures NearRoot(q, sqrt).Finite? <==> FarRoot(q, sqrt).Finite?
    ensures NearRoot(q, sqrt).Finite? ==> NearRoot(q, sqrt).val <= FarRoot(q, sqrt).val
  {
    var d := sqrt(Discriminant(q));
    assert 0.0 <= d;
    if q.a != 0.0 {
      DivideMonotone(q.h - d, q.h + d, q.a);
    }
  }

  /** `Sphere::hit` accepts the smallest root the interval surrounds: it fails
      exactly when the discriminant is negative or neither root is
      surrounded, and otherwise reports a surrounded root that no surrounded
      root undercuts. */
  lemma {:induction false} QueryTakesNearestRoot(s: Sphere, r: Ray, rayT: Interval, sqrt: real -> real)
    requires IsSqrt(sqrt)
    ensures var q := Coefficients(s, r);
      var res := Query(s, r, rayT, sqrt);
      (res.None? <==> (Discriminant(q) < 0.0
         || (!Surrounds(rayT, NearRoot(q, sqrt)) && !Surrounds(rayT, FarRoot(q, sqrt)))))
      && (res.Some? ==>
            (Finite(res.value.t) == NearRoot(q, sqrt) || Finite(res.value.t) == FarRoot(q, sqrt))
            && (Surrounds(rayT, NearRoot(q, sqrt)) ==> res.value.t <= NearRoot(q, sqrt).val)
            && (Surrounds(rayT, FarRoot(q, sqrt)) ==> res.value.t <= FarRoot(q, sqrt).val))
  {
    var q := Coefficients(s, r);
    if 0.0 <= Discriminant(q) {
      NearNotBeyondFar(q, sqrt);
    }
  }

  /** Shrinking the interval's upper end to `hi2` keeps a hit that still lies
      below `hi2` and drops every other. */
  lemma {:induction false} QueryNarrowing(s: Sphere, r: Ray, lo: Float, hi: Float, hi2: Float, sqrt: real -> real)
    requires IsSqrt(sqrt)
    requires Le(hi2, hi)
    ensures Query(s, r, Interval(lo, hi2), sqrt)
         == match Query(s, r, Interval(lo, hi), sqrt)
            case Some(rec) => if Lt(Finite(rec.t), hi2) then Some(rec) else None
            case None => None
  {
    var q := Coefficients(s, r);
    if 0.0 <= Discriminant(q) {
      NearNotBeyondFar(q, sqrt);
      var near, far := NearRoot(q, sqrt), FarRoot(q, sqrt);
      var wide, narrow := Interval(lo, hi), Interval(lo, hi2);
      assert Surrounds(narrow, near) ==> Surrounds(wide, near);
      assert Surrounds(narrow, far) ==> Surrounds(wide, far);
    }
  }

  /** The two coefficient sets share `a` and `c` and differ in `h` exactly
      where `dot` and the inner product differ on the direction and
      `center - origin` (see `DotVersusInnerProduct`). */
  lemma AsWrittenDiffersOnlyInH(s: Sphere, r: Ray)
    ensures var q, q' := CoefficientsAsWritten(s, r), Coefficients(s, r);
      var oc := Vector.Sub(s.center, r.origin);
      q.a == q'.a && q.c == q'.c
      && (q.h == q'.h <==> Dot(r.direction, oc) == InnerProduct(r.direction, oc))
  {
  }

  /** The sphere of radius 1 at `(0, 0, -2)` (the small sphere of the demo
      scene scaled by 2) and the ray from the origin towards its centre. */
  function CentreSphere(): Sphere {
    Sphere(Vec3(0.0, 0.0, -2.0), 1.0)
  }

  function CentreRay(): Ray {
    Ray(Zero(), Vec3(0.0, 0.0, -1.0))
  }

  lemma CentreCoefficients()
    ensures CoefficientsAsWritten(CentreSphere(), CentreRay()) == Quadratic(1.0, -3.0, 3.0)
    ensures Coefficients(CentreSphere(), CentreRay()) == Quadratic(1.0, 2.0, 3.0)
  {
    assert Vector.Sub(CentreSphere().center, CentreRay().origin) == Vec3(0.0, 0.0, -2.0);
  }

  /** With `dot` as written, a ray from the origin straight at the centre of
      that sphere misses it: `h` comes out as -3 instead of 2, and both roots
      are negative, so neither lies in `(0.001, +inf)`. */
  lemma CentreRayMissesAsWritten(sqrt: real -> real)
    requires IsSqrt(sqrt)
    ensures var q := CoefficientsAsWritten(CentreSphere(), CentreRay());
      0.0 <= Discriminant(q)
      && !Surrounds(From(Finite(0.001), PosInf), NearRoot(q, sqrt))
      && !Surrounds(From(Finite(0.001), PosInf), FarRoot(q, sqrt))
  {
    CentreCoefficients();
    SqrtBelowThree(sqrt);
    MissedRoots(sqrt);
  }

  lemma MissedRoots(sqrt: real -> real)
    requires 0.0 <= sqrt(6.0) < 3.0
    ensures var q := Quadratic(1.0, -3.0, 3.0);
      0.0 <= Discriminant(q)
      && !Surrounds(From(Finite(0.001), PosInf), NearRoot(q, sqrt))
      && !Surrounds(From(Finite(0.001), PosInf), FarRoot(q, sqrt))
  {
    assert Discriminant(Quadratic(1.0, -3.0, 3.0)) == 6.0;
  }

  /** Squaring keeps the order of non-negative reals. */
  lemma SquareOrder(a: real, b: real)
    requires 0.0 <= a && 0.0 <= b
    ensures a < b ==> a * a < b * b
  {
    if a < b {
      var e := b - a;
      assert b * b == a * a + 2.0 * a * e + e * e;
      assert 0.0 <= a * e && 0.0 < e * e;
    }
  }

  lemma SqrtBelowThree(sqrt: real -> real)
    requires IsSqrt(sqrt)
    ensures 0.0 <= sqrt(6.0) < 3.0
  {
    var d := sqrt(6.0);
    assert 0.0 <= d && d * d == 6.0;
    SquareOrder(3.0, d);
  }

  lemma SqrtOne(sqrt: real -> real)
    requires IsSqrt(sqrt)
    ensures sqrt(1.0) == 1.0
  {
    var d := sqrt(1.0);
    assert d * d == 1.0 && 0.0 <= d;
    SquareOrder(d, 1.0);
    SquareOrder(1.0, d);
  }

  /** With the corrected inner product the same ray hits the front of that
      sphere at `t = 1`, at the point `(0, 0, -1)`, where the normal points
      back along the ray. */
  lemma CentreRayHits(sqrt: real -> real)
    requires IsSqrt(sqrt)
    ensures var res := Query(CentreSphere(), CentreRay(), From(Finite(0.001), PosInf), sqrt);
      res.Some? && res.value.t == 1.0 && res.value.p == Vec3(0.0, 0.0, -1.0)
      && res.value.frontFace && res.value.normal == Vec3(0.0, 0.0, 1.0)
  {
    CentreCoefficients();
    SqrtOne(sqrt);
    HitRoot(CentreSphere(), CentreRay(), sqrt);
    CentreFill();
  }

  lemma HitRoot(s: Sphere, r: Ray, sqrt: real -> real)
    requires sqrt(1.0) == 1.0 && Coefficients(s, r) == Quadratic(1.0, 2.0, 3.0)
    ensures Query(s, r, From(Finite(0.001), PosInf), sqrt) == Some(Fill(s, r, 1.0))
  {
    var q := Quadratic(1.0, 2.0, 3.0);
    assert Discriminant(q) == 1.0;
    assert NearRoot(q, sqrt) == Finite(1.0);
  }

  lemma CentreFill()
    ensures var rec := Fill(CentreSphere(), CentreRay(), 1.0);
      rec.p == Vec3(0.0, 0.0, -1.0) && rec.frontFace && rec.normal == Vec3(0.0, 0.0, 1.0)
  {
    assert At(CentreRay(), 1.0) == Vec3(0.0, 0.0, -1.0);
    assert OutwardNormal(CentreSphere(), Vec3(0.0, 0.0, -1.0)) == Vec3(0.0, 0.0, 1.0);
  }
}
