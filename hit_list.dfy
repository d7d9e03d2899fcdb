/** `HitList`: a list of objects, searched for the closest hit by narrowing
    the acceptance interval after every success. */
module HitLists {
  import opened Numeric
  import opened Rays
  import opened Intervals
  import Hits
  import Spheres

  /** The objects a list can hold: a sphere, or a bare `Hit`, whose `hit` is the
      default that never reports anything. */
  datatype Hittable = SphereObject(sphere: Spheres.Sphere) | RecordObject

  /** What `hit` on one object reports for the interval `rayT`. */
  function ObjectQuery(o: Hittable, r: Ray, rayT: Interval, sqrt: real -> real): (res: Option<Hits.HitRecord>)
    ensures res.Some? ==> Surrounds(rayT, Finite(res.value.t))
    ensures o.RecordObject? ==> res.None?
    ensures res.Some? ==> res.value == Spheres.Fill(o.sphere, r, res.value.t)
  {
    match o
    case SphereObject(s) => Spheres.Query(s, r, rayT, sqrt)
    case RecordObject => None
  }

  /** Dispatch of `obj.hit(r, ray_t, rec)` on the object's kind. */
  method ObjectHit(o: Hittable, r: Ray, rayT: Interval, rec: Hits.Hit, sqrt: real -> real) returns (hit: bool)
    modifies rec
    ensures hit <==> ObjectQuery(o, r, rayT, sqrt).Some?
    ensures hit ==> rec.Value() == ObjectQuery(o, r, rayT, sqrt).value
    ensures !hit ==> rec.Value() == old(rec.Value())
  {
    match o
    case SphereObject(s) =>
      hit := Spheres.Hit(s, r, rayT, rec, sqrt);
    case RecordObject =>
      hit := Hits.DefaultHit(r, rayT, rec);
  }

  /** The upper bound the loop uses after a prefix: the `t` of the latest
      accepted record, or `ray_t.max` while nothing has been accepted. */
  function Closest(found: Option<Hits.HitRecord>, rayT: Interval): Float {
    if found.Some? then Finite(found.value.t) else rayT.max
  }

  /** The record the loop of `HitList::hit` holds after the objects in
      `objects`: each object is asked with `[ray_t.min, closest_so_far]`, and
      a success replaces the record. Every record it keeps lies strictly
      inside `rayT`, and it holds none exactly when no object reports a hit
      on the whole of `rayT`. */
  function Scan(objects: seq<Hittable>, r: Ray, rayT: Interval, sqrt: real -> real): (res: Option<Hits.HitRecord>)
    ensures res.Some? ==> Surrounds(rayT, Finite(res.value.t))
    ensures res.None? <==> forall i :: 0 <= i < |objects| ==> ObjectQuery(objects[i], r, rayT, sqrt).None?
  {
    if objects == [] then None
    else
      var prev := Scan(objects[..|objects| - 1], r, rayT, sqrt);
      var last := objects[|objects| - 1];
      match ObjectQuery(last, r, From(rayT.min, Closest(prev, rayT)), sqrt)
      case Some(rec) => Some(rec)
      case None => prev
  }

  /** One more object: its answer on the narrowed interval replaces the
      record, or the record stays. */
  lemma ScanStep(objects: seq<Hittable>, i: nat, r: Ray, rayT: Interval, sqrt: real -> real)
    requires i < |objects|
    ensures var prev := Scan(objects[..i], r, rayT, sqrt);
      Scan(objects[..i + 1], r, rayT, sqrt)
        == match ObjectQuery(objects[i], r, From(rayT.min, Closest(prev, rayT)), sqrt)
           case Some(rec) => Some(rec)
           case None => prev
  {
    assert objects[..i + 1][..i] == objects[..i];
  }

  /** The loop's record is the one some sphere of the list fills in for its
      own `t`: the point `at(t)` and that sphere's outward normal, oriented
      against the ray. */
  lemma {:induction false} ScanFills(objects: seq<Hittable>, r: Ray, rayT: Interval, sqrt: real -> real)
    ensures var res := Scan(objects, r, rayT, sqrt);
      res.Some? ==> exists i :: 0 <= i < |objects| && objects[i].SphereObject? && res.value == Spheres.Fill(objects[i].sphere, r, res.value.t)
  {
    if objects != [] {
      var n := |objects| - 1;
      var init := objects[..n];
      ScanFills(init, r, rayT, sqrt);
      var prev := Scan(init, r, rayT, sqrt);
      var res := ObjectQuery(objects[n], r, From(rayT.min, Closest(prev, rayT)), sqrt);
      if res.Some? {
        assert objects[n].SphereObject?;
      } else if prev.Some? {
        var i :| 0 <= i < n && init[i].SphereObject? && prev.value == Spheres.Fill(init[i].sphere, r, prev.value.t);
        assert objects[i] == init[i];
      }
    }
  }

  /** What every object reports on the whole of `rayT`, in list order. */
  function Reports(objects: seq<Hittable>, r: Ray, rayT: Interval, sqrt: real -> real): (rs: seq<Option<Hits.HitRecord>>)
    ensures |rs| == |objects|
    ensures forall i :: 0 <= i < |objects| ==> rs[i] == ObjectQuery(objects[i], r, rayT, sqrt)
  {
    seq(|objects|, i requires 0 <= i < |objects| => ObjectQuery(objects[i], r, rayT, sqrt))
  }

  /** The reference selection: among the reported records, the one with the
      smallest `t`, the earliest winning a tie. It holds none exactly when
      nothing is reported. */
  function Nearest(rs: seq<Option<Hits.HitRecord>>): (res: Option<Hits.HitRecord>)
    ensures res.None? <==> forall i :: 0 <= i < |rs| ==> rs[i].None?
  {
    if rs == [] then None
    else
      var n := |rs| - 1;
      var prev := Nearest(rs[..n]);
      assert forall j :: 0 <= j < n ==> rs[..n][j] == rs[j];
      if rs[n].Some? && (prev.None? || rs[n].value.t < prev.value.t) then rs[n]
      else prev
  }

  /** Entry `k` is `rec`; no entry holds a smaller `t`, and every entry before
      `k` that holds a record holds a larger one. */
  ghost predicate IsFirstMinimum(rs: seq<Option<Hits.HitRecord>>, k: int, rec: Hits.HitRecord) {
    0 <= k < |rs| && rs[k] == Some(rec)
    && (forall j :: 0 <= j < |rs| && rs[j].Some? ==> rec.t <= rs[j].value.t)
    && (forall j :: 0 <= j < k && rs[j].Some? ==> rec.t < rs[j].value.t)
  }

  /** `Nearest` picks the first entry with the smallest `t`. */
  lemma {:induction false} NearestIsFirstMinimum(rs: seq<Option<Hits.HitRecord>>)
    ensures Nearest(rs).Some? ==> exists k :: IsFirstMinimum(rs, k, Nearest(rs).value)
  {
    if rs != [] {
      var n := |rs| - 1;
      var init := rs[..n];
      assert forall j :: 0 <= j < n ==> init[j] == rs[j];
      var prev := Nearest(init);
      NearestIsFirstMinimum(init);
      if rs[n].Some? && (prev.None? || rs[n].value.t < prev.value.t) {
        if prev.Some? {
          var k :| IsFirstMinimum(init, k, prev.value);
        }
        assert IsFirstMinimum(rs, n, rs[n].value);
      } else if prev.Some? {
        var k :| IsFirstMinimum(init, k, prev.value);
        assert IsFirstMinimum(rs, k, prev.value);
      }
    }
  }

  /** Narrowing the upper bound of the interval an object is asked with keeps
      the object's answer when it still lies below the new bound. */
  lemma ObjectNarrowing(o: Hittable, r: Ray, rayT: Interval, hi: Float, sqrt: real -> real)
    requires IsSqrt(sqrt)
    requires Le(hi, rayT.max)
    ensures ObjectQuery(o, r, From(rayT.min, hi), sqrt)
         == match ObjectQuery(o, r, rayT, sqrt)
            case Some(rec) => if Lt(Finite(rec.t), hi) then Some(rec) else None
            case None => None
  {
    if o.SphereObject? {
      Spheres.QueryNarrowing(o.sphere, r, rayT.min, rayT.max, hi, sqrt);
    }
  }

  /** The loop of `HitList::hit` selects the nearest hit over the whole
      interval, the first object winning a tie. */
  lemma {:induction false} ScanIsNearest(objects: seq<Hittable>, r: Ray, rayT: Interval, sqrt: real -> real)
    requires IsSqrt(sqrt)
    ensures Scan(objects, r, rayT, sqrt) == Nearest(Reports(objects, r, rayT, sqrt))
  {
    if objects != [] {
      var n := |objects| - 1;
      ScanIsNearest(objects[..n], r, rayT, sqrt);
      assert Reports(objects, r, rayT, sqrt)[..n] == Reports(objects[..n], r, rayT, sqrt);
      var prev := Scan(objects[..n], r, rayT, sqrt);
      if prev.Some? {
        ObjectNarrowing(objects[n], r, rayT, Finite(prev.value.t), sqrt);
      } else {
        assert From(rayT.min, Closest(prev, rayT)) == rayT;
      }
    }
  }

  /** A list of objects, updated in place by `add` and `clear`. */
  class HitList {
    var objects: seq<Hittable>

    /** `HitList::new`. */
    constructor New()
      ensures objects == []
    {
      objects := [];
    }

    /** `HitList::from`: a list of one object. */
    constructor From(obj: Hittable)
      ensures objects == [obj]
    {
      objects := [obj];
    }

    method Clear()
      modifies this
      ensures objects == []
    {
      objects := [];
    }

    /** Appends at the end; the objects already held keep their order. */
    method Add(obj: Hittable)
      modifies this
      ensures objects == old(objects) + [obj]
    {
      objects := objects + [obj];
    }

    /** `HitList::hit`: true exactly when some object reports a hit on
        `rayT`; `rec` then holds the nearest one and is left alone otherwise. */
    method Hit(r: Ray, rayT: Interval, rec: Hits.Hit, sqrt: real -> real) returns (hitAnything: bool)
      modifies rec
      ensures hitAnything <==> Scan(objects, r, rayT, sqrt).Some?
      ensures hitAnything ==> rec.Value() == Scan(objects, r, rayT, sqrt).value
      ensures !hitAnything ==> rec.Value() == old(rec.Value())
    {
      hitAnything := false;
      var closestSoFar := rayT.max;
      var tempRec := new Hits.Hit();
      var i := 0;
      while i < |objects|
        invariant 0 <= i <= |objects|
        invariant hitAnything <==> Scan(objects[..i], r, rayT, sqrt).Some?
        invariant closestSoFar == Closest(Scan(objects[..i], r, rayT, sqrt), rayT)
        invariant hitAnything ==> rec.Value() == Scan(objects[..i], r, rayT, sqrt).value
        invariant !hitAnything ==> rec.Value() == old(rec.Value())
      {
        ScanStep(objects, i, r, rayT, sqrt);
        var ok := ObjectHit(objects[i], r, Intervals.From(rayT.min, closestSoFar), tempRec, sqrt);
        if ok {
          hitAnything := true;
          closestSoFar := Finite(tempRec.t);
          rec.Assign(tempRec);
        }
        i := i + 1;
      }
      assert objects[..i] == objects;
    }
  }
}
