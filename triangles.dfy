/**
 * The triangle/triangle test of `PhysicsManager` (the interval method of
 * Moeller's "A Fast Triangle-Triangle Intersection Test"): classify one
 * triangle against the other's plane, project the two chords onto the
 * dominant axis of the planes' line of intersection, and overlap the two
 * intervals.
 */
module Triangles {
  import opened Vectors
  import opened Wrappers

  /** A world-space triangle: the tuple `(A, B, C)`. */
  datatype Triangle = Triangle(a: Vec3, b: Vec3, c: Vec3)

  /** A pair of points: the tuple `(Vector3, Vector3)` of `Item1`, `Item2`. */
  datatype Segment = Segment(first: Vec3, second: Vec3)

  /** The scalar interval `Vector2(x, y)` on the dominant axis. */
  datatype Interval = Interval(x: real, y: real)

  /** `UnityEngine.Plane`: a normal and a signed offset. */
  datatype Plane = Plane(normal: Vec3, distance: real)

  /** `new Plane(a, b, c)`: normal `Normalize(Cross(b - a, c - a))` through `a`. */
  function PlaneThrough(t: Triangle, num: Numerics): (p: Plane)
    ensures p.normal == Normalize(Cross(Sub(t.b, t.a), Sub(t.c, t.a)), num)
    ensures DistanceToPoint(p, t.a) == 0.0
  {
    var n := Normalize(Cross(Sub(t.b, t.a), Sub(t.c, t.a)), num);
    Plane(n, -Dot(n, t.a))
  }

  /** `Plane.GetDistanceToPoint`. */
  function DistanceToPoint(p: Plane, q: Vec3): real
  {
    Dot(p.normal, q) + p.distance
  }

  /** The three signed distances `(d1, d2, d3)` of a triangle's corners. */
  function CornerDistances(p: Plane, t: Triangle): Vec3
  {
    Vec3(DistanceToPoint(p, t.a), DistanceToPoint(p, t.b), DistanceToPoint(p, t.c))
  }

  /** The `PlaneIntersection` enumeration: `TRUE`, `FALSE` and `COPLANAR`. */
  datatype PlaneIntersection = Crosses | Misses | Coplanar

  /** `eps + 0.0f` in `TestPlanes`. */
  const CoplanarEpsilon: real := 0.001

  predicate NearPlane(d: Vec3)
  {
    Abs(d.x) < CoplanarEpsilon && Abs(d.y) < CoplanarEpsilon && Abs(d.z) < CoplanarEpsilon
  }

  predicate SameSide(d: Vec3)
  {
    Sign(d.x) == Sign(d.y) && Sign(d.y) == Sign(d.z)
  }

  /** The decision of `TestPlanes` on the three distances. */
  function Classify(d: Vec3): PlaneIntersection
  {
    if NearPlane(d) then Coplanar
    else if Abs(Sign(d.x) + Sign(d.y) + Sign(d.z)) == 3.0 then Misses
    else Crosses
  }

  /**
   * `|Sign(d1) + Sign(d2) + Sign(d3)| == 3` exactly when the three signs
   * agree; a zero distance counts as positive.
   */
  lemma ClassifyMeaning(d: Vec3)
    ensures Classify(d) == Coplanar <==> NearPlane(d)
    ensures Classify(d) == Misses <==> !NearPlane(d) && SameSide(d)
    ensures Classify(d) == Crosses <==> !NearPlane(d) && !SameSide(d)
  {
  }

  /** The outcome of `TestPlanes` with its two `ref` arguments. */
  datatype PlaneTest = PlaneTest(result: PlaneIntersection, distances: Vec3, normal: Vec3)

  /**
   * `TestPlanes(a1, b1, c1, a2, b2, c2, ref distances, ref normal)`: the
   * second triangle against the first one's plane. A coplanar answer
   * leaves both references alone, a one-sided answer has stored the
   * distances only, and a crossing answer has stored both.
   */
  function TestPlanes(t1: Triangle, t2: Triangle, distances: Vec3, normal: Vec3, num: Numerics): (r: PlaneTest)
    ensures r.result == Classify(CornerDistances(PlaneThrough(t1, num), t2))
    ensures r.result == Coplanar ==> r.distances == distances
    ensures r.result != Coplanar ==> r.distances == CornerDistances(PlaneThrough(t1, num), t2)
    ensures r.normal == (if r.result == Crosses then PlaneThrough(t1, num).normal else normal)
  {
    var plane := PlaneThrough(t1, num);
    var d := CornerDistances(plane, t2);
    if NearPlane(d) then PlaneTest(Coplanar, distances, normal)
    else if Abs(Sign(d.x) + Sign(d.y) + Sign(d.z)) == 3.0 then PlaneTest(Misses, d, normal)
    else PlaneTest(Crosses, d, plane.normal)
  }

  /** `p + (q - p) * k`. */
  function Lerp(p: Vec3, q: Vec3, k: real): Vec3
  {
    Add(p, Scale(Sub(q, p), k))
  }

  lemma GetLerp(p: Vec3, q: Vec3, k: real, i: nat, t: real)
    requires i < 3 && t == Get(p, i) + (Get(q, i) - Get(p, i)) * k
    ensures t == Get(Lerp(p, q, k), i)
  {
  }

  /** With `k = dp / (dp - dq)`, the distance interpolated along the edge vanishes. */
  lemma CrossingParameter(dp: real, dq: real, k: real)
    requires dp != dq && k == dp / (dp - dq)
    ensures dp + (dq - dp) * k == 0.0
  {
    assert k * (dp - dq) == dp;
  }

  /**
   * `CheckLineSegment(a1, b1, c1, Did, d, out T)`: the points where the
   * edges `a-b` and `c-b` cross the other plane, and their coordinates on
   * axis `did`. The division is defined because `b` is the corner on its
   * own side of the plane.
   */
  function CheckLineSegment(t: Triangle, did: nat, d: Vec3): (r: (Interval, Segment))
    requires did < 3 && d.x != d.y && d.z != d.y
    ensures r.0.x == Get(r.1.first, did) && r.0.y == Get(r.1.second, did)
  {
    var interp1 := d.x / (d.x - d.y);
    var interp2 := d.z / (d.z - d.y);
    var t1 := Get(t.a, did) + (Get(t.b, did) - Get(t.a, did)) * interp1;
    var t2 := Get(t.c, did) + (Get(t.b, did) - Get(t.c, did)) * interp2;
    GetLerp(t.a, t.b, interp1, did, t1);
    GetLerp(t.c, t.b, interp2, did, t2);
    (Interval(t1, t2), Segment(Lerp(t.a, t.b, interp1), Lerp(t.c, t.b, interp2)))
  }

  /**
   * The two points lie on the edges `a-b` and `c-b`, where the signed
   * distance, interpolated linearly along the edge, is zero.
   */
  lemma CheckLineSegmentCrossings(t: Triangle, did: nat, d: Vec3)
    requires did < 3 && d.x != d.y && d.z != d.y
    ensures var k := d.x / (d.x - d.y);
      CheckLineSegment(t, did, d).1.first == Lerp(t.a, t.b, k) && d.x + (d.y - d.x) * k == 0.0
    ensures var k := d.z / (d.z - d.y);
      CheckLineSegment(t, did, d).1.second == Lerp(t.c, t.b, k) && d.z + (d.y - d.z) * k == 0.0
  {
    CrossingParameter(d.x, d.y, d.x / (d.x - d.y));
    CrossingParameter(d.z, d.y, d.z / (d.z - d.y));
  }

  /**
   * The rotation of the corners that puts the corner alone on its side of
   * the plane in the middle, with the distances rotated alike.
   */
  function Straddle(t: Triangle, d: Vec3): (r: (Triangle, Vec3))
    ensures || r == (t, d)
            || r == (Triangle(t.c, t.a, t.b), Vec3(d.z, d.x, d.y))
            || r == (Triangle(t.b, t.c, t.a), Vec3(d.y, d.z, d.x))
    ensures !SameSide(d) ==> Sign(r.1.y) != Sign(r.1.x) && Sign(r.1.y) != Sign(r.1.z)
  {
    if Sign(d.y) == Sign(d.z) then (Triangle(t.c, t.a, t.b), Vec3(d.z, d.x, d.y))
    else if Sign(d.x) == Sign(d.y) then (Triangle(t.b, t.c, t.a), Vec3(d.y, d.z, d.x))
    else (t, d)
  }

  /** The swap block: the interval is put in order, its two points with it. */
  function OrderInterval(s: Interval, pts: Segment): (r: (Interval, Segment))
    ensures r.0.x <= r.0.y
    ensures || r == (s, pts)
            || r == (Interval(s.y, s.x), Segment(pts.second, pts.first))
    ensures s.x <= s.y ==> r == (s, pts)
  {
    if s.x > s.y then (Interval(s.y, s.x), Segment(pts.second, pts.first)) else (s, pts)
  }

  /** Ordering keeps each endpoint scalar the axis coordinate of its point. */
  lemma OrderKeepsCoordinates(s: Interval, pts: Segment, did: nat)
    requires did < 3
    requires s.x == Get(pts.first, did) && s.y == Get(pts.second, did)
    ensures var r := OrderInterval(s, pts);
      r.0.x == Get(r.1.first, did) && r.0.y == Get(r.1.second, did)
  {
  }

  /** The index of the largest `|D[i]|`; the strict `<` keeps the lowest index on ties. */
  function ArgMaxAbs(v: Vec3): (i: nat)
    ensures i < 3
    ensures forall k :: 0 <= k < 3 ==> Abs(Get(v, k)) <= Abs(Get(v, i))
    ensures forall k :: 0 <= k < i ==> Abs(Get(v, k)) < Abs(Get(v, i))
  {
    if Abs(v.x) < Abs(v.y) then (if Abs(v.y) < Abs(v.z) then 2 else 1)
    else if Abs(v.x) < Abs(v.z) then 2
    else 0
  }

  /** The two properties of `ArgMaxAbs` pin the index down. */
  lemma ArgMaxAbsUnique(v: Vec3, i: nat)
    requires i < 3
    requires forall k :: 0 <= k < 3 ==> Abs(Get(v, k)) <= Abs(Get(v, i))
    requires forall k :: 0 <= k < i ==> Abs(Get(v, k)) < Abs(Get(v, i))
    ensures i == ArgMaxAbs(v)
  {
    var j := ArgMaxAbs(v);
    assert Abs(Get(v, j)) <= Abs(Get(v, i));
    assert Abs(Get(v, i)) <= Abs(Get(v, j));
  }

  /** The loop of `TriangleIntersection` that picks `Did`. */
  method DominantAxis(v: Vec3) returns (did: nat)
    ensures did == ArgMaxAbs(v)
  {
    var dmaxabs := Abs(v.x);
    did := 0;
    for i := 1 to 3
      invariant did < i
      invariant dmaxabs == Abs(Get(v, did))
      invariant forall k :: 0 <= k < i ==> Abs(Get(v, k)) <= dmaxabs
      invariant forall k :: 0 <= k < did ==> Abs(Get(v, k)) < dmaxabs
    {
      var dval := Abs(Get(v, i));
      if dmaxabs < dval {
        dmaxabs := dval;
        did := i;
      }
    }
    ArgMaxAbsUnique(v, did);
  }

  /** The ordered interval of one triangle and its two chord points. */
  function Chord(t: Triangle, did: nat, d: Vec3): (r: (Interval, Segment))
    requires did < 3 && Classify(d) == Crosses
    ensures r.0.x <= r.0.y
    ensures r.0.x == Get(r.1.first, did) && r.0.y == Get(r.1.second, did)
  {
    ClassifyMeaning(d);
    var (tri, dist) := Straddle(t, d);
    var (s, pts) := CheckLineSegment(tri, did, dist);
    OrderKeepsCoordinates(s, pts, did);
    OrderInterval(s, pts)
  }

  /** Everything `TriangleIntersection` has computed when it compares the intervals. */
  datatype Projection = Projection(did: nat, s0: Interval, pts0: Segment, s1: Interval, pts1: Segment)

  /** Each interval endpoint is its chord point's coordinate on the dominant axis. */
  predicate Projected(p: Projection)
    requires p.did < 3
  {
    && p.s0.x == Get(p.pts0.first, p.did) && p.s0.y == Get(p.pts0.second, p.did)
    && p.s1.x == Get(p.pts1.first, p.did) && p.s1.y == Get(p.pts1.second, p.did)
  }

  /** `None` when the test gives up before the interval comparison. */
  function Project(t1: Triangle, t2: Triangle, num: Numerics): (r: Option<Projection>)
    ensures r.Some? ==> r.value.did < 3
    ensures r.Some? ==> r.value.s0.x <= r.value.s0.y && r.value.s1.x <= r.value.s1.y
    ensures r.Some? ==> Projected(r.value)
    ensures r.Some? <==>
      Classify(CornerDistances(PlaneThrough(t1, num), t2)) == Crosses &&
      Classify(CornerDistances(PlaneThrough(t2, num), t1)) == Crosses
  {
    var test1 := TestPlanes(t1, t2, Zero(), Zero(), num);
    if test1.result != Crosses then None
    else
      var test2 := TestPlanes(t2, t1, Zero(), Zero(), num);
      if test2.result != Crosses then None
      else
        var did := ArgMaxAbs(Cross(test1.normal, test2.normal));
        var (s0, pts0) := Chord(t1, did, test2.distances);
        var (s1, pts1) := Chord(t2, did, test1.distances);
        Some(Projection(did, s0, pts0, s1, pts1))
  }

  /**
   * The answer of `TriangleIntersection` and the segment it stores in `L`
   * on success.
   */
  function Intersect(t1: Triangle, t2: Triangle, num: Numerics): Option<Segment>
  {
    match Project(t1, t2, num)
    case None => None
    case Some(p) =>
      if !(p.s0.x <= p.s1.y && p.s1.x <= p.s0.y) then None
      else
        Some(Segment(if p.s0.x < p.s1.x then p.pts1.first else p.pts0.first,
                     if p.s0.y < p.s1.y then p.pts0.second else p.pts1.second))
  }

  /**
   * A triangle pair intersects exactly when both plane tests cross and the
   * two closed intervals overlap; the segment found then runs, on the
   * dominant axis, from the larger start to the smaller end.
   */
  lemma IntersectMeaning(t1: Triangle, t2: Triangle, num: Numerics)
    ensures Intersect(t1, t2, num).Some? <==>
      Project(t1, t2, num).Some? &&
      var p := Project(t1, t2, num).value;
      p.s0.x <= p.s1.y && p.s1.x <= p.s0.y
    ensures Intersect(t1, t2, num).Some? ==>
      var p := Project(t1, t2, num).value;
      var l := Intersect(t1, t2, num).value;
      && Get(l.first, p.did) == Max(p.s0.x, p.s1.x)
      && Get(l.second, p.did) == Min(p.s0.y, p.s1.y)
      && Get(l.first, p.did) <= Get(l.second, p.did)
  {
  }

  /** A triangle entirely on one side of the other's plane, or coplanar with it, is never hit. */
  lemma OneSidedMisses(t1: Triangle, t2: Triangle, num: Numerics)
    requires || SameSide(CornerDistances(PlaneThrough(t1, num), t2))
             || SameSide(CornerDistances(PlaneThrough(t2, num), t1))
             || NearPlane(CornerDistances(PlaneThrough(t1, num), t2))
    ensures Intersect(t1, t2, num) == None
  {
    ClassifyMeaning(CornerDistances(PlaneThrough(t1, num), t2));
    ClassifyMeaning(CornerDistances(PlaneThrough(t2, num), t1));
  }

  /**
   * `TriangleIntersection(a1, b1, c1, a2, b2, c2, ref L)`. `L` is written
   * only on success.
   */
  method TriangleIntersection(t1: Triangle, t2: Triangle, l: Segment, num: Numerics) returns (hit: bool, l': Segment)
    ensures hit <==> Intersect(t1, t2, num).Some?
    ensures hit ==> l' == Intersect(t1, t2, num).value
    ensures !hit ==> l' == l
  {
    l' := l;
    var test1 := TestPlanes(t1, t2, Zero(), Zero(), num);
    if test1.result == Misses {
      return false, l';
    }
    if test1.result == Coplanar {
      // `TriangleIntersection2D` reports no intersection.
      return false, l';
    }
    var test2 := TestPlanes(t2, t1, Zero(), Zero(), num);
    if test2.result == Misses {
      return false, l';
    }
    if test2.result == Coplanar {
      // The code goes on with zero distances; both interpolation factors are
      // 0/0, and the comparisons on the resulting NaN interval all fail.
      return false, l';
    }
    var did := DominantAxis(Cross(test1.normal, test2.normal));
    ClassifyMeaning(test2.distances);
    ClassifyMeaning(test1.distances);
    // Put the corner that is alone on its side of the plane in the middle.
    var tri0, d0 := Straddle(t1, test2.distances).0, Straddle(t1, test2.distances).1;
    var s0, pts0 := CheckLineSegment(tri0, did, d0).0, CheckLineSegment(tri0, did, d0).1;
    if s0.x > s0.y {
      s0 := Interval(s0.y, s0.x);
      pts0 := Segment(pts0.second, pts0.first);
    }
    var tri1, d1 := Straddle(t2, test1.distances).0, Straddle(t2, test1.distances).1;
    var s1, pts1 := CheckLineSegment(tri1, did, d1).0, CheckLineSegment(tri1, did, d1).1;
    if s1.x > s1.y {
      s1 := Interval(s1.y, s1.x);
      pts1 := Segment(pts1.second, pts1.first);
    }
    if !(s0.x <= s1.y && s1.x <= s0.y) {
      return false, l';
    }
    var first := if s0.x < s1.x then pts1.first else pts0.first;
    var second := if s0.y < s1.y then pts0.second else pts1.second;
    return true, Segment(first, second);
  }
}
