/**
 * The closed-form part of the geometry kernel in `PhysicsManager`: local
 * bounds of a vertex set, the sphere/sphere and sphere/box tests, and the
 * analytic ray/sphere query of `PhysicsSphere`.
 */
module Geometry {
  import opened Vectors
  import opened Wrappers

  datatype Bounds = Bounds(min: Vec3, max: Vec3)

  /** Each component of `b` is the same component of one of the vertices. */
  ghost predicate Attained(b: Vec3, vertices: seq<Vec3>)
  {
    && (exists i :: 0 <= i < |vertices| && vertices[i].x == b.x)
    && (exists i :: 0 <= i < |vertices| && vertices[i].y == b.y)
    && (exists i :: 0 <= i < |vertices| && vertices[i].z == b.z)
  }

  /** The bounds `b` widened to take in the vertex `v`. */
  function Extend(b: Bounds, v: Vec3): Bounds
  {
    Bounds(MinV(b.min, v), MaxV(b.max, v))
  }

  /** The bounds `b` widened by every vertex of `vs`, front to back. */
  function BoundsFold(b: Bounds, vs: seq<Vec3>): Bounds
    decreases |vs|
  {
    if |vs| == 0 then b else Extend(BoundsFold(b, vs[..|vs| - 1]), vs[|vs| - 1])
  }

  /** The bounds of a vertex array: both bounds start at the first vertex, then fold in every vertex. */
  function LocalBounds(vs: seq<Vec3>): Option<Bounds>
  {
    if |vs| == 0 then None else Some(BoundsFold(Bounds(vs[0], vs[0]), vs))
  }

  /**
   * `ComputeLocalBounds`: a componentwise min/max reduction. The source
   * reads `vertices[0]` first and so fails on an empty array; here that is
   * the `None` result.
   */
  method ComputeLocalBounds(vertices: seq<Vec3>) returns (r: Option<Bounds>)
    ensures r.None? <==> |vertices| == 0
    ensures r.Some? ==> forall i :: 0 <= i < |vertices| ==>
      LessEq(r.value.min, vertices[i]) && LessEq(vertices[i], r.value.max)
    ensures r.Some? ==> Attained(r.value.min, vertices) && Attained(r.value.max, vertices)
    ensures r == LocalBounds(vertices)
  {
    if |vertices| == 0 {
      return None;
    }
    var minBound, maxBound := vertices[0], vertices[0];
    ghost var lx, ly, lz, hx, hy, hz := 0, 0, 0, 0, 0, 0;
    var k := 0;
    while k < |vertices|
      invariant 0 <= k <= |vertices|
      invariant forall i :: 0 <= i < k ==> LessEq(minBound, vertices[i]) && LessEq(vertices[i], maxBound)
      invariant 0 <= lx < |vertices| && vertices[lx].x == minBound.x
      invariant 0 <= ly < |vertices| && vertices[ly].y == minBound.y
      invariant 0 <= lz < |vertices| && vertices[lz].z == minBound.z
      invariant 0 <= hx < |vertices| && vertices[hx].x == maxBound.x
      invariant 0 <= hy < |vertices| && vertices[hy].y == maxBound.y
      invariant 0 <= hz < |vertices| && vertices[hz].z == maxBound.z
      invariant Bounds(minBound, maxBound) == BoundsFold(Bounds(vertices[0], vertices[0]), vertices[..k])
    {
      assert vertices[..k + 1][..k] == vertices[..k];
      var vertex := vertices[k];
      if vertex.x < minBound.x { lx := k; }
      if vertex.y < minBound.y { ly := k; }
      if vertex.z < minBound.z { lz := k; }
      if vertex.x > maxBound.x { hx := k; }
      if vertex.y > maxBound.y { hy := k; }
      if vertex.z > maxBound.z { hz := k; }
      minBound := MinV(minBound, vertex);
      maxBound := MaxV(maxBound, vertex);
      k := k + 1;
    }
    assert vertices[..k] == vertices;
    return Some(Bounds(minBound, maxBound));
  }

  /** `SphereSphereIntersect`: squared centre distance against the squared radius sum. */
  predicate SphereSphereIntersect(pos1: Vec3, radius1: real, pos2: Vec3, radius2: real)
  {
    var r := radius1 + radius2;
    SqrMagnitude(Sub(pos1, pos2)) < r * r
  }

  /** Swapping the two spheres does not change the answer. */
  lemma SphereSphereSymmetric(pos1: Vec3, radius1: real, pos2: Vec3, radius2: real)
    ensures SphereSphereIntersect(pos1, radius1, pos2, radius2)
        == SphereSphereIntersect(pos2, radius2, pos1, radius1)
  {
    assert SqrMagnitude(Sub(pos1, pos2)) == SqrMagnitude(Sub(pos2, pos1));
  }

  /**
   * With `dist` the centre distance and non-negative radii, the test is
   * `dist < radius1 + radius2`: spheres that only touch do not intersect.
   */
  lemma SphereSphereByDistance(pos1: Vec3, radius1: real, pos2: Vec3, radius2: real, dist: real)
    requires dist >= 0.0 && dist * dist == SqrMagnitude(Sub(pos1, pos2))
    requires radius1 + radius2 >= 0.0
    ensures SphereSphereIntersect(pos1, radius1, pos2, radius2) <==> dist < radius1 + radius2
    ensures dist == radius1 + radius2 ==> !SphereSphereIntersect(pos1, radius1, pos2, radius2)
  {
    SquareLessIff(dist, radius1 + radius2);
  }

  /** The box-local closest point: each coordinate clamped to `[-e_i, e_i]`. */
  function BoxClamp(localCenter: Vec3, extents: Vec3): Vec3
  {
    Vec3(Clamp(localCenter.x, -extents.x, extents.x),
         Clamp(localCenter.y, -extents.y, extents.y),
         Clamp(localCenter.z, -extents.z, extents.z))
  }

  /** The loop of `SphereOBBIntersect` and `SphereOBBCollision` that builds `closestPoint`. */
  method ClosestPoint(localCenter: Vec3, localExtents: Vec3) returns (closestPoint: Vec3)
    ensures forall i :: 0 <= i < 3 ==>
      Get(closestPoint, i) == Clamp(Get(localCenter, i), -Get(localExtents, i), Get(localExtents, i))
    ensures closestPoint == BoxClamp(localCenter, localExtents)
  {
    var dir := localCenter;
    closestPoint := Zero();
    for i := 0 to 3
      invariant forall k :: 0 <= k < i ==>
        Get(closestPoint, k) == Clamp(Get(dir, k), -Get(localExtents, k), Get(localExtents, k))
    {
      closestPoint := With(closestPoint, i, Clamp(Get(dir, i), -Get(localExtents, i), Get(localExtents, i)));
    }
    assert closestPoint == Vec3(Get(closestPoint, 0), Get(closestPoint, 1), Get(closestPoint, 2));
  }

  predicate InBox(p: Vec3, extents: Vec3)
  {
    LessEq(Neg(extents), p) && LessEq(p, extents)
  }

  lemma ClampNearest(c: real, lo: real, hi: real, q: real)
    requires lo <= q <= hi
    ensures lo <= Clamp(c, lo, hi) <= hi
    ensures (Clamp(c, lo, hi) - c) * (Clamp(c, lo, hi) - c) <= (q - c) * (q - c)
  {
    var p := Clamp(c, lo, hi);
    if c < lo {
      SquareLessIff(q - c, p - c);
    } else if c > hi {
      SquareLessIff(c - q, c - p);
      SquareNegate(c - p, p - c);
      SquareNegate(c - q, q - c);
    }
  }

  lemma SquareNegate(x: real, y: real)
    requires y == -x
    ensures x * x == y * y
  {
  }

  /**
   * For a box with non-negative extents the clamped point lies in the box
   * and no point of the box is nearer to the centre.
   */
  lemma BoxClampIsClosest(localCenter: Vec3, extents: Vec3, q: Vec3)
    requires InBox(q, extents)
    ensures InBox(BoxClamp(localCenter, extents), extents)
    ensures SqrMagnitude(Sub(BoxClamp(localCenter, extents), localCenter))
         <= SqrMagnitude(Sub(q, localCenter))
  {
    var d, e := Sub(BoxClamp(localCenter, extents), localCenter), Sub(q, localCenter);
    ClampNearest(localCenter.x, -extents.x, extents.x, q.x);
    ClampNearest(localCenter.y, -extents.y, extents.y, q.y);
    ClampNearest(localCenter.z, -extents.z, extents.z, q.z);
    SumOfThree(d.x * d.x, d.y * d.y, d.z * d.z, e.x * e.x, e.y * e.y, e.z * e.z);
  }

  lemma SumOfThree(a1: real, a2: real, a3: real, b1: real, b2: real, b3: real)
    requires a1 <= b1 && a2 <= b2 && a3 <= b3
    ensures a1 + a2 + a3 <= b1 + b2 + b3
  {
  }

  /** The box-local test of `SphereOBBIntersect`. */
  predicate LocalSphereHitsBox(localCenter: Vec3, localRadius: real, extents: Vec3)
  {
    SqrMagnitude(Sub(BoxClamp(localCenter, extents), localCenter)) < localRadius * localRadius
  }

  /** A sphere whose centre is inside the box always intersects it. */
  lemma CentreInsideHits(localCenter: Vec3, localRadius: real, extents: Vec3)
    requires InBox(localCenter, extents)
    requires localRadius > 0.0
    ensures LocalSphereHitsBox(localCenter, localRadius, extents)
  {
    assert BoxClamp(localCenter, extents) == localCenter;
    ZeroGap(localCenter, localRadius, localRadius);
  }

  lemma ZeroGap(c: Vec3, a: real, b: real)
    requires a > 0.0 && b > 0.0
    ensures SqrMagnitude(Sub(c, c)) < a * b
  {
    MulPositive(a, b);
    ZeroBelow(c, a * b);
  }

  lemma ZeroBelow(c: Vec3, bound: real)
    requires bound > 0.0
    ensures SqrMagnitude(Sub(c, c)) < bound
  {
    assert SqrMagnitude(Sub(c, c)) == 0.0;
  }

  /**
   * A sphere whose centre lies beyond either face of any axis `i` of the
   * box by more than its radius misses it.
   */
  lemma FarOnOneAxisMisses(localCenter: Vec3, localRadius: real, extents: Vec3, i: nat)
    requires i < 3 && localRadius >= 0.0 && Get(extents, i) >= 0.0
    requires || Get(localCenter, i) > Get(extents, i) + localRadius
             || Get(localCenter, i) < -Get(extents, i) - localRadius
    ensures !LocalSphereHitsBox(localCenter, localRadius, extents)
  {
    var d := Sub(BoxClamp(localCenter, extents), localCenter);
    assert Get(d, i) == Clamp(Get(localCenter, i), -Get(extents, i), Get(extents, i)) - Get(localCenter, i);
    FarGap(Get(localCenter, i), Get(extents, i), localRadius);
    AxisBelowSqrMagnitude(d, i);
  }

  /** On one axis: a coordinate beyond `[-e, e]` by more than `r` is more than `r` from its clamp. */
  lemma FarGap(c: real, e: real, r: real)
    requires r >= 0.0 && e >= 0.0 && (c > e + r || c < -e - r)
    ensures (Clamp(c, -e, e) - c) * (Clamp(c, -e, e) - c) > r * r
  {
    var g := Clamp(c, -e, e) - c;
    SquareLessIff(r, Abs(g));
    SquareNegate(g, -g);
  }

  /** No coordinate's square exceeds the squared length. */
  lemma AxisBelowSqrMagnitude(d: Vec3, i: nat)
    requires i < 3
    ensures Get(d, i) * Get(d, i) <= SqrMagnitude(d)
  {
    SquareNonNegative(d.x);
    SquareNonNegative(d.y);
    SquareNonNegative(d.z);
  }

  datatype RayHit = Miss | Hit(distance: real, point: Vec3)

  /** `Ray.GetPoint`. */
  function GetPoint(origin: Vec3, direction: Vec3, t: real): Vec3
  {
    Add(origin, Scale(direction, t))
  }

  /**
   * `PhysicsSphere.CheckRaycast`: no hit when the centre lies behind the
   * ray origin or farther from the ray than the radius.
   */
  function CheckRaycast(center: Vec3, radius: real, origin: Vec3, direction: Vec3, num: Numerics): RayHit
  {
    var dir := Sub(center, origin);
    var dirDotRay := Dot(dir, direction);
    if dirDotRay < 0.0 then Miss
    else
      var centerOnRay := GetPoint(origin, direction, dirDotRay);
      var dist := Distance(center, centerOnRay, num);
      if dist > radius then Miss
      else
        var insideSphereOffset := num.sqrt(radius * radius - dist * dist);
        var distance := dirDotRay - insideSphereOffset;
        Hit(distance, GetPoint(origin, direction, distance))
  }

  /** The two early exits, and a hit otherwise. */
  lemma RaycastExits(center: Vec3, radius: real, origin: Vec3, direction: Vec3, num: Numerics)
    ensures Dot(Sub(center, origin), direction) < 0.0 ==> CheckRaycast(center, radius, origin, direction, num) == Miss
    ensures var t := Dot(Sub(center, origin), direction);
      t >= 0.0 ==>
        (CheckRaycast(center, radius, origin, direction, num).Miss? <==>
         Distance(center, GetPoint(origin, direction, t), num) > radius)
  {
  }

  /**
   * A ray along a unit direction that passes through the centre hits a
   * sphere of non-negative radius, a radius short of the centre.
   */
  lemma RaycastThroughCentre(center: Vec3, radius: real, origin: Vec3, direction: Vec3, t: real, num: Numerics)
    requires SqrMagnitude(direction) == 1.0 && t >= 0.0
    requires center == GetPoint(origin, direction, t)
    requires radius >= 0.0 && num.sqrt(0.0) == 0.0
    ensures CheckRaycast(center, radius, origin, direction, num)
         == Hit(t - num.sqrt(radius * radius), GetPoint(origin, direction, t - num.sqrt(radius * radius)))
  {
    var dir := Sub(center, origin);
    assert dir == Scale(direction, t);
    assert Dot(dir, direction) == t * SqrMagnitude(direction);
    assert GetPoint(origin, direction, Dot(dir, direction)) == center;
    assert Sub(center, center) == Zero();
  }
}
