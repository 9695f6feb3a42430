/**
 * The narrow phase: the pair routines of `PhysicsManager`, the
 * `HandleCollision` overloads of the three shapes, and the double
 * dispatch that picks a routine for a pair of bodies.
 *
 * Each routine is a method on `Body` objects, proved against a pure
 * outcome on `Snapshot` values: the states both bodies end in.
 */
module Collisions {
  import opened Vectors
  import opened Wrappers
  import opened Geometry
  import opened Triangles
  import opened Dynamics
  import opened Separation
  import opened Bodies

  // Sphere against sphere

  /** The contact `PhysicsSphere.HandleCollision(PhysicsSphere)` builds, its normal from A towards B. */
  function SphereSphereContact(posA: Vec3, radiusA: real, posB: Vec3, radiusB: real, num: Numerics): (c: Contact)
    ensures c.norm == Normalize(Sub(posB, posA), num)
    ensures c.overlapDist == radiusA + radiusB - Distance(posA, posB, num)
  {
    var norm := Normalize(Sub(posB, posA), num);
    Contact(norm, radiusA + radiusB - Distance(posA, posB, num), Add(posA, Scale(norm, radiusA)), Sub(posB, Scale(norm, radiusB)))
  }

  lemma SqrMagnitudeSymmetric(a: Vec3, b: Vec3)
    ensures SqrMagnitude(Sub(a, b)) == SqrMagnitude(Sub(b, a))
  {
  }

  lemma DivScale(d: Vec3, m: real)
    requires m != 0.0
    ensures Scale(Div(d, m), m) == d
  {
    assert (d.x / m) * m == d.x && (d.y / m) * m == d.y && (d.z / m) * m == d.z;
  }

  lemma ScaleDifference(n: Vec3, p: real, q: real)
    ensures Sub(Scale(n, p), Scale(n, q)) == Scale(n, -(q - p))
  {
    assert n.x * p - n.x * q == n.x * -(q - p);
    assert n.y * p - n.y * q == n.y * -(q - p);
    assert n.z * p - n.z * q == n.z * -(q - p);
  }

  /**
   * With an exact square root and a non-negative radius sum the overlap is
   * positive exactly when the spheres intersect. For centres more than
   * `kEpsilon` apart the normal times the distance is the centre offset,
   * so B's contact point lies `overlapDist` behind A's along the normal.
   */
  lemma SphereSphereContactMeaning(posA: Vec3, radiusA: real, posB: Vec3, radiusB: real, num: Numerics)
    requires radiusA + radiusB >= 0.0
    requires var q := SqrMagnitude(Sub(posA, posB)); num.sqrt(q) >= 0.0 && num.sqrt(q) * num.sqrt(q) == q
    ensures var c := SphereSphereContact(posA, radiusA, posB, radiusB, num);
      && (c.overlapDist > 0.0 <==> SphereSphereIntersect(posA, radiusA, posB, radiusB))
      && (Distance(posA, posB, num) > VectorEpsilon ==>
            && Scale(c.norm, Distance(posA, posB, num)) == Sub(posB, posA)
            && Sub(c.contactB, c.contactA) == Scale(c.norm, -c.overlapDist))
  {
    var c := SphereSphereContact(posA, radiusA, posB, radiusB, num);
    var dist := Distance(posA, posB, num);
    SphereSphereByDistance(posA, radiusA, posB, radiusB, dist);
    if dist > VectorEpsilon {
      SqrMagnitudeSymmetric(posA, posB);
      assert Magnitude(Sub(posB, posA), num) == dist;
      DivScale(Sub(posB, posA), dist);
      assert Sub(c.contactB, c.contactA) == Sub(Sub(posB, posA), Add(Scale(c.norm, radiusA), Scale(c.norm, radiusB)));
      assert Add(Scale(c.norm, radiusA), Scale(c.norm, radiusB)) == Scale(c.norm, radiusA + radiusB);
      ScaleDifference(c.norm, dist, radiusA + radiusB);
    }
  }

  /** Both bodies' states after sphere `a` handles sphere `b`. */
  function SphereSphereOutcome(a: Snapshot, b: Snapshot, num: Numerics): (RigidState, RigidState)
    requires SnapshotValid(a) && SnapshotValid(b)
  {
    var pa, pb := a.state.position, b.state.position;
    if SphereSphereIntersect(pa, a.shape.radius, pb, b.shape.radius) then
      Resolve(a.state, b.state, SphereSphereContact(pa, a.shape.radius, pb, b.shape.radius, num), num)
    else (a.state, b.state)
  }

  /** `PhysicsSphere.HandleCollision(PhysicsSphere)`, run by `self` on `other`. */
  method SphereSphereCollision(self: Body, other: Body, num: Numerics)
    requires self != other && self.Valid() && other.Valid()
    modifies self`position, self`velocity, self`angularVelocity
    modifies other`position, other`velocity, other`angularVelocity
    ensures (self.State(), other.State()) == SphereSphereOutcome(old(self.Snap()), old(other.Snap()), num)
  {
    if SphereSphereIntersect(self.position, self.shape.radius, other.position, other.shape.radius) {
      var dist := Distance(self.position, other.position, num);
      var norm := Normalize(Sub(other.position, self.position), num);
      var contactInfo := Contact(norm, self.shape.radius + other.shape.radius - dist,
        Add(self.position, Scale(norm, self.shape.radius)), Sub(other.position, Scale(norm, other.shape.radius)));
      self.ResolveCollision(other, contactInfo, num);
    }
  }

  // Sphere against oriented box

  /** Half the cube's local bounding box, the extents both sphere/box routines clamp to. */
  function LocalExtents(shape: Shape): Vec3
  {
    Scale(Sub(shape.maxBound, shape.minBound), 0.5)
  }

  /** `SphereOBBIntersect`: the sphere, moved and scaled into the box's frame, reaches the box. */
  predicate SphereBoxHit(center: Vec3, radius: real, box: Pose, shape: Shape)
    requires PositiveScale(box)
  {
    LocalSphereHitsBox(InverseTransformPoint(box, center), radius / box.scale.x, LocalExtents(shape))
  }

  /**
   * The contact of `SphereOBBCollision`: the box-local normal towards the
   * clamped point, turned to world space; `contactA` is that normal times
   * the local radius, `contactB` the clamped point, both through the box's
   * transform; the overlap is the radius less the world distance from the
   * centre to the clamped point.
   */
  function SphereBoxContact(center: Vec3, radius: real, box: Pose, shape: Shape, num: Numerics): (r: Option<Contact>)
    requires PositiveScale(box)
    ensures r.Some? <==> SphereBoxHit(center, radius, box, shape)
  {
    var localCenter := InverseTransformPoint(box, center);
    var localRadius := radius / box.scale.x;
    var closestPoint := BoxClamp(localCenter, LocalExtents(shape));
    var dirToContact := Sub(closestPoint, localCenter);
    if SqrMagnitude(dirToContact) < localRadius * localRadius then
      var norm := Normalize(dirToContact, num);
      Some(Contact(Rotate(box.rotation, norm),
                   radius - Distance(TransformPoint(box, closestPoint), center, num),
                   TransformPoint(box, Scale(norm, localRadius)),
                   TransformPoint(box, closestPoint)))
    else None
  }

  /**
   * For a box whose bounds are ordered, a contact's `contactB` is the box
   * point nearest the sphere's centre (in the box's frame), and a sphere
   * of positive radius whose centre is inside the box always has one.
   */
  lemma SphereBoxContactMeaning(center: Vec3, radius: real, box: Pose, shape: Shape, num: Numerics)
    requires PositiveScale(box) && LessEq(shape.minBound, shape.maxBound)
    ensures var localCenter := InverseTransformPoint(box, center);
      var r := SphereBoxContact(center, radius, box, shape, num);
      && (r.Some? ==>
            exists q :: (&& InBox(q, LocalExtents(shape))
                         && r.value.contactB == TransformPoint(box, q)
                         && forall p :: InBox(p, LocalExtents(shape)) ==>
                              SqrMagnitude(Sub(q, localCenter)) <= SqrMagnitude(Sub(p, localCenter))))
      && (InBox(localCenter, LocalExtents(shape)) && radius > 0.0 ==> r.Some?)
  {
    var localCenter := InverseTransformPoint(box, center);
    var e := LocalExtents(shape);
    var q := BoxClamp(localCenter, e);
    assert InBox(Zero(), e);
    BoxClampIsClosest(localCenter, e, Zero());
    forall p | InBox(p, e)
      ensures SqrMagnitude(Sub(q, localCenter)) <= SqrMagnitude(Sub(p, localCenter))
    {
      BoxClampIsClosest(localCenter, e, p);
    }
    if InBox(localCenter, e) && radius > 0.0 {
      var localRadius := radius / box.scale.x;
      assert localRadius > 0.0;
      CentreInsideHits(localCenter, localRadius, e);
    }
  }

  /** Both bodies' states after `SphereOBBCollision(sphere, obb)`. */
  function SphereBoxOutcome(sphere: Snapshot, obb: Snapshot, num: Numerics): (RigidState, RigidState)
    requires SnapshotValid(sphere) && SnapshotValid(obb)
  {
    match SphereBoxContact(sphere.state.position, sphere.shape.radius, obb.Pose(), obb.shape, num)
    case None => (sphere.state, obb.state)
    case Some(c) => Resolve(sphere.state, obb.state, c, num)
  }

  /** `SphereOBBIntersect(posSphere, radius, obb)`. */
  method SphereOBBIntersect(posSphere: Vec3, radius: real, obb: Body) returns (hit: bool)
    requires obb.Valid()
    ensures hit == SphereBoxHit(posSphere, radius, obb.Pose(), obb.shape)
  {
    var localCenter := InverseTransformPoint(obb.Pose(), posSphere);
    var localRadius := radius / obb.scale.x;
    var localExtents := Scale(Sub(obb.shape.maxBound, obb.shape.minBound), 0.5);
    var closestPoint := ClosestPoint(localCenter, localExtents);
    var dirToContact := Sub(closestPoint, localCenter);
    hit := SqrMagnitude(dirToContact) < localRadius * localRadius;
  }

  /** `SphereOBBCollision(sphere, obb)`. */
  method SphereOBBCollision(sphere: Body, obb: Body, num: Numerics)
    requires sphere != obb && sphere.Valid() && obb.Valid()
    modifies sphere`position, sphere`velocity, sphere`angularVelocity
    modifies obb`position, obb`velocity, obb`angularVelocity
    ensures (sphere.State(), obb.State()) == SphereBoxOutcome(old(sphere.Snap()), old(obb.Snap()), num)
  {
    var localCenter := InverseTransformPoint(obb.Pose(), sphere.position);
    var localRadius := sphere.shape.radius / obb.scale.x;
    var localExtents := Scale(Sub(obb.shape.maxBound, obb.shape.minBound), 0.5);
    var closestPoint := ClosestPoint(localCenter, localExtents);
    var dirToContact := Sub(closestPoint, localCenter);
    if SqrMagnitude(dirToContact) < localRadius * localRadius {
      var norm := Normalize(dirToContact, num);
      var contactA := Scale(norm, localRadius);
      var contactB := closestPoint;
      var contactInfo := Contact(Rotate(obb.rotation, norm),
        sphere.shape.radius - Distance(TransformPoint(obb.Pose(), closestPoint), sphere.position, num),
        TransformPoint(obb.Pose(), contactA),
        TransformPoint(obb.Pose(), contactB));
      assert SphereBoxContact(sphere.position, sphere.shape.radius, obb.Pose(), obb.shape, num) == Some(contactInfo);
      sphere.ResolveCollision(obb, contactInfo, num);
    } else {
      assert localExtents == LocalExtents(obb.shape);
      assert !LocalSphereHitsBox(localCenter, localRadius, localExtents);
      assert !SphereBoxHit(sphere.position, sphere.shape.radius, obb.Pose(), obb.shape);
    }
  }

  // Box against box

  /** Both bodies' states after cube `a` handles cube `b`: the separating-axis contact, if any, resolved. */
  function BoxBoxOutcome(a: Snapshot, b: Snapshot, num: Numerics): (RigidState, RigidState)
    requires SnapshotValid(a) && SnapshotValid(b) && a.kind == Cube && b.kind == Cube
  {
    match BoxBoxContact(a.Pose(), a.shape.extents, b.Pose(), b.shape.extents, num)
    case None => (a.state, b.state)
    case Some(c) => Resolve(a.state, b.state, c, num)
  }

  /** `PhysicsCube.HandleCollision(PhysicsCube)`, run by `self` on `other`. */
  method BoxBoxCollision(self: Body, other: Body, num: Numerics)
    requires self != other && self.Valid() && other.Valid() && self.kind == Cube && other.kind == Cube
    modifies self`position, self`velocity, self`angularVelocity
    modifies other`position, other`velocity, other`angularVelocity
    ensures (self.State(), other.State()) == BoxBoxOutcome(old(self.Snap()), old(other.Snap()), num)
  {
    var contact := BoxBoxContact(self.Pose(), self.shape.extents, other.Pose(), other.shape.extents, num);
    match contact
    case None =>
    case Some(contactInfo) =>
      self.ResolveCollision(other, contactInfo, num);
  }

  // Mesh against mesh

  /** What the inner loop of `MeshCollision` finds for one triangle: the segment of the first triangle it meets. */
  function FirstHit(t1: Triangle, tris2: seq<Triangle>, num: Numerics): Option<Segment>
    decreases |tris2|
  {
    if |tris2| == 0 then None
    else match Intersect(t1, tris2[0], num)
      case Some(l) => Some(l)
      case None => FirstHit(t1, tris2[1..], num)
  }

  /** Skipping a prefix of triangles that all miss does not change the first hit. */
  lemma {:induction false} FirstHitSkip(t1: Triangle, tris2: seq<Triangle>, k: nat, num: Numerics)
    requires k <= |tris2|
    requires forall m :: 0 <= m < k ==> Intersect(t1, tris2[m], num).None?
    ensures FirstHit(t1, tris2, num) == FirstHit(t1, tris2[k..], num)
  {
    if k > 0 {
      assert Intersect(t1, tris2[0], num).None?;
      assert forall m :: 0 <= m < k - 1 ==> tris2[1..][m] == tris2[m + 1];
      FirstHitSkip(t1, tris2[1..], k - 1, num);
      assert tris2[1..][k - 1..] == tris2[k..];
    }
  }

  /** The first hit is missing exactly when the triangle meets none of the others. */
  lemma {:induction false} FirstHitNoneIff(t1: Triangle, tris2: seq<Triangle>, num: Numerics)
    ensures FirstHit(t1, tris2, num).None? <==> forall m :: 0 <= m < |tris2| ==> Intersect(t1, tris2[m], num).None?
    decreases |tris2|
  {
    if |tris2| > 0 {
      FirstHitNoneIff(t1, tris2[1..], num);
      assert forall m :: 0 <= m < |tris2| - 1 ==> tris2[1..][m] == tris2[m + 1];
      if Intersect(t1, tris2[0], num).None? && forall m :: 1 <= m < |tris2| ==> Intersect(t1, tris2[m], num).None? {
        assert forall m :: 0 <= m < |tris2| ==> Intersect(t1, tris2[m], num).None? by {
          forall m | 0 <= m < |tris2|
            ensures Intersect(t1, tris2[m], num).None?
          {
            if m > 0 {
              assert tris2[m] == tris2[1..][m - 1];
            }
          }
        }
      }
    }
  }

  /** A hit is the segment of the lowest-index triangle the first one meets. */
  lemma FirstHitAt(t1: Triangle, tris2: seq<Triangle>, k: nat, num: Numerics)
    requires k < |tris2| && Intersect(t1, tris2[k], num).Some?
    requires forall m :: 0 <= m < k ==> Intersect(t1, tris2[m], num).None?
    ensures FirstHit(t1, tris2, num) == Intersect(t1, tris2[k], num)
  {
    FirstHitSkip(t1, tris2, k, num);
    assert tris2[k..][0] == tris2[k];
  }

  /** The contact `MeshCollision` builds from a hit: both points at the segment's midpoint, a fixed overlap. */
  function MeshContact(l: Segment, posA: Vec3, posB: Vec3, num: Numerics): (c: Contact)
    ensures c.contactA == c.contactB == Scale(Add(l.first, l.second), 0.5)
    ensures c.overlapDist == 0.005
    ensures c.norm == Normalize(Sub(posB, posA), num)
  {
    var midpoint := Scale(Add(l.first, l.second), 0.5);
    Contact(Normalize(Sub(posB, posA), num), 0.005, midpoint, midpoint)
  }

  /** One resolution of `MeshCollision`: the normal from the bodies' present positions. */
  function MeshStep(s: (RigidState, RigidState), l: Segment, num: Numerics): (RigidState, RigidState)
    requires s.0.mass > 0.0 && s.1.mass > 0.0
  {
    Resolve(s.0, s.1, MeshContact(l, s.0.position, s.1.position, num), num)
  }

  /** The pair after one pass of the inner loop of `MeshCollision` for the triangle `t1`. */
  function TriangleOutcome(s: (RigidState, RigidState), t1: Triangle, tris2: seq<Triangle>, num: Numerics): (r: (RigidState, RigidState))
    requires s.0.mass > 0.0 && s.1.mass > 0.0
    ensures r.0.mass == s.0.mass && r.0.inertiaTensor == s.0.inertiaTensor
    ensures r.1.mass == s.1.mass && r.1.inertiaTensor == s.1.inertiaTensor
  {
    match FirstHit(t1, tris2, num)
    case None => s
    case Some(l) => MeshStep(s, l, num)
  }

  /**
   * Both bodies' states after `MeshCollision` has gone through the
   * triangles `tris1` of the first: each triangle that meets one of the
   * second body's resolves once, at its first hit.
   */
  function MeshFold(tris1: seq<Triangle>, tris2: seq<Triangle>, a: RigidState, b: RigidState, num: Numerics): (r: (RigidState, RigidState))
    requires a.mass > 0.0 && b.mass > 0.0
    ensures r.0.mass == a.mass && r.0.inertiaTensor == a.inertiaTensor
    ensures r.1.mass == b.mass && r.1.inertiaTensor == b.inertiaTensor
    decreases |tris1|
  {
    if |tris1| == 0 then (a, b)
    else
      TriangleOutcome(MeshFold(tris1[..|tris1| - 1], tris2, a, b, num), tris1[|tris1| - 1], tris2, num)
  }

  /** How many resolutions `MeshCollision` performs: one per triangle of the first body that meets any of the second's. */
  function MeshResolutions(tris1: seq<Triangle>, tris2: seq<Triangle>, num: Numerics): nat
    decreases |tris1|
  {
    if |tris1| == 0 then 0
    else
      var hit := if FirstHit(tris1[|tris1| - 1], tris2, num).Some? then 1 else 0;
      MeshResolutions(tris1[..|tris1| - 1], tris2, num) + hit
  }

  /** The `break` leaves only the inner loop: at most one resolution per triangle of the first body. */
  lemma {:induction false} MeshResolutionsBound(tris1: seq<Triangle>, tris2: seq<Triangle>, num: Numerics)
    ensures MeshResolutions(tris1, tris2, num) <= |tris1|
    decreases |tris1|
  {
    if |tris1| > 0 {
      MeshResolutionsBound(tris1[..|tris1| - 1], tris2, num);
    }
  }

  /** Meshes whose triangles never meet leave both bodies as they were. */
  lemma {:induction false} MeshFoldNoHit(tris1: seq<Triangle>, tris2: seq<Triangle>, a: RigidState, b: RigidState, num: Numerics)
    requires a.mass > 0.0 && b.mass > 0.0
    requires forall i, k :: 0 <= i < |tris1| && 0 <= k < |tris2| ==> Intersect(tris1[i], tris2[k], num).None?
    ensures MeshFold(tris1, tris2, a, b, num) == (a, b)
    ensures MeshResolutions(tris1, tris2, num) == 0
    decreases |tris1|
  {
    if |tris1| > 0 {
      var init := tris1[..|tris1| - 1];
      assert forall i :: 0 <= i < |init| ==> init[i] == tris1[i];
      MeshFoldNoHit(init, tris2, a, b, num);
      FirstHitNoneIff(tris1[|tris1| - 1], tris2, num);
    }
  }

  /** However many resolutions the mesh test performs, the pair's linear momentum is unchanged. */
  lemma {:induction false} MeshFoldConservesMomentum(tris1: seq<Triangle>, tris2: seq<Triangle>, a: RigidState, b: RigidState, num: Numerics)
    requires a.mass > 0.0 && b.mass > 0.0
    ensures var r := MeshFold(tris1, tris2, a, b, num);
      Add(Momentum(r.0), Momentum(r.1)) == Add(Momentum(a), Momentum(b))
    decreases |tris1|
  {
    if |tris1| > 0 {
      var prev := MeshFold(tris1[..|tris1| - 1], tris2, a, b, num);
      MeshFoldConservesMomentum(tris1[..|tris1| - 1], tris2, a, b, num);
      match FirstHit(tris1[|tris1| - 1], tris2, num)
      case None =>
      case Some(l) =>
        ResolveConservesMomentum(prev.0, prev.1, MeshContact(l, prev.0.position, prev.1.position, num), num);
    }
  }

  /**
   * The inner loop of `MeshCollision` for the triangle `tri1`: the first
   * triangle of `tris2` it meets gives one resolution, and the loop stops.
   */
  method CollideTriangle(obj1: Body, obj2: Body, tri1: Triangle, tris2: array<Triangle>,
                         points: Segment, contactInfo: Contact, num: Numerics)
    returns (points': Segment, contactInfo': Contact, hit: bool)
    requires obj1 != obj2 && obj1.mass > 0.0 && obj2.mass > 0.0
    modifies obj1`position, obj1`velocity, obj1`angularVelocity
    modifies obj2`position, obj2`velocity, obj2`angularVelocity
    ensures hit <==> FirstHit(tri1, tris2[..], num).Some?
    ensures (obj1.State(), obj2.State()) == TriangleOutcome((old(obj1.State()), old(obj2.State())), tri1, tris2[..], num)
  {
    points', contactInfo', hit := points, contactInfo, false;
    var k := 0;
    while k < tris2.Length
      invariant 0 <= k <= tris2.Length && !hit
      invariant (obj1.State(), obj2.State()) == old((obj1.State(), obj2.State()))
      invariant forall m :: 0 <= m < k ==> Intersect(tri1, tris2[m], num).None?
    {
      hit, points' := TriangleIntersection(tri1, tris2[k], points', num);
      if hit {
        var midpoint := Scale(Add(points'.first, points'.second), 0.5);
        contactInfo' := contactInfo'.(contactA := midpoint, contactB := midpoint,
          norm := Normalize(Sub(obj2.position, obj1.position), num), overlapDist := 0.005);
        FirstHitAt(tri1, tris2[..], k, num);
        assert contactInfo' == MeshContact(points', obj1.position, obj2.position, num);
        obj1.ResolveCollision(obj2, contactInfo', num);
        break;
      }
      k := k + 1;
    }
    if !hit {
      FirstHitNoneIff(tri1, tris2[..], num);
    }
  }

  /**
   * `MeshCollision(obj1, obj2)`: every triangle of `obj1` in turn against
   * the triangles of `obj2`; the ghost count is the number of resolutions.
   */
  method MeshCollision(obj1: Body, obj2: Body, num: Numerics) returns (ghost resolutions: nat)
    requires obj1 != obj2 && obj1.mass > 0.0 && obj2.mass > 0.0
    modifies obj1`position, obj1`velocity, obj1`angularVelocity
    modifies obj2`position, obj2`velocity, obj2`angularVelocity
    ensures (obj1.State(), obj2.State())
         == MeshFold(obj1.triangles[..], obj2.triangles[..], old(obj1.State()), old(obj2.State()), num)
    ensures resolutions == MeshResolutions(obj1.triangles[..], obj2.triangles[..], num)
  {
    ghost var s1, s2 := obj1.State(), obj2.State();
    var tris1, tris2 := obj1.triangles, obj2.triangles;
    var points := Segment(Zero(), Zero());
    var contactInfo := EmptyContact();
    resolutions := 0;
    for i := 0 to tris1.Length
      invariant (obj1.State(), obj2.State()) == MeshFold(tris1[..i], tris2[..], s1, s2, num)
      invariant resolutions == MeshResolutions(tris1[..i], tris2[..], num)
    {
      assert tris1[..i + 1][..i] == tris1[..i];
      var hit;
      points, contactInfo, hit := CollideTriangle(obj1, obj2, tris1[i], tris2, points, contactInfo, num);
      if hit {
        resolutions := resolutions + 1;
      }
    }
    assert tris1[..tris1.Length] == tris1[..];
  }

  // The cone routines: a bounding-sphere prefilter, then the mesh test

  /** Both bodies' states after `SphereConeCollision(sphere, cone)`. */
  function SphereConeOutcome(sphere: Snapshot, cone: Snapshot, num: Numerics): (RigidState, RigidState)
    requires SnapshotValid(sphere) && SnapshotValid(cone)
  {
    if SphereSphereIntersect(sphere.state.position, sphere.shape.radius, cone.state.position, cone.shape.boundingSphereRadius)
    then MeshFold(sphere.triangles, cone.triangles, sphere.state, cone.state, num)
    else (sphere.state, cone.state)
  }

  /** Both bodies' states after `CubeConeCollision(cube, cone)`. */
  function CubeConeOutcome(cube: Snapshot, cone: Snapshot, num: Numerics): (RigidState, RigidState)
    requires SnapshotValid(cube) && SnapshotValid(cone)
  {
    if SphereBoxHit(cone.state.position, cone.shape.boundingSphereRadius, cube.Pose(), cube.shape)
    then MeshFold(cube.triangles, cone.triangles, cube.state, cone.state, num)
    else (cube.state, cone.state)
  }

  /** Both bodies' states after cone `a` handles cone `b`. */
  function ConeConeOutcome(a: Snapshot, b: Snapshot, num: Numerics): (RigidState, RigidState)
    requires SnapshotValid(a) && SnapshotValid(b)
  {
    if SphereSphereIntersect(a.state.position, a.shape.boundingSphereRadius, b.state.position, b.shape.boundingSphereRadius)
    then MeshFold(a.triangles, b.triangles, a.state, b.state, num)
    else (a.state, b.state)
  }

  /** `SphereConeCollision(sphere, cone)`. */
  method SphereConeCollision(sphere: Body, cone: Body, num: Numerics)
    requires sphere != cone && sphere.Valid() && cone.Valid()
    modifies sphere`position, sphere`velocity, sphere`angularVelocity
    modifies cone`position, cone`velocity, cone`angularVelocity
    ensures (sphere.State(), cone.State()) == SphereConeOutcome(old(sphere.Snap()), old(cone.Snap()), num)
  {
    if !SphereSphereIntersect(sphere.position, sphere.shape.radius, cone.position, cone.shape.boundingSphereRadius) {
      return;
    }
    var _ := MeshCollision(sphere, cone, num);
  }

  /** `CubeConeCollision(cube, cone)`. */
  method CubeConeCollision(cube: Body, cone: Body, num: Numerics)
    requires cube != cone && cube.Valid() && cone.Valid()
    modifies cube`position, cube`velocity, cube`angularVelocity
    modifies cone`position, cone`velocity, cone`angularVelocity
    ensures (cube.State(), cone.State()) == CubeConeOutcome(old(cube.Snap()), old(cone.Snap()), num)
  {
    var hit := SphereOBBIntersect(cone.position, cone.shape.boundingSphereRadius, cube);
    if !hit {
      return;
    }
    var _ := MeshCollision(cube, cone, num);
  }

  /** `PhysicsCone.HandleCollision(PhysicsCone)`, run by `self` on `other`. */
  method ConeConeCollision(self: Body, other: Body, num: Numerics)
    requires self != other && self.Valid() && other.Valid()
    modifies self`position, self`velocity, self`angularVelocity
    modifies other`position, other`velocity, other`angularVelocity
    ensures (self.State(), other.State()) == ConeConeOutcome(old(self.Snap()), old(other.Snap()), num)
  {
    if !SphereSphereIntersect(self.position, self.shape.boundingSphereRadius, other.position, other.shape.boundingSphereRadius) {
      return;
    }
    var _ := MeshCollision(self, other, num);
  }

  // Double dispatch

  /** The six pair routines. */
  datatype Routine = SphereSphere | SphereBox | SphereCone | BoxBox | CubeCone | ConeCone

  /** The kinds a routine's first and second participant must have. */
  function Kinds(r: Routine): (Kind, Kind)
  {
    match r
    case SphereSphere => (Sphere, Sphere)
    case SphereBox => (Sphere, Cube)
    case SphereCone => (Sphere, Cone)
    case BoxBox => (Cube, Cube)
    case CubeCone => (Cube, Cone)
    case ConeCone => (Cone, Cone)
  }

  /**
   * `caller.HandleCollision(callee)` with `callee` seen as a plain
   * `PhysicsObject`: the caller forwards to `callee.HandleCollision(caller)`
   * with its own static type, and that overload names the routine. The
   * flag says whether `callee` is the routine's first participant.
   *
   * Every routine gets participants of the kinds it expects, and two
   * bodies of the same kind run `callee`'s own overload on `caller`.
   */
  function Route(caller: Kind, callee: Kind): (r: (Routine, bool))
    ensures Kinds(r.0) == (if r.1 then (callee, caller) else (caller, callee))
    ensures caller == callee ==> r.1
  {
    match callee
    case Sphere =>
      (match caller
       case Sphere => (SphereSphere, true)
       case Cube => (SphereBox, true)
       case Cone => (SphereCone, true))
    case Cube =>
      (match caller
       case Sphere => (SphereBox, false)
       case Cube => (BoxBox, true)
       case Cone => (CubeCone, true))
    case Cone =>
      (match caller
       case Sphere => (SphereCone, false)
       case Cube => (CubeCone, false)
       case Cone => (ConeCone, true))
  }

  /**
   * Seen from either side the same routine runs with the same argument
   * order: a sphere/box pair calls `SphereOBBCollision(sphere, cube)`
   * whichever of the two starts the dispatch.
   */
  lemma RouteBothSides(x: Kind, y: Kind)
    requires x != y
    ensures Route(x, y).0 == Route(y, x).0
    ensures Route(x, y).1 == !Route(y, x).1
  {
  }

  /** Both bodies' states after a routine, its participants in the routine's order. */
  function Outcome(r: Routine, first: Snapshot, second: Snapshot, num: Numerics): (s: (RigidState, RigidState))
    requires SnapshotValid(first) && SnapshotValid(second)
    requires (first.kind, second.kind) == Kinds(r)
    ensures s.0.mass == first.state.mass && s.0.inertiaTensor == first.state.inertiaTensor
    ensures s.1.mass == second.state.mass && s.1.inertiaTensor == second.state.inertiaTensor
  {
    match r
    case SphereSphere => SphereSphereOutcome(first, second, num)
    case SphereBox => SphereBoxOutcome(first, second, num)
    case SphereCone => SphereConeOutcome(first, second, num)
    case BoxBox => BoxBoxOutcome(first, second, num)
    case CubeCone => CubeConeOutcome(first, second, num)
    case ConeCone => ConeConeOutcome(first, second, num)
  }

  /** Every routine conserves the pair's linear momentum. */
  lemma OutcomeConservesMomentum(r: Routine, first: Snapshot, second: Snapshot, num: Numerics)
    requires SnapshotValid(first) && SnapshotValid(second)
    requires (first.kind, second.kind) == Kinds(r)
    ensures var s := Outcome(r, first, second, num);
      Add(Momentum(s.0), Momentum(s.1)) == Add(Momentum(first.state), Momentum(second.state))
  {
    var a, b := first.state, second.state;
    match r
    case SphereSphere =>
      ResolveConservesMomentum(a, b, SphereSphereContact(a.position, first.shape.radius, b.position, second.shape.radius, num), num);
    case SphereBox =>
      var c := SphereBoxContact(a.position, first.shape.radius, second.Pose(), second.shape, num);
      if c.Some? {
        ResolveConservesMomentum(a, b, c.value, num);
      }
    case SphereCone =>
      MeshFoldConservesMomentum(first.triangles, second.triangles, a, b, num);
    case BoxBox =>
      var c := BoxBoxContact(first.Pose(), first.shape.extents, second.Pose(), second.shape.extents, num);
      if c.Some? {
        ResolveConservesMomentum(a, b, c.value, num);
      }
    case CubeCone =>
      MeshFoldConservesMomentum(first.triangles, second.triangles, a, b, num);
    case ConeCone =>
      MeshFoldConservesMomentum(first.triangles, second.triangles, a, b, num);
  }

  /**
   * The states `caller.HandleCollision(callee)` leaves the caller and the
   * callee in: the routine `Route` names, with its participants in the
   * routine's order.
   */
  function Dispatch(caller: Snapshot, callee: Snapshot, num: Numerics): (s: (RigidState, RigidState))
    requires SnapshotValid(caller) && SnapshotValid(callee)
    ensures s.0.mass == caller.state.mass && s.0.inertiaTensor == caller.state.inertiaTensor
    ensures s.1.mass == callee.state.mass && s.1.inertiaTensor == callee.state.inertiaTensor
  {
    var (r, calleeFirst) := Route(caller.kind, callee.kind);
    if calleeFirst then
      var o := Outcome(r, callee, caller, num);
      (o.1, o.0)
    else
      Outcome(r, caller, callee, num)
  }

  /** `caller.HandleCollision(callee)` keeps the pair's linear momentum. */
  lemma DispatchConservesMomentum(caller: Snapshot, callee: Snapshot, num: Numerics)
    requires SnapshotValid(caller) && SnapshotValid(callee)
    ensures var s := Dispatch(caller, callee, num);
      Add(Momentum(s.0), Momentum(s.1)) == Add(Momentum(caller.state), Momentum(callee.state))
  {
    var (r, calleeFirst) := Route(caller.kind, callee.kind);
    if calleeFirst {
      OutcomeConservesMomentum(r, callee, caller, num);
    } else {
      OutcomeConservesMomentum(r, caller, callee, num);
    }
  }

  /**
   * `caller.HandleCollision(callee)` as `objects[i].HandleCollision(objects[j])`
   * runs it: both bodies end in the routine's outcome, in the routine's
   * order of participants.
   */
  method HandleCollision(caller: Body, callee: Body, num: Numerics)
    requires caller != callee && caller.Valid() && callee.Valid()
    modifies caller`position, caller`velocity, caller`angularVelocity
    modifies callee`position, callee`velocity, callee`angularVelocity
    ensures (caller.State(), callee.State()) == Dispatch(old(caller.Snap()), old(callee.Snap()), num)
  {
    match callee.kind {
      case Sphere => HandleBySphere(caller, callee, num);
      case Cube => HandleByCube(caller, callee, num);
      case Cone => HandleByCone(caller, callee, num);
    }
  }

  /** The overloads of `PhysicsSphere.HandleCollision`, chosen by the caller's kind. */
  method HandleBySphere(caller: Body, callee: Body, num: Numerics)
    requires caller != callee && caller.Valid() && callee.Valid() && callee.kind == Sphere
    modifies caller`position, caller`velocity, caller`angularVelocity
    modifies callee`position, callee`velocity, callee`angularVelocity
    ensures (caller.State(), callee.State()) == Dispatch(old(caller.Snap()), old(callee.Snap()), num)
  {
    match caller.kind {
      case Sphere => SphereSphereCollision(callee, caller, num);
      case Cube => SphereOBBCollision(callee, caller, num);
      case Cone => SphereConeCollision(callee, caller, num);
    }
  }

  /** The overloads of `PhysicsCube.HandleCollision`, chosen by the caller's kind. */
  method HandleByCube(caller: Body, callee: Body, num: Numerics)
    requires caller != callee && caller.Valid() && callee.Valid() && callee.kind == Cube
    modifies caller`position, caller`velocity, caller`angularVelocity
    modifies callee`position, callee`velocity, callee`angularVelocity
    ensures (caller.State(), callee.State()) == Dispatch(old(caller.Snap()), old(callee.Snap()), num)
  {
    match caller.kind {
      case Sphere =>
        assert Dispatch(caller.Snap(), callee.Snap(), num) == SphereBoxOutcome(caller.Snap(), callee.Snap(), num);
        SphereOBBCollision(caller, callee, num);
      case Cube =>
        ghost var o := BoxBoxOutcome(callee.Snap(), caller.Snap(), num);
        assert Dispatch(caller.Snap(), callee.Snap(), num) == (o.1, o.0);
        BoxBoxCollision(callee, caller, num);
      case Cone =>
        ghost var o := CubeConeOutcome(callee.Snap(), caller.Snap(), num);
        assert Dispatch(caller.Snap(), callee.Snap(), num) == (o.1, o.0);
        CubeConeCollision(callee, caller, num);
    }
  }

  /** The overloads of `PhysicsCone.HandleCollision`, chosen by the caller's kind. */
  method HandleByCone(caller: Body, callee: Body, num: Numerics)
    requires caller != callee && caller.Valid() && callee.Valid() && callee.kind == Cone
    modifies caller`position, caller`velocity, caller`angularVelocity
    modifies callee`position, callee`velocity, callee`angularVelocity
    ensures (caller.State(), callee.State()) == Dispatch(old(caller.Snap()), old(callee.Snap()), num)
  {
    match caller.kind {
      case Sphere => SphereConeCollision(caller, callee, num);
      case Cube => CubeConeCollision(caller, callee, num);
      case Cone => ConeConeCollision(callee, caller, num);
    }
  }
}
