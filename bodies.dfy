/**
 * `PhysicsObject` and the per-shape data of its three subclasses as one
 * class whose `kind` stands for the subclass. The fields the engine
 * updates every step are `var`s; what `Init` and `InitProperties` fix
 * once is `const`.
 */
module Bodies {
  import opened Vectors
  import opened Wrappers
  import opened Geometry
  import opened Triangles
  import opened Dynamics
  import opened Containment

  datatype Kind = Sphere | Cube | Cone

  /**
   * What `InitProperties` derives. Fields a subclass does not have stay
   * at their default, zero.
   */
  datatype Shape = Shape(
    minBound: Vec3, maxBound: Vec3,
    extents: Vec3,
    radius: real,
    baseRadius: real, height: real, boundingSphereRadius: real)

  /**
   * `InitProperties` of each subclass, from the mesh-local bounds and the
   * pose at `Init`. Sphere and cone move their bounds to world space, with
   * the full transform, before taking their sizes; the cube keeps them
   * local.
   */
  function ShapeOf(kind: Kind, bounds: Bounds, pose: Pose, num: Numerics): (s: Shape)
    ensures kind == Cube ==>
      && s.minBound == bounds.min && s.maxBound == bounds.max
      && s.extents == Scale(Hadamard(Sub(bounds.max, bounds.min), pose.scale), 0.5)
    ensures kind == Sphere ==> s.radius == (s.maxBound.x - s.minBound.x) * 0.5
    ensures kind == Cone ==> s.boundingSphereRadius == Distance(s.maxBound, s.minBound, num) * 0.5
    ensures kind != Cube ==>
      s.minBound == TransformPoint(pose, bounds.min) && s.maxBound == TransformPoint(pose, bounds.max)
  {
    var lo, hi := bounds.min, bounds.max;
    match kind
    case Cube => Shape(lo, hi, Scale(Hadamard(Sub(hi, lo), pose.scale), 0.5), 0.0, 0.0, 0.0, 0.0)
    case Sphere =>
      var lo', hi' := TransformPoint(pose, lo), TransformPoint(pose, hi);
      Shape(lo', hi', Zero(), (hi'.x - lo'.x) * 0.5, 0.0, 0.0, 0.0)
    case Cone =>
      var baseRadius := pose.scale.x * (hi.x - lo.x) * 0.5;
      var height := pose.scale.y * (hi.y - lo.y) * 0.5;
      var lo', hi' := TransformPoint(pose, lo), TransformPoint(pose, hi);
      Shape(lo', hi', Zero(), 0.0, baseRadius, height, Distance(hi', lo', num) * 0.5)
  }

  /** A positive x extent on positive scale comes from a mesh that is not flat along x. */
  lemma CubeExtentPositive(bounds: Bounds, pose: Pose, num: Numerics)
    requires PositiveScale(pose) && bounds.min.x < bounds.max.x
    ensures ShapeOf(Cube, bounds, pose, num).extents.x > 0.0
  {
    MulPositive(bounds.max.x - bounds.min.x, pose.scale.x);
  }

  /**
   * `UpdateInertiaTensor`'s diagonal: `(4/6) m e0^2` on all three axes for
   * the cube, `0.4 m r^2` for the sphere, and `m (3/20 r^2 + 1/10 h^2)`,
   * `m (3/20 r^2 + 1/10 h^2)`, `3/20 m r^2` for the cone.
   */
  function InertiaDiagonal(kind: Kind, mass: real, s: Shape): Vec3
  {
    match kind
    case Cube =>
      var d := (4.0 / 6.0) * mass * s.extents.x * s.extents.x;
      Vec3(d, d, d)
    case Sphere =>
      var d := 0.4 * mass * s.radius * s.radius;
      Vec3(d, d, d)
    case Cone =>
      var r2 := s.baseRadius * s.baseRadius;
      var h2 := s.height * s.height;
      var d := mass * (3.0 / 20.0 * r2 + 1.0 / 10.0 * h2);
      Vec3(d, d, 3.0 / 20.0 * mass * r2)
  }

  /** The size a shape's inertia grows with: `e0`, `r`, or the cone's base radius. */
  function Size(kind: Kind, s: Shape): real
  {
    match kind
    case Cube => s.extents.x
    case Sphere => s.radius
    case Cone => s.baseRadius
  }

  // Each product fact below is kept in a lemma of its own: with several
  // products in one context the solver's arithmetic gives up.

  lemma ProductPositive(a: real, b: real, p: real)
    requires a > 0.0 && b > 0.0 && p == a * b
    ensures p > 0.0
  {
    MulPositive(a, b);
  }

  lemma PositiveProduct(a: real, b: real) returns (p: real)
    requires a > 0.0 && b > 0.0
    ensures p == a * b && p > 0.0
  {
    p := a * b;
    ProductPositive(a, b, p);
  }

  lemma PositiveSquare(x: real) returns (p: real)
    requires x != 0.0
    ensures p == x * x && p > 0.0
  {
    p := x * x;
    if x > 0.0 {
      ProductPositive(x, x, p);
    } else {
      ProductPositive(-x, -x, p);
    }
  }

  lemma Regroup(k: real, m: real, x: real, km: real, xx: real)
    requires km == k * m && xx == x * x
    ensures k * m * x * x == km * xx
  {
  }

  /**
   * For a positive mass and a non-zero size the diagonal is positive; the
   * cube and the sphere are isotropic, and the cone's axis has the
   * smallest moment.
   */
  lemma InertiaDiagonalMeaning(kind: Kind, mass: real, s: Shape)
    requires mass > 0.0 && Size(kind, s) != 0.0
    ensures var d := InertiaDiagonal(kind, mass, s);
      && d.x > 0.0 && d.y > 0.0 && d.z > 0.0
      && d.x == d.y
      && (kind != Cone ==> d.x == d.z)
      && (kind == Cone ==> d.z <= d.x)
  {
    var d := InertiaDiagonal(kind, mass, s);
    match kind
    case Cube =>
      var km := PositiveProduct(4.0 / 6.0, mass);
      var xx := PositiveSquare(s.extents.x);
      Regroup(4.0 / 6.0, mass, s.extents.x, km, xx);
      ProductPositive(km, xx, d.x);
    case Sphere =>
      var km := PositiveProduct(0.4, mass);
      var xx := PositiveSquare(s.radius);
      Regroup(0.4, mass, s.radius, km, xx);
      ProductPositive(km, xx, d.x);
    case Cone =>
      var r2 := PositiveSquare(s.baseRadius);
      var h2 := s.height * s.height;
      var k := 3.0 / 20.0;
      var km := PositiveProduct(k, mass);
      ProductPositive(km, r2, d.z);
      ConeMoments(mass, r2, h2, s.height);
  }

  lemma ConeMoments(m: real, r2: real, h2: real, h: real)
    requires m > 0.0 && r2 >= 0.0 && h2 == h * h
    ensures 3.0 / 20.0 * m * r2 <= m * (3.0 / 20.0 * r2 + 1.0 / 10.0 * h2)
  {
    SquareNonNegative(h);
    MulNonNegative(m, h2);
  }

  /** The bodies' triangles in world space, `transform.TransformPoint` of each corner. */
  function WorldTriangles(pose: Pose, base: seq<Triangle>): (ts: seq<Triangle>)
    ensures |ts| == |base|
    ensures forall i :: 0 <= i < |base| ==>
      ts[i] == Triangle(TransformPoint(pose, base[i].a), TransformPoint(pose, base[i].b), TransformPoint(pose, base[i].c))
  {
    seq(|base|, i requires 0 <= i < |base| =>
      Triangle(TransformPoint(pose, base[i].a), TransformPoint(pose, base[i].b), TransformPoint(pose, base[i].c)))
  }

  /** The mesh's triangle list: every three indices name the corners of one triangle. */
  function MeshTriangles(vertices: seq<Vec3>, indices: seq<nat>): (ts: seq<Triangle>)
    requires |indices| % 3 == 0
    requires forall k :: 0 <= k < |indices| ==> indices[k] < |vertices|
    ensures |ts| == |indices| / 3
    ensures forall t :: 0 <= t < |ts| ==>
      ts[t] == Triangle(vertices[indices[3 * t]], vertices[indices[3 * t + 1]], vertices[indices[3 * t + 2]])
  {
    seq(|indices| / 3, t requires 0 <= t < |indices| / 3 =>
      Triangle(vertices[indices[3 * t]], vertices[indices[3 * t + 1]], vertices[indices[3 * t + 2]]))
  }

  /** A value copy of everything the collision routines read from a body. */
  datatype Snapshot = Snapshot(kind: Kind, state: RigidState, rotation: Frame, scale: Vec3, shape: Shape, triangles: seq<Triangle>)
  {
    function Pose(): Pose { Vectors.Pose(state.position, rotation, scale) }
  }

  /** What every collision routine needs of a body: a positive mass, positive scale, a cube not flat along x. */
  predicate SnapshotValid(s: Snapshot)
  {
    s.state.mass > 0.0 && PositiveScale(s.Pose()) && (s.kind == Cube ==> s.shape.extents.x > 0.0)
  }

  class Body {
    const kind: Kind
    var mass: real
    var force: Vec3
    var velocity: Vec3
    var torque: Vec3
    var angularVelocity: Vec3
    var baseInertiaTensor: Mat3
    var inertiaTensor: Mat3
    var position: Vec3
    var rotation: Frame
    const scale: Vec3
    /** The mesh's vertices, in the mesh's own frame. */
    const vertices: seq<Vec3>
    const shape: Shape
    const baseTriangles: seq<Triangle>
    const triangles: array<Triangle>

    ghost predicate Valid()
      reads this
    {
      && mass > 0.0
      && scale.x > 0.0 && scale.y > 0.0 && scale.z > 0.0
      && (kind == Cube ==> shape.extents.x > 0.0)
      && triangles.Length == |baseTriangles|
    }

    function Pose(): Pose
      reads this
    {
      Vectors.Pose(position, rotation, scale)
    }

    function State(): RigidState
      reads this
    {
      RigidState(mass, inertiaTensor, position, velocity, angularVelocity)
    }

    function Snap(): (s: Snapshot)
      reads this, triangles
      ensures Valid() ==> SnapshotValid(s)
    {
      Snapshot(kind, State(), rotation, scale, shape, triangles[..])
    }

    /**
     * `Init(mass, manager)` on a freshly spawned object: the triangles from
     * the mesh's index list, the bounds of its vertices, `InitProperties`
     * and `UpdateInertiaTensor`. The source reads `vertices[0]` and indexes
     * three at a time, so the mesh is non-empty and its index list whole.
     */
    constructor Init(kind: Kind, mass: real, pose: Vectors.Pose, vertices: seq<Vec3>, indices: seq<nat>, num: Numerics)
      requires mass > 0.0 && PositiveScale(pose) && |vertices| > 0
      requires |indices| % 3 == 0 && forall k :: 0 <= k < |indices| ==> indices[k] < |vertices|
      requires kind == Cube ==> exists i, j :: 0 <= i < |vertices| && 0 <= j < |vertices| && vertices[i].x < vertices[j].x
      ensures Valid()
      ensures this.kind == kind && this.mass == mass && Pose() == pose && this.vertices == vertices
      ensures velocity == Zero() && force == Zero() && torque == Zero() && angularVelocity == Zero()
      ensures baseTriangles == MeshTriangles(vertices, indices) && triangles[..] == baseTriangles
      ensures shape == ShapeOf(kind, LocalBounds(vertices).value, pose, num)
      ensures Diagonal(inertiaTensor) == InertiaDiagonal(kind, mass, shape) && baseInertiaTensor == inertiaTensor
      ensures inertiaTensor == WithDiagonal(Identity(), InertiaDiagonal(kind, mass, shape))
      ensures fresh(triangles)
    {
      var count := |indices| / 3;
      var built := new Triangle[count];
      var i := 0;
      while i < |indices|
        invariant 0 <= i <= |indices| && i % 3 == 0
        invariant forall t :: 0 <= t < i / 3 ==>
          built[t] == Triangle(vertices[indices[3 * t]], vertices[indices[3 * t + 1]], vertices[indices[3 * t + 2]])
      {
        built[i / 3] := Triangle(vertices[indices[i]], vertices[indices[i + 1]], vertices[indices[i + 2]]);
        i := i + 3;
      }
      var bounds := ComputeLocalBounds(vertices);
      var s := ShapeOf(kind, bounds.value, pose, num);
      if kind == Cube {
        var a, b :| 0 <= a < |vertices| && 0 <= b < |vertices| && vertices[a].x < vertices[b].x;
        assert bounds.value.min.x <= vertices[a].x && vertices[b].x <= bounds.value.max.x;
        CubeExtentPositive(bounds.value, pose, num);
      }
      this.kind := kind;
      this.mass := mass;
      velocity := Zero();
      force := Zero();
      torque := Zero();
      angularVelocity := Zero();
      position := pose.position;
      rotation := pose.rotation;
      scale := pose.scale;
      this.vertices := vertices;
      shape := s;
      baseTriangles := MeshTriangles(vertices, indices);
      triangles := built;
      baseInertiaTensor := Identity();
      inertiaTensor := Identity();
      new;
      assert triangles[..] == baseTriangles;
      UpdateInertiaTensor();
    }

    /** `UpdateInertiaTensor`: the diagonal set by shape, the base tensor made equal to it. */
    method UpdateInertiaTensor()
      modifies this`inertiaTensor, this`baseInertiaTensor
      ensures Diagonal(inertiaTensor) == InertiaDiagonal(kind, mass, shape)
      ensures inertiaTensor == WithDiagonal(old(inertiaTensor), InertiaDiagonal(kind, mass, shape))
      ensures baseInertiaTensor == inertiaTensor
    {
      inertiaTensor := WithDiagonal(inertiaTensor, InertiaDiagonal(kind, mass, shape));
      baseInertiaTensor := inertiaTensor;
    }

    /** The `Mass` setter. */
    method SetMass(value: real)
      requires value > 0.0
      modifies this`mass, this`inertiaTensor, this`baseInertiaTensor
      ensures mass == value && Diagonal(inertiaTensor) == InertiaDiagonal(kind, value, shape)
      ensures inertiaTensor == WithDiagonal(old(inertiaTensor), InertiaDiagonal(kind, value, shape))
      ensures baseInertiaTensor == inertiaTensor
    {
      mass := value;
      UpdateInertiaTensor();
    }

    method AddForce(f: Vec3)
      modifies this`force
      ensures force == Add(old(force), f)
    {
      force := Add(force, f);
    }

    /** A force at a world point also adds the torque `Cross(point - position, f)`. */
    method AddForceAtPosition(f: Vec3, point: Vec3)
      modifies this`force, this`torque
      ensures force == Add(old(force), f)
      ensures torque == Add(old(torque), Cross(Sub(point, position), f))
    {
      force := Add(force, f);
      torque := Add(torque, Cross(Sub(point, position), f));
    }

    method AddLinearImpulse(impulse: Vec3)
      requires mass > 0.0
      modifies this`velocity
      ensures velocity == Add(old(velocity), Div(impulse, mass))
      ensures Scale(Sub(velocity, old(velocity)), mass) == impulse
    {
      velocity := Add(velocity, Div(impulse, mass));
      assert Sub(velocity, old(velocity)) == Div(impulse, mass);
      assert mass * (impulse.x / mass) == impulse.x;
      assert mass * (impulse.y / mass) == impulse.y;
      assert mass * (impulse.z / mass) == impulse.z;
    }

    method AddAngularImpulse(impulse: Vec3, num: Numerics)
      modifies this`angularVelocity
      ensures angularVelocity == Add(old(angularVelocity), MulVec(num.inverse(inertiaTensor), impulse))
    {
      angularVelocity := Add(angularVelocity, MulVec(num.inverse(inertiaTensor), impulse));
    }

    method ClearForces()
      modifies this`force, this`torque
      ensures force == Zero() && torque == Zero()
    {
      force := Zero();
      torque := Zero();
    }

    /**
     * `ResolveCollision(other, contactInfo)`: both bodies end in the state
     * `Resolve` gives, and nothing else of them changes.
     */
    method ResolveCollision(other: Body, contactInfo: Contact, num: Numerics)
      requires other != this && mass > 0.0 && other.mass > 0.0
      modifies this`position, this`velocity, this`angularVelocity
      modifies other`position, other`velocity, other`angularVelocity
      ensures (State(), other.State()) == Resolve(old(State()), old(other.State()), contactInfo, num)
    {
      SeparateFrom(other, contactInfo);
      ExchangeImpulse(other, contactInfo, num);
    }

    /** The first half of `ResolveCollision`: each body moved back along the normal by its share of the overlap. */
    method SeparateFrom(other: Body, contactInfo: Contact)
      requires other != this && mass > 0.0 && other.mass > 0.0
      modifies this`position, other`position
      ensures (State(), other.State()) == Separate(old(State()), old(other.State()), contactInfo)
    {
      var norm := contactInfo.norm;
      var overlapDist := contactInfo.overlapDist;
      var invMass1 := 1.0 / mass;
      var invMass2 := 1.0 / other.mass;
      var massSum := invMass1 + invMass2;
      position := Sub(position, Div(Scale(Scale(norm, overlapDist), invMass1), massSum));
      other.position := Add(other.position, Div(Scale(Scale(norm, overlapDist), invMass2), massSum));
    }

    /** The second half of `ResolveCollision`: `+j * norm` on this body and `-j * norm` on the other, at the contact points. */
    method ExchangeImpulse(other: Body, contactInfo: Contact, num: Numerics)
      requires other != this && mass > 0.0 && other.mass > 0.0
      modifies this`velocity, this`angularVelocity, other`velocity, other`angularVelocity
      ensures var resp := PairResponse(old(State()), old(other.State()), contactInfo, num);
        var impulseNorm := Scale(contactInfo.norm, resp.impulse);
        && State() == ApplyImpulse(old(State()), impulseNorm, Cross(resp.rA, impulseNorm), num)
        && other.State() == ApplyImpulse(old(other.State()), Neg(impulseNorm), Neg(Cross(resp.rB, impulseNorm)), num)
    {
      var norm := contactInfo.norm;
      var rA := Sub(contactInfo.contactA, position);
      var rB := Sub(contactInfo.contactB, other.position);
      var fullVelocityDiff := Sub(Add(velocity, Cross(angularVelocity, rA)), Add(other.velocity, Cross(other.angularVelocity, rB)));
      var thetaA := Cross(MulVec(num.inverse(inertiaTensor), Cross(rA, norm)), rA);
      var thetaB := Cross(MulVec(num.inverse(other.inertiaTensor), Cross(rB, norm)), rB);
      var angularFactor := Dot(Add(thetaA, thetaB), norm);
      var impulse := ImpulseMagnitude(Dot(fullVelocityDiff, norm), 1.0 / mass + 1.0 / other.mass + angularFactor);
      var impulseNorm := Scale(norm, impulse);
      assert impulse == PairResponse(State(), other.State(), contactInfo, num).impulse;

      AddLinearImpulse(impulseNorm);
      other.AddLinearImpulse(Neg(impulseNorm));
      AddAngularImpulse(Cross(rA, impulseNorm), num);
      other.AddAngularImpulse(Neg(Cross(rB, impulseNorm)), num);
    }

    /** `ResolveCollisionContainer(contactInfo)`: the body ends in the state `ResolveContainer` gives. */
    method ResolveCollisionContainer(contactInfo: Contact, num: Numerics)
      requires mass > 0.0
      modifies this`position, this`velocity, this`angularVelocity
      ensures State() == ResolveContainer(old(State()), contactInfo, num)
    {
      var norm := contactInfo.norm;
      var overlapDist := contactInfo.overlapDist;
      var contactA := contactInfo.contactA;

      position := Sub(position, Scale(norm, overlapDist));
      var rA := Sub(contactA, position);
      var fullVelocityDiff := Add(velocity, Cross(angularVelocity, rA));
      var thetaA := Cross(MulVec(num.inverse(inertiaTensor), Cross(rA, norm)), rA);
      var angularFactor := Dot(thetaA, norm);
      var impulse := ImpulseMagnitude(Dot(fullVelocityDiff, norm), 1.0 / mass + angularFactor);
      var impulseNorm := Scale(norm, impulse);

      AddLinearImpulse(impulseNorm);
      AddAngularImpulse(Cross(rA, impulseNorm), num);
    }

    /** The triangles loop of `FixedUpdate`: every triangle moved to the current pose. */
    method UpdateTriangles()
      requires triangles.Length == |baseTriangles|
      modifies triangles
      ensures triangles[..] == WorldTriangles(Pose(), baseTriangles)
    {
      for i := 0 to triangles.Length
        invariant forall k :: 0 <= k < i ==> triangles[k] == WorldTriangles(Pose(), baseTriangles)[k]
      {
        var t := baseTriangles[i];
        triangles[i] := Triangle(TransformPoint(Pose(), t.a), TransformPoint(Pose(), t.b), TransformPoint(Pose(), t.c));
      }
    }

    /**
     * `PhysicsObject.FixedUpdate`: triangles to the current pose, the
     * linear step, the rotated inertia, the angular step, the orientation
     * update, damping of both velocities and clearing the accumulators.
     */
    method Integrate(dt: real, num: Numerics)
      requires Valid()
      modifies triangles, this`velocity, this`position, this`inertiaTensor, this`angularVelocity,
               this`rotation, this`force, this`torque
      ensures Valid()
      ensures triangles[..] == WorldTriangles(old(Pose()), baseTriangles)
      ensures var step := LinearStep(old(velocity), old(position), old(force), mass, dt);
        velocity == step.0 && position == step.1
      ensures var r := RotationMatrix(old(rotation));
        inertiaTensor == MulMat(MulMat(r, baseInertiaTensor), Transpose(r))
      ensures var w := Add(old(angularVelocity), Scale(MulVec(num.inverse(inertiaTensor), old(torque)), dt));
        && rotation == num.integrateRotation(old(rotation), w, dt)
        && angularVelocity == Sub(w, Scale(Scale(w, Damping), dt))
      ensures force == Zero() && torque == Zero()
    {
      UpdateTriangles();

      var acceleration := Div(force, mass);
      acceleration := Add(acceleration, Gravity());
      velocity := Add(velocity, Scale(acceleration, dt));
      position := Add(position, Scale(velocity, dt));

      var r := RotationMatrix(rotation);
      inertiaTensor := MulMat(MulMat(r, baseInertiaTensor), Transpose(r));
      var angularAcceleration := MulVec(num.inverse(inertiaTensor), torque);
      angularVelocity := Add(angularVelocity, Scale(angularAcceleration, dt));
      rotation := num.integrateRotation(rotation, angularVelocity, dt);

      velocity := Sub(velocity, Scale(Scale(velocity, Damping), dt));
      angularVelocity := Sub(angularVelocity, Scale(Scale(angularVelocity, Damping), dt));

      ClearForces();
    }

    /**
     * The shape's own part of `FixedUpdate`, before the base step: the
     * sphere clamps and reflects per axis; cube and cone resolve against
     * the walls only when some scanned vertex is outside the container.
     */
    method ContainerStep(cmin: Vec3, cmax: Vec3, num: Numerics)
      requires Valid()
      modifies this`position, this`velocity, this`angularVelocity
      ensures Valid()
      ensures kind == Sphere ==>
        && angularVelocity == old(angularVelocity)
        && forall i :: 0 <= i < 3 ==>
             (Get(position, i), Get(velocity, i))
               == ReflectAxis(Get(old(position), i), Get(old(velocity), i), shape.radius, Get(cmin, i), Get(cmax, i))
      ensures kind != Sphere ==>
        match WallContactOf(kind, old(Pose()), vertices, cmin, cmax, num)
        case None => State() == old(State())
        case Some(c) => State() == ResolveContainer(old(State()), c, num)
      ensures State() == ContainerOutcome(kind, shape, vertices, old(State()), rotation, scale, cmin, cmax, num)
    {
      match kind
      case Sphere =>
        var center, v := ContainSphere(position, velocity, shape.radius, cmin, cmax);
        position := center;
        velocity := v;
      case Cube =>
        var inside, contactInfo := CubeInsideContainer(Pose(), vertices, cmin, cmax, num);
        if !inside {
          ResolveCollisionContainer(contactInfo, num);
        }
      case Cone =>
        var inside, contactInfo := ConeInsideContainer(Pose(), vertices, cmin, cmax, num);
        if !inside {
          ResolveCollisionContainer(contactInfo, num);
        }
    }

    /** The subclass `FixedUpdate`: the container step, then the base step. */
    method FixedUpdate(cmin: Vec3, cmax: Vec3, dt: real, num: Numerics)
      requires Valid()
      modifies triangles, this`velocity, this`position, this`inertiaTensor, this`angularVelocity,
               this`rotation, this`force, this`torque
      ensures Valid()
      ensures var mid := ContainerOutcome(kind, shape, vertices, old(State()), old(rotation), scale, cmin, cmax, num);
        && triangles[..] == WorldTriangles(Vectors.Pose(mid.position, old(rotation), scale), baseTriangles)
        && var step := LinearStep(mid.velocity, mid.position, old(force), mass, dt);
           velocity == step.0 && position == step.1
      ensures var r := RotationMatrix(old(rotation));
        inertiaTensor == MulMat(MulMat(r, old(baseInertiaTensor)), Transpose(r))
      ensures var mid := ContainerOutcome(kind, shape, vertices, old(State()), old(rotation), scale, cmin, cmax, num);
        var w := Add(mid.angularVelocity, Scale(MulVec(num.inverse(inertiaTensor), old(torque)), dt));
        && rotation == num.integrateRotation(old(rotation), w, dt)
        && angularVelocity == Sub(w, Scale(Scale(w, Damping), dt))
      ensures force == Zero() && torque == Zero()
    {
      ContainerStep(cmin, cmax, num);
      Integrate(dt, num);
    }
  }

  /**
   * The state a body's container step leaves it in: the sphere reflects
   * off the walls; the cube and the cone resolve against the walls when
   * their scan finds a contact, and are left alone otherwise.
   */
  function ContainerOutcome(kind: Kind, shape: Shape, vertices: seq<Vec3>, s: RigidState, rotation: Frame, scale: Vec3,
                            cmin: Vec3, cmax: Vec3, num: Numerics): (r: RigidState)
    requires s.mass > 0.0
    ensures r.mass == s.mass && r.inertiaTensor == s.inertiaTensor
  {
    match kind
    case Sphere =>
      var (c, v) := ReflectSphere(s.position, s.velocity, shape.radius, cmin, cmax);
      s.(position := c, velocity := v)
    case _ =>
      match WallContactOf(kind, Vectors.Pose(s.position, rotation, scale), vertices, cmin, cmax, num)
      case None => s
      case Some(c) => ResolveContainer(s, c, num)
  }

  /** The contact with the walls that the cube (first eight vertices) or the cone (all vertices) finds. */
  function WallContactOf(kind: Kind, pose: Pose, vertices: seq<Vec3>, cmin: Vec3, cmax: Vec3, num: Numerics): Option<Contact>
  {
    var worlds := WorldVertices(pose, vertices);
    var scanned := if kind == Cube then worlds[..Scanned(|vertices|)] else worlds;
    WallContact(Penetrations(scanned, cmin, cmax), num)
  }
}
