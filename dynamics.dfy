/**
 * The value-level rules of `PhysicsObject`: the contact record, the
 * impulse response of `ResolveCollision` and `ResolveCollisionContainer`,
 * and the linear part of the integration step in `FixedUpdate`.
 */
module Dynamics {
  import opened Vectors

  /** `PhysicsManager.GRAVITY`. */
  function Gravity(): Vec3 { Vec3(0.0, -9.81, 0.0) }

  /** `PhysicsManager.RESTITUTION`. */
  const Restitution: real := 0.9

  /** The factor of the per-step velocity damping. */
  const Damping: real := 0.1

  /** `PhysicsObject.Contact`; the normal points from body A towards body B. */
  datatype Contact = Contact(norm: Vec3, overlapDist: real, contactA: Vec3, contactB: Vec3)

  /** `new Contact()`: every field zero. */
  function EmptyContact(): Contact { Contact(Zero(), 0.0, Zero(), Zero()) }

  /** What a collision response reads from a body and may change in it. */
  datatype RigidState = RigidState(
    mass: real,
    inertiaTensor: Mat3,
    position: Vec3,
    velocity: Vec3,
    angularVelocity: Vec3)

  predicate PositiveMass(s: RigidState) { s.mass > 0.0 }

  function Momentum(s: RigidState): Vec3 { Scale(s.velocity, s.mass) }

  lemma ShareScalar(x: real, ia: real, ib: real)
    requires ia > 0.0 && ib > 0.0
    ensures x * ia / (ia + ib) + x * ib / (ia + ib) == x
  {
    var s := ia + ib;
    assert x * ia / s + x * ib / s == (x * ia + x * ib) / s;
    assert x * ia + x * ib == x * s;
  }

  lemma BalanceScalar(x: real, ma: real, mb: real, ia: real, ib: real)
    requires ma > 0.0 && mb > 0.0 && ia == 1.0 / ma && ib == 1.0 / mb
    ensures (x * ia / (ia + ib)) * ma == (x * ib / (ia + ib)) * mb
  {
    var s := ia + ib;
    assert ma * ia == 1.0;
    assert mb * ib == 1.0;
    assert s > 0.0;
    assert (x * ia / s) * ma == x / s;
    assert (x * ib / s) * mb == x / s;
  }

  /**
   * The positional correction of `ResolveCollision`: A moves back by
   * `shiftA`, B forward by `shiftB`, each in proportion to its inverse
   * mass. Together they open the gap by the full `norm * overlapDist`, and
   * the two moves weigh the same, so the centre of mass stays put.
   */
  function PositionShares(norm: Vec3, overlapDist: real, massA: real, massB: real): (r: (Vec3, Vec3))
    requires massA > 0.0 && massB > 0.0
    ensures Add(r.0, r.1) == Scale(norm, overlapDist)
    ensures Scale(r.0, massA) == Scale(r.1, massB)
  {
    var invMass1 := 1.0 / massA;
    var invMass2 := 1.0 / massB;
    var massSum := invMass1 + invMass2;
    var v := Scale(norm, overlapDist);
    var shareA := Div(Scale(v, invMass1), massSum);
    var shareB := Div(Scale(v, invMass2), massSum);
    SharesSplit(v, massA, massB, invMass1, invMass2, shareA, shareB);
    (shareA, shareB)
  }

  lemma SharesSplit(v: Vec3, ma: real, mb: real, ia: real, ib: real, sa: Vec3, sb: Vec3)
    requires ma > 0.0 && mb > 0.0 && ia == 1.0 / ma && ib == 1.0 / mb
    requires ia + ib != 0.0
    requires sa == Div(Scale(v, ia), ia + ib) && sb == Div(Scale(v, ib), ia + ib)
    ensures Add(sa, sb) == v
    ensures Scale(sa, ma) == Scale(sb, mb)
  {
    ShareScalar(v.x, ia, ib);
    ShareScalar(v.y, ia, ib);
    ShareScalar(v.z, ia, ib);
    BalanceScalar(v.x, ma, mb, ia, ib);
    BalanceScalar(v.y, ma, mb, ia, ib);
    BalanceScalar(v.z, ma, mb, ia, ib);
  }

  /** `Cross(inverse(I) * Cross(r, n), r)`, the rotational term of the impulse denominator. */
  function Theta(inertiaTensor: Mat3, r: Vec3, norm: Vec3, num: Numerics): Vec3
  {
    Cross(MulVec(num.inverse(inertiaTensor), Cross(r, norm)), r)
  }

  /** Velocity of the material point at offset `r`: `v + Cross(w, r)`. */
  function PointVelocity(s: RigidState, r: Vec3): Vec3
  {
    Add(s.velocity, Cross(s.angularVelocity, r))
  }

  /**
   * `-(1 + e) * relativeNormalVelocity / denominator`. A zero denominator,
   * which the floating-point code turns into an infinite or undefined
   * impulse, gives no impulse here.
   */
  function ImpulseMagnitude(relativeNormalVelocity: real, denominator: real): (j: real)
    ensures denominator != 0.0 ==> j * denominator == -(1.0 + Restitution) * relativeNormalVelocity
    ensures denominator == 0.0 ==> j == 0.0
  {
    if denominator == 0.0 then 0.0
    else -(1.0 + Restitution) * relativeNormalVelocity / denominator
  }

  /** The body after `AddLinearImpulse(impulse)` and `AddAngularImpulse(angular)`. */
  function ApplyImpulse(s: RigidState, impulse: Vec3, angular: Vec3, num: Numerics): (r: RigidState)
    requires s.mass > 0.0
    ensures r.mass == s.mass && r.inertiaTensor == s.inertiaTensor && r.position == s.position
    ensures Scale(Sub(r.velocity, s.velocity), s.mass) == impulse
  {
    assert s.mass * (1.0 / s.mass) == 1.0;
    var dv := Div(impulse, s.mass);
    assert Sub(Add(s.velocity, dv), s.velocity) == dv;
    assert s.mass * (impulse.x / s.mass) == impulse.x;
    assert s.mass * (impulse.y / s.mass) == impulse.y;
    assert s.mass * (impulse.z / s.mass) == impulse.z;
    s.(velocity := Add(s.velocity, dv),
       angularVelocity := Add(s.angularVelocity, MulVec(num.inverse(s.inertiaTensor), angular)))
  }

  /** The quantities `ResolveCollision` derives after the positional correction. */
  datatype Response = Response(rA: Vec3, rB: Vec3, relativeVelocity: Vec3, angularFactor: real, impulse: real)

  function PairResponse(a: RigidState, b: RigidState, c: Contact, num: Numerics): Response
    requires a.mass > 0.0 && b.mass > 0.0
  {
    var rA := Sub(c.contactA, a.position);
    var rB := Sub(c.contactB, b.position);
    var fullVelocityDiff := Sub(PointVelocity(a, rA), PointVelocity(b, rB));
    var angularFactor := Dot(Add(Theta(a.inertiaTensor, rA, c.norm, num), Theta(b.inertiaTensor, rB, c.norm, num)), c.norm);
    var denominator := 1.0 / a.mass + 1.0 / b.mass + angularFactor;
    Response(rA, rB, fullVelocityDiff, angularFactor,
             ImpulseMagnitude(Dot(fullVelocityDiff, c.norm), denominator))
  }

  /** The positional correction of `ResolveCollision` alone. */
  function Separate(a: RigidState, b: RigidState, c: Contact): (r: (RigidState, RigidState))
    requires a.mass > 0.0 && b.mass > 0.0
    ensures r.0 == a.(position := r.0.position) && r.1 == b.(position := r.1.position)
  {
    var shares := PositionShares(c.norm, c.overlapDist, a.mass, b.mass);
    (a.(position := Sub(a.position, shares.0)), b.(position := Add(b.position, shares.1)))
  }

  /**
   * `a.ResolveCollision(b, contact)`: separate the bodies along the normal,
   * then apply `+j * norm` to A and `-j * norm` to B at the contact points.
   */
  function Resolve(a: RigidState, b: RigidState, c: Contact, num: Numerics): (r: (RigidState, RigidState))
    requires a.mass > 0.0 && b.mass > 0.0
    ensures r.0.mass == a.mass && r.0.inertiaTensor == a.inertiaTensor
    ensures r.1.mass == b.mass && r.1.inertiaTensor == b.inertiaTensor
    ensures r.0.position == Separate(a, b, c).0.position && r.1.position == Separate(a, b, c).1.position
  {
    var (a1, b1) := Separate(a, b, c);
    var resp := PairResponse(a1, b1, c, num);
    var impulseNorm := Scale(c.norm, resp.impulse);
    (ApplyImpulse(a1, impulseNorm, Cross(resp.rA, impulseNorm), num),
     ApplyImpulse(b1, Neg(impulseNorm), Neg(Cross(resp.rB, impulseNorm)), num))
  }

  lemma AddSubShares(pa: Vec3, pb: Vec3, sa: Vec3, sb: Vec3)
    ensures Sub(Add(pb, sb), Sub(pa, sa)) == Add(Sub(pb, pa), Add(sa, sb))
  {
  }

  /** The correction opens the gap between the centres by exactly `norm * overlapDist`. */
  lemma ResolveSeparates(a: RigidState, b: RigidState, c: Contact, num: Numerics)
    requires a.mass > 0.0 && b.mass > 0.0
    ensures var r := Resolve(a, b, c, num);
      Sub(r.1.position, r.0.position) == Add(Sub(b.position, a.position), Scale(c.norm, c.overlapDist))
  {
    var shares := PositionShares(c.norm, c.overlapDist, a.mass, b.mass);
    AddSubShares(a.position, b.position, shares.0, shares.1);
  }

  lemma WeightedShift(pa: Vec3, pb: Vec3, sa: Vec3, sb: Vec3, ma: real, mb: real)
    requires Scale(sa, ma) == Scale(sb, mb)
    ensures Add(Scale(Sub(pa, sa), ma), Scale(Add(pb, sb), mb)) == Add(Scale(pa, ma), Scale(pb, mb))
  {
    assert sa.x * ma == sb.x * mb && sa.y * ma == sb.y * mb && sa.z * ma == sb.z * mb;
  }

  /** The correction leaves the mass-weighted sum of the positions, the centre of mass, unchanged. */
  lemma ResolveKeepsCentreOfMass(a: RigidState, b: RigidState, c: Contact, num: Numerics)
    requires a.mass > 0.0 && b.mass > 0.0
    ensures var r := Resolve(a, b, c, num);
      Add(Scale(r.0.position, a.mass), Scale(r.1.position, b.mass))
        == Add(Scale(a.position, a.mass), Scale(b.position, b.mass))
  {
    var shares := PositionShares(c.norm, c.overlapDist, a.mass, b.mass);
    WeightedShift(a.position, b.position, shares.0, shares.1, a.mass, b.mass);
  }

  lemma OppositeChanges(va: Vec3, va': Vec3, vb: Vec3, vb': Vec3, ma: real, mb: real, j: Vec3)
    requires Scale(Sub(va', va), ma) == j && Scale(Sub(vb', vb), mb) == Neg(j)
    ensures Add(Scale(va', ma), Scale(vb', mb)) == Add(Scale(va, ma), Scale(vb, mb))
  {
    assert (va'.x - va.x) * ma == j.x && (vb'.x - vb.x) * mb == -j.x;
    assert (va'.y - va.y) * ma == j.y && (vb'.y - vb.y) * mb == -j.y;
    assert (va'.z - va.z) * ma == j.z && (vb'.z - vb.z) * mb == -j.z;
  }

  /** Equal and opposite impulses: the total linear momentum is conserved. */
  lemma ResolveConservesMomentum(a: RigidState, b: RigidState, c: Contact, num: Numerics)
    requires a.mass > 0.0 && b.mass > 0.0
    ensures var r := Resolve(a, b, c, num);
      Add(Momentum(r.0), Momentum(r.1)) == Add(Momentum(a), Momentum(b))
  {
    var (a1, b1) := Separate(a, b, c);
    var resp := PairResponse(a1, b1, c, num);
    var impulseNorm := Scale(c.norm, resp.impulse);
    var r := Resolve(a, b, c, num);
    OppositeChanges(a.velocity, r.0.velocity, b.velocity, r.1.velocity, a.mass, b.mass, impulseNorm);
  }

  /**
   * Restitution: for non-spinning bodies whose contact geometry adds no
   * rotational term, and a unit normal, the relative normal velocity
   * after the response is `-RESTITUTION` times the one before.
   */
  lemma ResolveRestitution(a: RigidState, b: RigidState, c: Contact, num: Numerics)
    requires a.mass > 0.0 && b.mass > 0.0 && SqrMagnitude(c.norm) == 1.0
    requires a.angularVelocity == Zero() && b.angularVelocity == Zero()
    requires PairResponse(Separate(a, b, c).0, Separate(a, b, c).1, c, num).angularFactor == 0.0
    ensures var r := Resolve(a, b, c, num);
      Dot(Sub(r.0.velocity, r.1.velocity), c.norm) == -Restitution * Dot(Sub(a.velocity, b.velocity), c.norm)
  {
    var (a1, b1) := Separate(a, b, c);
    var resp := PairResponse(a1, b1, c, num);
    assert PointVelocity(a1, resp.rA) == a.velocity;
    assert PointVelocity(b1, resp.rB) == b.velocity;
    var ia, ib := 1.0 / a.mass, 1.0 / b.mass;
    assert ia > 0.0 && ib > 0.0;
    var rel := Dot(Sub(a.velocity, b.velocity), c.norm);
    assert resp.impulse * (ia + ib) == -(1.0 + Restitution) * rel;
    RelativeNormalVelocity(a.velocity, b.velocity, c.norm, resp.impulse, a.mass, b.mass, Restitution);
  }

  lemma DotScaledDiv(n: Vec3, j: real, m: real)
    requires m != 0.0
    ensures Dot(Div(Scale(n, j), m), n) == (j / m) * Dot(n, n)
  {
    assert n.x * j / m * n.x == (j / m) * (n.x * n.x);
    assert n.y * j / m * n.y == (j / m) * (n.y * n.y);
    assert n.z * j / m * n.z == (j / m) * (n.z * n.z);
  }

  lemma DotSplit(va: Vec3, da: Vec3, vb: Vec3, db: Vec3, n: Vec3)
    ensures Dot(Sub(Add(va, da), Add(vb, db)), n) == Dot(Sub(va, vb), n) + Dot(da, n) - Dot(db, n)
  {
  }

  lemma RestitutionScalar(rel: real, j: real, ma: real, mb: real, e: real)
    requires ma > 0.0 && mb > 0.0
    requires j * (1.0 / ma + 1.0 / mb) == -(1.0 + e) * rel
    ensures rel + (j / ma) * 1.0 - ((-j) / mb) * 1.0 == -e * rel
  {
    assert j / ma == j * (1.0 / ma);
    assert (-j) / mb == -(j * (1.0 / mb));
  }

  lemma RelativeNormalVelocity(va: Vec3, vb: Vec3, n: Vec3, j: real, ma: real, mb: real, e: real)
    requires ma > 0.0 && mb > 0.0 && Dot(n, n) == 1.0
    requires j * (1.0 / ma + 1.0 / mb) == -(1.0 + e) * Dot(Sub(va, vb), n)
    ensures Dot(Sub(Add(va, Div(Scale(n, j), ma)), Add(vb, Div(Neg(Scale(n, j)), mb))), n)
         == -e * Dot(Sub(va, vb), n)
  {
    assert Div(Neg(Scale(n, j)), mb) == Div(Scale(n, -j), mb);
    DotSplit(va, Div(Scale(n, j), ma), vb, Div(Scale(n, -j), mb), n);
    DotScaledDiv(n, j, ma);
    DotScaledDiv(n, -j, mb);
    RestitutionScalar(Dot(Sub(va, vb), n), j, ma, mb, e);
  }

  /**
   * `ResolveCollisionContainer(contact)`: the body alone takes the full
   * correction `norm * overlapDist` and a one-sided impulse against the
   * wall.
   */
  function ResolveContainer(a: RigidState, c: Contact, num: Numerics): (r: RigidState)
    requires a.mass > 0.0
    ensures r.mass == a.mass && r.inertiaTensor == a.inertiaTensor
    ensures Sub(a.position, r.position) == Scale(c.norm, c.overlapDist)
  {
    var a1 := a.(position := Sub(a.position, Scale(c.norm, c.overlapDist)));
    var rA := Sub(c.contactA, a1.position);
    var fullVelocityDiff := PointVelocity(a1, rA);
    var angularFactor := Dot(Theta(a1.inertiaTensor, rA, c.norm, num), c.norm);
    var impulse := ImpulseMagnitude(Dot(fullVelocityDiff, c.norm), 1.0 / a1.mass + angularFactor);
    var impulseNorm := Scale(c.norm, impulse);
    ApplyImpulse(a1, impulseNorm, Cross(rA, impulseNorm), num)
  }

  /** The wall takes no momentum back: the body's momentum changes by the impulse along the normal. */
  lemma ContainerImpulseAlongNormal(a: RigidState, c: Contact, num: Numerics)
    requires a.mass > 0.0
    ensures exists j :: Sub(Momentum(ResolveContainer(a, c, num)), Momentum(a)) == Scale(c.norm, j)
  {
    var a1 := a.(position := Sub(a.position, Scale(c.norm, c.overlapDist)));
    var rA := Sub(c.contactA, a1.position);
    var angularFactor := Dot(Theta(a1.inertiaTensor, rA, c.norm, num), c.norm);
    var impulse := ImpulseMagnitude(Dot(PointVelocity(a1, rA), c.norm), 1.0 / a1.mass + angularFactor);
    var r := ResolveContainer(a, c, num);
    MomentumChange(a.velocity, r.velocity, a.mass, Scale(c.norm, impulse));
  }

  lemma MomentumChange(v: Vec3, v': Vec3, m: real, j: Vec3)
    requires Scale(Sub(v', v), m) == j
    ensures Sub(Scale(v', m), Scale(v, m)) == j
  {
    assert (v'.x - v.x) * m == j.x && (v'.y - v.y) * m == j.y && (v'.z - v.z) * m == j.z;
  }

  /**
   * Linear part of `FixedUpdate`: semi-implicit Euler with the
   * acceleration `force / mass + GRAVITY`, the position advanced with the
   * new velocity, and the velocity then damped by `velocity * 0.1 * dt`.
   * The result is `(velocity, position, undampedVelocity)`.
   */
  function LinearStep(velocity: Vec3, position: Vec3, force: Vec3, mass: real, dt: real): (r: (Vec3, Vec3, Vec3))
    requires mass > 0.0
    ensures Scale(Sub(r.2, velocity), mass) == Scale(Add(force, Scale(Gravity(), mass)), dt)
    ensures r.1 == Add(position, Scale(r.2, dt))
    ensures r.0 == Scale(r.2, 1.0 - Damping * dt)
  {
    var acceleration := Add(Div(force, mass), Gravity());
    var v1 := Add(velocity, Scale(acceleration, dt));
    NewtonVector(velocity, force, Gravity(), mass, dt, v1);
    DampVector(v1, dt);
    (Sub(v1, Scale(Scale(v1, Damping), dt)), Add(position, Scale(v1, dt)), v1)
  }

  lemma NewtonVector(v: Vec3, f: Vec3, g: Vec3, m: real, dt: real, v1: Vec3)
    requires m > 0.0 && v1 == Add(v, Scale(Add(Div(f, m), g), dt))
    ensures Scale(Sub(v1, v), m) == Scale(Add(f, Scale(g, m)), dt)
  {
    NewtonScalar(v.x, f.x, g.x, m, dt);
    NewtonScalar(v.y, f.y, g.y, m, dt);
    NewtonScalar(v.z, f.z, g.z, m, dt);
  }

  lemma DampVector(v: Vec3, dt: real)
    ensures Sub(v, Scale(Scale(v, Damping), dt)) == Scale(v, 1.0 - Damping * dt)
  {
    var k := 1.0 - Damping * dt;
    DampScalar(v.x, dt);
    DampScalar(v.y, dt);
    DampScalar(v.z, dt);
    calc {
      Sub(v, Scale(Scale(v, Damping), dt));
      Vec3(v.x - v.x * Damping * dt, v.y - v.y * Damping * dt, v.z - v.z * Damping * dt);
      Vec3(v.x * k, v.y * k, v.z * k);
    }
  }

  lemma NewtonScalar(v: real, f: real, g: real, m: real, dt: real)
    requires m > 0.0
    ensures (v + (f / m + g) * dt - v) * m == (f + g * m) * dt
  {
    assert (f / m) * m == f;
  }

  lemma DampScalar(v: real, dt: real)
    ensures v - v * Damping * dt == v * (1.0 - Damping * dt)
  {
    assert v * Damping * dt == v * (Damping * dt);
  }
}
