/**
 * The oriented-box test of `PhysicsCube.HandleCollision(PhysicsCube)`:
 * fifteen candidate separating axes, each checked by `CheckNonOverlap`,
 * which threads the contact of least penetration from one axis to the
 * next and stops at the first axis that separates the boxes.
 */
module Separation {
  import opened Vectors
  import opened Wrappers
  import opened Dynamics

  /** One axis of the sequence: the projected distance `R`, the projected radii `R0 + R1`, the axis. */
  datatype AxisTest = AxisTest(r: real, r01: real, axis: Vec3)

  predicate Separates(t: AxisTest) { t.r - t.r01 > 0.0 }

  /** A zero axis (from parallel edges) compares equal to `Vector3.zero`. */
  predicate Degenerate(t: AxisTest) { ApproxEqual(t.axis, Zero()) }

  /**
   * `CheckNonOverlap(R, R01, axis, ref contactInfo)`: the boolean and the
   * contact as the caller sees it afterwards.
   */
  function CheckNonOverlap(t: AxisTest, c: Contact): (r: (bool, Contact))
    ensures r.0 <==> Separates(t)
    ensures r.0 || Degenerate(t) ==> r.1 == c
    ensures r.1.overlapDist <= c.overlapDist
    ensures r.1.contactA == c.contactA && r.1.contactB == c.contactB
    ensures !r.0 && !Degenerate(t) && t.r01 - t.r < c.overlapDist ==>
      r.1.norm == t.axis && r.1.overlapDist == t.r01 - t.r
    ensures t.r01 - t.r >= c.overlapDist ==> r.1 == c
  {
    var dif := t.r - t.r01;
    if dif > 0.0 then (true, c)
    else if Degenerate(t) then (false, c)
    else if c.overlapDist > -dif then (false, c.(overlapDist := -dif, norm := t.axis))
    else (false, c)
  }

  /** The chain of `if (CheckNonOverlap(...)) return;` blocks: `None` once an axis separates. */
  function Sweep(tests: seq<AxisTest>, c: Contact): Option<Contact>
    decreases |tests|
  {
    if |tests| == 0 then Some(c)
    else
      var (separated, c') := CheckNonOverlap(tests[0], c);
      if separated then None else Sweep(tests[1..], c')
  }

  /** The sweep stops exactly when some axis separates the boxes. */
  lemma {:induction false} SweepNoneIff(tests: seq<AxisTest>, c: Contact)
    ensures Sweep(tests, c).None? <==> exists k :: 0 <= k < |tests| && Separates(tests[k])
    decreases |tests|
  {
    if |tests| > 0 {
      var (separated, c') := CheckNonOverlap(tests[0], c);
      if !separated {
        SweepNoneIff(tests[1..], c');
        if exists k :: 0 <= k < |tests| && Separates(tests[k]) {
          var k :| 0 <= k < |tests| && Separates(tests[k]);
          assert tests[1..][k - 1] == tests[k];
        }
        if exists k :: 0 <= k < |tests[1..]| && Separates(tests[1..][k]) {
          var k :| 0 <= k < |tests[1..]| && Separates(tests[1..][k]);
          assert tests[k + 1] == tests[1..][k];
        }
      }
    }
  }

  /**
   * When no axis separates, the final penetration is no deeper than the
   * starting value and than the overlap `R01 - R` of every non-degenerate
   * axis, and the contact points are untouched.
   */
  lemma {:induction false} SweepIsMinimum(tests: seq<AxisTest>, c: Contact)
    requires Sweep(tests, c).Some?
    ensures var f := Sweep(tests, c).value;
      && f.overlapDist <= c.overlapDist
      && f.contactA == c.contactA && f.contactB == c.contactB
      && forall k :: 0 <= k < |tests| && !Degenerate(tests[k]) ==> f.overlapDist <= tests[k].r01 - tests[k].r
    decreases |tests|
  {
    if |tests| > 0 {
      var (separated, c') := CheckNonOverlap(tests[0], c);
      SweepIsMinimum(tests[1..], c');
      var f := Sweep(tests, c).value;
      forall k | 0 <= k < |tests| && !Degenerate(tests[k])
        ensures f.overlapDist <= tests[k].r01 - tests[k].r
      {
        if k > 0 {
          assert tests[1..][k - 1] == tests[k];
        }
      }
    }
  }

  /**
   * The final normal and penetration are the starting ones, or those of a
   * non-degenerate axis of the sequence.
   */
  lemma {:induction false} SweepAttained(tests: seq<AxisTest>, c: Contact)
    requires Sweep(tests, c).Some?
    ensures var f := Sweep(tests, c).value;
      || (f.norm == c.norm && f.overlapDist == c.overlapDist)
      || exists k :: 0 <= k < |tests| && !Degenerate(tests[k])
                     && f.norm == tests[k].axis && f.overlapDist == tests[k].r01 - tests[k].r
    decreases |tests|
  {
    if |tests| > 0 {
      var (separated, c') := CheckNonOverlap(tests[0], c);
      SweepAttained(tests[1..], c');
      var f := Sweep(tests, c).value;
      if !(f.norm == c'.norm && f.overlapDist == c'.overlapDist) {
        var k :| 0 <= k < |tests[1..]| && !Degenerate(tests[1..][k])
                 && f.norm == tests[1..][k].axis && f.overlapDist == tests[1..][k].r01 - tests[1..][k].r;
        assert tests[k + 1] == tests[1..][k];
      } else if c' != c {
        assert !Degenerate(tests[0]) && f.norm == tests[0].axis && f.overlapDist == tests[0].r01 - tests[0].r;
      }
    }
  }

  // The fifteen axes

  /** `A[i]`: `transform.right`, `up`, `forward`. */
  function FrameAxis(f: Frame, i: nat): Vec3
    requires i < 3
  {
    if i == 0 then f.right else if i == 1 then f.up else f.forward
  }

  /** The rotation between the two boxes: `C[i, j] = Dot(A[i], B[j])`. */
  function C(fa: Frame, fb: Frame, i: nat, j: nat): real
    requires i < 3 && j < 3
  {
    Dot(FrameAxis(fa, i), FrameAxis(fb, j))
  }

  /** `Ca[i, j] = |C[i, j]|`. */
  function Ca(fa: Frame, fb: Frame, i: nat, j: nat): real
    requires i < 3 && j < 3
  {
    Abs(C(fa, fb, i, j))
  }

  /** The face axis `A[i]` of this box. */
  function FaceTestA(fa: Frame, fb: Frame, a: Vec3, b: Vec3, d: Vec3, i: nat): AxisTest
    requires i < 3
  {
    var r0 := Get(a, i);
    var r1 := Get(b, 0) * Ca(fa, fb, i, 0) + Get(b, 1) * Ca(fa, fb, i, 1) + Get(b, 2) * Ca(fa, fb, i, 2);
    AxisTest(Abs(Dot(FrameAxis(fa, i), d)), r0 + r1, FrameAxis(fa, i))
  }

  /** The face axis `B[j]` of the other box. */
  function FaceTestB(fa: Frame, fb: Frame, a: Vec3, b: Vec3, d: Vec3, j: nat): AxisTest
    requires j < 3
  {
    var r0 := Get(a, 0) * Ca(fa, fb, 0, j) + Get(a, 1) * Ca(fa, fb, 1, j) + Get(a, 2) * Ca(fa, fb, 2, j);
    var r1 := Get(b, j);
    AxisTest(Abs(Dot(FrameAxis(fb, j), d)), r0 + r1, FrameAxis(fb, j))
  }

  /**
   * The edge axis `Normalize(Cross(A[i], B[j]))`. With `i1, i2` the two
   * other indices of `A` in cyclic order and `j1, j2` those of `B`, the
   * distance is `|C[i1, j] * (A[i2] . D) - C[i2, j] * (A[i1] . D)|`.
   */
  function EdgeTest(fa: Frame, fb: Frame, a: Vec3, b: Vec3, d: Vec3, i: nat, j: nat, num: Numerics): AxisTest
    requires i < 3 && j < 3
  {
    var i1, i2 := (i + 1) % 3, (i + 2) % 3;
    var j1, j2 := (j + 1) % 3, (j + 2) % 3;
    var r := Abs(C(fa, fb, i1, j) * Dot(FrameAxis(fa, i2), d) - C(fa, fb, i2, j) * Dot(FrameAxis(fa, i1), d));
    var r0 := Get(a, i1) * Ca(fa, fb, i2, j) + Get(a, i2) * Ca(fa, fb, i1, j);
    var r1 := Get(b, j1) * Ca(fa, fb, i, j2) + Get(b, j2) * Ca(fa, fb, i, j1);
    AxisTest(r, r0 + r1, Normalize(Cross(FrameAxis(fa, i), FrameAxis(fb, j)), num))
  }

  /** The fifteen tests in the order the source runs them. */
  function SatTests(fa: Frame, fb: Frame, a: Vec3, b: Vec3, d: Vec3, num: Numerics): (tests: seq<AxisTest>)
    ensures |tests| == 15
    ensures forall i :: 0 <= i < 3 ==> tests[i] == FaceTestA(fa, fb, a, b, d, i)
    ensures forall j :: 0 <= j < 3 ==> tests[3 + j] == FaceTestB(fa, fb, a, b, d, j)
    ensures forall j :: 0 <= j < 3 ==> tests[6 + j] == EdgeTest(fa, fb, a, b, d, 0, j, num)
    ensures forall j :: 0 <= j < 3 ==> tests[9 + j] == EdgeTest(fa, fb, a, b, d, 1, j, num)
    ensures forall j :: 0 <= j < 3 ==> tests[12 + j] == EdgeTest(fa, fb, a, b, d, 2, j, num)
  {
    [FaceTestA(fa, fb, a, b, d, 0), FaceTestA(fa, fb, a, b, d, 1), FaceTestA(fa, fb, a, b, d, 2),
     FaceTestB(fa, fb, a, b, d, 0), FaceTestB(fa, fb, a, b, d, 1), FaceTestB(fa, fb, a, b, d, 2),
     EdgeTest(fa, fb, a, b, d, 0, 0, num), EdgeTest(fa, fb, a, b, d, 0, 1, num), EdgeTest(fa, fb, a, b, d, 0, 2, num),
     EdgeTest(fa, fb, a, b, d, 1, 0, num), EdgeTest(fa, fb, a, b, d, 1, 1, num), EdgeTest(fa, fb, a, b, d, 1, 2, num),
     EdgeTest(fa, fb, a, b, d, 2, 0, num), EdgeTest(fa, fb, a, b, d, 2, 1, num), EdgeTest(fa, fb, a, b, d, 2, 2, num)]
  }

  /** The contact the sweep starts from: `new Contact()` with `overlapDist = float.MaxValue`. */
  function SweepStart(): Contact { EmptyContact().(overlapDist := FloatMax) }

  /**
   * The contact once no axis separates: both contact points are put on the
   * centre line, split in proportion to the boxes' first extents, and the
   * normal is turned to face from this box towards the other.
   */
  function OrientContact(c: Contact, posA: Vec3, extentA: real, posB: Vec3, extentB: real): (r: Contact)
    requires extentA + extentB != 0.0
    ensures r.overlapDist == c.overlapDist
    ensures r.norm == c.norm || r.norm == Neg(c.norm)
    ensures Dot(Sub(posB, posA), r.norm) >= 0.0
    ensures r.contactA == r.contactB
  {
    var extentSum := extentA + extentB;
    var dir := Sub(posB, posA);
    var contactA := Add(posA, Div(Scale(dir, extentSum - extentA), extentSum));
    var contactB := Sub(posB, Div(Scale(dir, extentSum - extentB), extentSum));
    var s := Sign(Dot(dir, c.norm));
    SignFacesForward(dir, c.norm);
    ContactPointsMeet(posA, posB, extentA, extentB, contactA, contactB);
    c.(contactA := contactA, contactB := contactB, norm := Scale(c.norm, s))
  }

  lemma SignFacesForward(dir: Vec3, n: Vec3)
    ensures var s := Sign(Dot(dir, n));
      (Scale(n, s) == n || Scale(n, s) == Neg(n)) && Dot(dir, Scale(n, s)) >= 0.0
  {
    if Dot(dir, n) >= 0.0 {
      assert Scale(n, 1.0) == n;
      assert Dot(dir, Scale(n, 1.0)) == Dot(dir, n);
    } else {
      assert Scale(n, -1.0) == Neg(n);
      assert Dot(dir, Scale(n, -1.0)) == -Dot(dir, n);
    }
  }

  lemma ShareMeets(pa: real, pb: real, ea: real, eb: real)
    requires ea + eb != 0.0
    ensures pa + (pb - pa) * (ea + eb - ea) / (ea + eb) == pb - (pb - pa) * (ea + eb - eb) / (ea + eb)
  {
    var s := ea + eb;
    var d := pb - pa;
    assert d * (s - ea) / s + d * (s - eb) / s == d * (s - ea + s - eb) / s;
    assert d * (s - ea + s - eb) == d * s;
  }

  lemma ContactPointsMeet(posA: Vec3, posB: Vec3, ea: real, eb: real, contactA: Vec3, contactB: Vec3)
    requires ea + eb != 0.0
    requires contactA == Add(posA, Div(Scale(Sub(posB, posA), ea + eb - ea), ea + eb))
    requires contactB == Sub(posB, Div(Scale(Sub(posB, posA), ea + eb - eb), ea + eb))
    ensures contactA == contactB
  {
    ShareMeets(posA.x, posB.x, ea, eb);
    ShareMeets(posA.y, posB.y, ea, eb);
    ShareMeets(posA.z, posB.z, ea, eb);
  }

  /**
   * The detection half of box/box: `None` when an axis separates the
   * boxes, otherwise the contact handed to `ResolveCollision`.
   */
  function BoxBoxContact(poseA: Pose, extentsA: Vec3, poseB: Pose, extentsB: Vec3, num: Numerics): Option<Contact>
    requires extentsA.x + extentsB.x != 0.0
  {
    var d := Sub(poseB.position, poseA.position);
    var tests := SatTests(poseA.rotation, poseB.rotation, extentsA, extentsB, d, num);
    match Sweep(tests, SweepStart())
    case None => None
    case Some(c) => Some(OrientContact(c, poseA.position, extentsA.x, poseB.position, extentsB.x))
  }

  /**
   * The boxes collide exactly when none of the fifteen axes separates
   * them; the contact then carries the least overlap over the
   * non-degenerate axes, its normal faces the other box and both contact
   * points coincide.
   */
  lemma BoxBoxMeaning(poseA: Pose, extentsA: Vec3, poseB: Pose, extentsB: Vec3, num: Numerics)
    requires extentsA.x + extentsB.x != 0.0
    ensures var tests := SatTests(poseA.rotation, poseB.rotation, extentsA, extentsB, Sub(poseB.position, poseA.position), num);
      var r := BoxBoxContact(poseA, extentsA, poseB, extentsB, num);
      && (r.None? <==> exists k :: 0 <= k < 15 && Separates(tests[k]))
      && (r.Some? ==>
            && r.value.overlapDist <= FloatMax
            && (forall k :: 0 <= k < 15 && !Degenerate(tests[k]) ==> r.value.overlapDist <= tests[k].r01 - tests[k].r)
            && Dot(Sub(poseB.position, poseA.position), r.value.norm) >= 0.0
            && r.value.contactA == r.value.contactB)
  {
    var tests := SatTests(poseA.rotation, poseB.rotation, extentsA, extentsB, Sub(poseB.position, poseA.position), num);
    SweepNoneIff(tests, SweepStart());
    if Sweep(tests, SweepStart()).Some? {
      SweepIsMinimum(tests, SweepStart());
    }
  }
}
