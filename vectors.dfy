/**
 * Real-valued stand-ins for the Unity value types the engine computes with:
 * Vector3, the upper 3x3 block of Matrix4x4, a transform's pose, and the
 * Mathf helpers. Floats become reals; the operations that need a square
 * root, a matrix inverse or quaternion arithmetic are taken as given
 * through a Numerics value.
 */
module Vectors {

  datatype Vec3 = Vec3(x: real, y: real, z: real)

  function Zero(): Vec3 { Vec3(0.0, 0.0, 0.0) }

  function Add(a: Vec3, b: Vec3): Vec3 { Vec3(a.x + b.x, a.y + b.y, a.z + b.z) }

  function Sub(a: Vec3, b: Vec3): Vec3 { Vec3(a.x - b.x, a.y - b.y, a.z - b.z) }

  function Neg(a: Vec3): Vec3 { Vec3(-a.x, -a.y, -a.z) }

  /** `v * k` */
  function Scale(v: Vec3, k: real): Vec3 { Vec3(v.x * k, v.y * k, v.z * k) }

  /** `v / k` */
  function Div(v: Vec3, k: real): Vec3
    requires k != 0.0
  {
    Vec3(v.x / k, v.y / k, v.z / k)
  }

  /** `Vector3.Scale`: the componentwise product. */
  function Hadamard(a: Vec3, b: Vec3): Vec3 { Vec3(a.x * b.x, a.y * b.y, a.z * b.z) }

  function Dot(a: Vec3, b: Vec3): real { a.x * b.x + a.y * b.y + a.z * b.z }

  function Cross(a: Vec3, b: Vec3): Vec3
  {
    Vec3(a.y * b.z - a.z * b.y, a.z * b.x - a.x * b.z, a.x * b.y - a.y * b.x)
  }

  function SqrMagnitude(v: Vec3): real { Dot(v, v) }

  /** The indexer `v[i]`. */
  function Get(v: Vec3, i: nat): real
    requires i < 3
  {
    if i == 0 then v.x else if i == 1 then v.y else v.z
  }

  /** The indexed assignment `v[i] = r`, as a new value. */
  function With(v: Vec3, i: nat, r: real): Vec3
    requires i < 3
  {
    if i == 0 then v.(x := r) else if i == 1 then v.(y := r) else v.(z := r)
  }

  /** `Vector3.zero` with component `i` set to `s`. */
  function Axis(i: nat, s: real): Vec3
    requires i < 3
  {
    With(Zero(), i, s)
  }

  // Mathf

  /** `Mathf.Sign`: +1 for every non-negative argument, zero included. */
  function Sign(f: real): real { if f >= 0.0 then 1.0 else -1.0 }

  function Abs(f: real): real { if f < 0.0 then -f else f }

  function Min(a: real, b: real): real { if a < b then a else b }

  function Max(a: real, b: real): real { if a > b then a else b }

  /** `Mathf.Clamp`: the lower bound is tested first. */
  function Clamp(value: real, lo: real, hi: real): real
  {
    if value < lo then lo else if value > hi then hi else value
  }

  /** `Vector3.Min` and `Vector3.Max`: componentwise. */
  function MinV(a: Vec3, b: Vec3): Vec3 { Vec3(Min(a.x, b.x), Min(a.y, b.y), Min(a.z, b.z)) }

  function MaxV(a: Vec3, b: Vec3): Vec3 { Vec3(Max(a.x, b.x), Max(a.y, b.y), Max(a.z, b.z)) }

  /** Componentwise `a <= b`. */
  predicate LessEq(a: Vec3, b: Vec3) { a.x <= b.x && a.y <= b.y && a.z <= b.z }

  /** `float.MaxValue`, the largest finite single-precision value. */
  const FloatMax: real := 340282346638528859811704183484516925440.0

  /** Unity's `Vector3.kEpsilon`. */
  const VectorEpsilon: real := 0.00001

  // 3x3 matrices (the rotation and inertia part of a Matrix4x4), stored by rows

  datatype Mat3 = Mat3(r0: Vec3, r1: Vec3, r2: Vec3)

  function Identity(): Mat3
  {
    Mat3(Vec3(1.0, 0.0, 0.0), Vec3(0.0, 1.0, 0.0), Vec3(0.0, 0.0, 1.0))
  }

  function Column(m: Mat3, j: nat): Vec3
    requires j < 3
  {
    Vec3(Get(m.r0, j), Get(m.r1, j), Get(m.r2, j))
  }

  function Transpose(m: Mat3): Mat3 { Mat3(Column(m, 0), Column(m, 1), Column(m, 2)) }

  /** `MultiplyVector`. */
  function MulVec(m: Mat3, v: Vec3): Vec3 { Vec3(Dot(m.r0, v), Dot(m.r1, v), Dot(m.r2, v)) }

  function MulMat(a: Mat3, b: Mat3): Mat3
  {
    var t := Transpose(b);
    Mat3(MulVec(t, a.r0), MulVec(t, a.r1), MulVec(t, a.r2))
  }

  /** Assigning `m00`, `m11` and `m22`; every other entry is kept. */
  function WithDiagonal(m: Mat3, d: Vec3): Mat3
  {
    Mat3(m.r0.(x := d.x), m.r1.(y := d.y), m.r2.(z := d.z))
  }

  function Diagonal(m: Mat3): Vec3 { Vec3(m.r0.x, m.r1.y, m.r2.z) }

  // Poses

  /** An orientation by its three axes: `transform.right`, `up`, `forward`. */
  datatype Frame = Frame(right: Vec3, up: Vec3, forward: Vec3)

  /** `Matrix4x4.Rotate(rotation)`: the axes are its columns. */
  function RotationMatrix(f: Frame): Mat3
  {
    Transpose(Mat3(f.right, f.up, f.forward))
  }

  /** `transform.TransformDirection`. */
  function Rotate(f: Frame, v: Vec3): Vec3
  {
    Add(Add(Scale(f.right, v.x), Scale(f.up, v.y)), Scale(f.forward, v.z))
  }

  /** A transform without parent: position, orientation and `localScale`. */
  datatype Pose = Pose(position: Vec3, rotation: Frame, scale: Vec3)

  predicate PositiveScale(p: Pose) { p.scale.x > 0.0 && p.scale.y > 0.0 && p.scale.z > 0.0 }

  /** `transform.TransformPoint`, also `localToWorldMatrix.MultiplyPoint(3x4)`. */
  function TransformPoint(p: Pose, v: Vec3): Vec3
  {
    Add(p.position, Rotate(p.rotation, Hadamard(p.scale, v)))
  }

  /** `transform.InverseTransformPoint` for an orthonormal frame. */
  function InverseTransformPoint(p: Pose, w: Vec3): Vec3
    requires PositiveScale(p)
  {
    var d := Sub(w, p.position);
    var f := p.rotation;
    Vec3(Dot(f.right, d) / p.scale.x, Dot(f.up, d) / p.scale.y, Dot(f.forward, d) / p.scale.z)
  }

  // Operations the model takes as given

  /**
   * The floating-point square root, `Matrix4x4.inverse`, and the
   * re-normalised small-angle quaternion update of an orientation by an
   * angular velocity over a time step.
   */
  datatype Numerics = Numerics(
    sqrt: real -> real,
    inverse: Mat3 -> Mat3,
    integrateRotation: (Frame, Vec3, real) -> Frame)

  function Magnitude(v: Vec3, num: Numerics): real { num.sqrt(SqrMagnitude(v)) }

  /** `Vector3.Normalize`: the zero vector when the magnitude is at most `kEpsilon`. */
  function Normalize(v: Vec3, num: Numerics): Vec3
  {
    var m := Magnitude(v, num);
    if m > VectorEpsilon then Div(v, m) else Zero()
  }

  function Distance(a: Vec3, b: Vec3, num: Numerics): real { Magnitude(Sub(a, b), num) }

  /** Unity's `a == b` on vectors: the squared difference is below `kEpsilon` squared. */
  predicate ApproxEqual(a: Vec3, b: Vec3)
  {
    SqrMagnitude(Sub(a, b)) < VectorEpsilon * VectorEpsilon
  }

  // Arithmetic facts the solver does not find unaided

  lemma MulNonNegative(a: real, b: real)
    requires a >= 0.0 && b >= 0.0
    ensures a * b >= 0.0
  {
  }

  lemma SquareNonNegative(x: real)
    ensures x * x >= 0.0
  {
    if x >= 0.0 {
      MulNonNegative(x, x);
    } else {
      MulNonNegative(-x, -x);
    }
  }

  lemma MulPositive(a: real, b: real)
    requires a > 0.0 && b > 0.0
    ensures a * b > 0.0
  {
  }

  /** For non-negative reals, comparing squares is comparing the values. */
  lemma SquareLessIff(a: real, b: real)
    requires a >= 0.0 && b >= 0.0
    ensures a * a < b * b <==> a < b
  {
    if a < b {
      MulNonNegative(a, b - a);
      MulPositive(b, b - a);
      assert a * b - a * a == a * (b - a);
      assert b * b - a * b == b * (b - a);
    } else {
      MulNonNegative(b, a - b);
      MulNonNegative(a, a - b);
      assert a * b - b * b == b * (a - b);
      assert a * a - a * b == a * (a - b);
    }
  }
}
