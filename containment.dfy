/**
 * The container checks run at the start of each body's `FixedUpdate`:
 * the vertex scans of `PhysicsCube.InsideContainer` and
 * `PhysicsCone.InsideContainer`, which gather the penetrating vertices
 * into a contact with the walls, and the per-axis clamp-and-reflect of
 * `PhysicsSphere.FixedUpdate`.
 */
module Containment {
  import opened Vectors
  import opened Wrappers
  import opened Dynamics

  /** One recorded penetration: the world vertex, the wall's outward normal, the depth. */
  datatype Penetration = Penetration(point: Vec3, normal: Vec3, depth: real)

  /**
   * Axis `i` of one world vertex: the min wall is checked first, the max
   * wall only when the min wall is not crossed.
   */
  function AxisPenetration(v: Vec3, lo: Vec3, hi: Vec3, i: nat): (r: Option<Penetration>)
    requires i < 3
    ensures r.Some? ==> r.value.point == v && r.value.depth > 0.0
    ensures r.Some? <==> Get(v, i) < Get(lo, i) || Get(v, i) > Get(hi, i)
  {
    if Get(v, i) < Get(lo, i) then Some(Penetration(v, Axis(i, -1.0), Get(lo, i) - Get(v, i)))
    else if Get(v, i) > Get(hi, i) then Some(Penetration(v, Axis(i, 1.0), Get(v, i) - Get(hi, i)))
    else None
  }

  function OptionSeq(o: Option<Penetration>): seq<Penetration>
  {
    if o.Some? then [o.value] else []
  }

  /** The entries recorded for one vertex by the first `n` passes of the axis loop. */
  function VertexPenetrations(v: Vec3, lo: Vec3, hi: Vec3, n: nat): (es: seq<Penetration>)
    requires n <= 3
    ensures |es| <= n
  {
    if n == 0 then []
    else VertexPenetrations(v, lo, hi, n - 1) + OptionSeq(AxisPenetration(v, lo, hi, n - 1))
  }

  /** Every entry recorded for the vertices `vs`, in scan order. */
  function Penetrations(vs: seq<Vec3>, lo: Vec3, hi: Vec3): (es: seq<Penetration>)
    ensures |es| <= 3 * |vs|
  {
    if |vs| == 0 then []
    else Penetrations(vs[..|vs| - 1], lo, hi) + VertexPenetrations(vs[|vs| - 1], lo, hi, 3)
  }

  predicate InsideBounds(v: Vec3, lo: Vec3, hi: Vec3) { LessEq(lo, v) && LessEq(v, hi) }

  lemma VertexPenetrationsEmptyIff(v: Vec3, lo: Vec3, hi: Vec3)
    ensures VertexPenetrations(v, lo, hi, 3) == [] <==> InsideBounds(v, lo, hi)
  {
    assert VertexPenetrations(v, lo, hi, 1) == OptionSeq(AxisPenetration(v, lo, hi, 0));
  }

  /** Nothing is recorded exactly when every scanned vertex lies within the container bounds. */
  lemma {:induction false} PenetrationsEmptyIff(vs: seq<Vec3>, lo: Vec3, hi: Vec3)
    ensures Penetrations(vs, lo, hi) == [] <==> forall k :: 0 <= k < |vs| ==> InsideBounds(vs[k], lo, hi)
  {
    if |vs| > 0 {
      var front := vs[..|vs| - 1];
      PenetrationsEmptyIff(front, lo, hi);
      VertexPenetrationsEmptyIff(vs[|vs| - 1], lo, hi);
      assert forall k :: 0 <= k < |front| ==> front[k] == vs[k];
    }
  }

  /** Every entry has positive depth, a recorded point among `vs`, and a wall normal `±e_i`. */
  lemma {:induction false} PenetrationsWellFormed(vs: seq<Vec3>, lo: Vec3, hi: Vec3)
    ensures forall e :: e in Penetrations(vs, lo, hi) ==>
      && e.depth > 0.0
      && e.point in vs
      && exists i :: 0 <= i < 3 && (e.normal == Axis(i, -1.0) || e.normal == Axis(i, 1.0))
  {
    if |vs| > 0 {
      var front := vs[..|vs| - 1];
      PenetrationsWellFormed(front, lo, hi);
      assert forall v :: v in front ==> v in vs;
      VertexWellFormed(vs[|vs| - 1], lo, hi, 3);
    }
  }

  lemma {:induction false} VertexWellFormed(v: Vec3, lo: Vec3, hi: Vec3, n: nat)
    requires n <= 3
    ensures forall e :: e in VertexPenetrations(v, lo, hi, n) ==>
      && e.depth > 0.0
      && e.point == v
      && exists i :: 0 <= i < 3 && (e.normal == Axis(i, -1.0) || e.normal == Axis(i, 1.0))
  {
    if n > 0 {
      VertexWellFormed(v, lo, hi, n - 1);
    }
  }

  /** `minOverlap`: `float.MaxValue` folded with `Mathf.Min` over the depths. */
  function MinDepth(es: seq<Penetration>): real
  {
    if |es| == 0 then FloatMax else Min(MinDepth(es[..|es| - 1]), es[|es| - 1].depth)
  }

  /**
   * `minOverlap` is no larger than any recorded depth, and it is one of
   * them unless it is still `float.MaxValue`.
   */
  lemma {:induction false} MinDepthIsMinimum(es: seq<Penetration>)
    ensures MinDepth(es) <= FloatMax
    ensures forall k :: 0 <= k < |es| ==> MinDepth(es) <= es[k].depth
    ensures MinDepth(es) == FloatMax || exists k :: 0 <= k < |es| && MinDepth(es) == es[k].depth
  {
    if |es| > 0 {
      var front := es[..|es| - 1];
      MinDepthIsMinimum(front);
      assert forall k :: 0 <= k < |front| ==> front[k] == es[k];
      if MinDepth(es) != FloatMax && MinDepth(es) != es[|es| - 1].depth {
        var k :| 0 <= k < |front| && MinDepth(front) == front[k].depth;
        assert MinDepth(es) == es[k].depth;
      }
    }
  }

  function Points(es: seq<Penetration>): (ps: seq<Vec3>)
    ensures |ps| == |es| && forall k :: 0 <= k < |es| ==> ps[k] == es[k].point
  {
    seq(|es|, k requires 0 <= k < |es| => es[k].point)
  }

  function Normals(es: seq<Penetration>): (ns: seq<Vec3>)
    ensures |ns| == |es| && forall k :: 0 <= k < |es| ==> ns[k] == es[k].normal
  {
    seq(|es|, k requires 0 <= k < |es| => es[k].normal)
  }

  /** The componentwise sum of a list of vectors, added front to back. */
  function Sum(vs: seq<Vec3>): Vec3
  {
    if |vs| == 0 then Zero() else Add(Sum(vs[..|vs| - 1]), vs[|vs| - 1])
  }

  /** The world positions of the mesh vertices, `localToWorldMatrix.MultiplyPoint3x4`. */
  function WorldVertices(pose: Pose, vertices: seq<Vec3>): (ws: seq<Vec3>)
    ensures |ws| == |vertices| && forall k :: 0 <= k < |vertices| ==> ws[k] == TransformPoint(pose, vertices[k])
  {
    seq(|vertices|, k requires 0 <= k < |vertices| => TransformPoint(pose, vertices[k]))
  }

  /**
   * The contact with the walls: the mean of the recorded points, the
   * normalised sum of the recorded normals and the least depth; `None`
   * when nothing was recorded, which is `InsideContainer` returning true.
   */
  function WallContact(es: seq<Penetration>, num: Numerics): (r: Option<Contact>)
    ensures r.None? <==> |es| == 0
    ensures r.Some? ==> r.value.overlapDist == MinDepth(es) && r.value.contactB == Zero()
  {
    if |es| == 0 then None
    else Some(Contact(Normalize(Sum(Normals(es)), num), MinDepth(es), Div(Sum(Points(es)), |es| as real), Zero()))
  }

  /**
   * The inner `for (int i = 0; i < 3; i++)` over one world vertex, appending
   * to `points` and `normals` and lowering `minOverlap`.
   */
  method ScanVertex(vertexWorld: Vec3, lo: Vec3, hi: Vec3,
                    ghost entries: seq<Penetration>, points: seq<Vec3>, normals: seq<Vec3>, minOverlap: real)
    returns (ghost entries': seq<Penetration>, points': seq<Vec3>, normals': seq<Vec3>, minOverlap': real)
    requires points == Points(entries) && normals == Normals(entries) && minOverlap == MinDepth(entries)
    ensures entries' == entries + VertexPenetrations(vertexWorld, lo, hi, 3)
    ensures points' == Points(entries') && normals' == Normals(entries') && minOverlap' == MinDepth(entries')
  {
    entries', points', normals', minOverlap' := entries, points, normals, minOverlap;
    for i := 0 to 3
      invariant entries' == entries + VertexPenetrations(vertexWorld, lo, hi, i)
      invariant points' == Points(entries') && normals' == Normals(entries') && minOverlap' == MinDepth(entries')
    {
      ghost var done := VertexPenetrations(vertexWorld, lo, hi, i);
      entries', points', normals', minOverlap' := ScanAxis(vertexWorld, lo, hi, i, entries', points', normals', minOverlap');
      ghost var step := OptionSeq(AxisPenetration(vertexWorld, lo, hi, i));
      assert VertexPenetrations(vertexWorld, lo, hi, i + 1) == done + step;
      AppendAssociates(entries, done, step);
    }
  }

  lemma AppendAssociates(a: seq<Penetration>, b: seq<Penetration>, c: seq<Penetration>)
    ensures (a + b) + c == a + (b + c)
  {
  }

  /** One pass of the axis loop: the if / else-if on the two walls of axis `i`. */
  method ScanAxis(vertexWorld: Vec3, lo: Vec3, hi: Vec3, i: nat,
                  ghost entries: seq<Penetration>, points: seq<Vec3>, normals: seq<Vec3>, minOverlap: real)
    returns (ghost entries': seq<Penetration>, points': seq<Vec3>, normals': seq<Vec3>, minOverlap': real)
    requires i < 3
    requires points == Points(entries) && normals == Normals(entries) && minOverlap == MinDepth(entries)
    ensures entries' == entries + OptionSeq(AxisPenetration(vertexWorld, lo, hi, i))
    ensures points' == Points(entries') && normals' == Normals(entries') && minOverlap' == MinDepth(entries')
  {
    entries', points', normals', minOverlap' := entries, points, normals, minOverlap;
    if Get(vertexWorld, i) < Get(lo, i) {
      var normal := Axis(i, -1.0);
      var depth := Get(lo, i) - Get(vertexWorld, i);
      AppendEntry(entries, Penetration(vertexWorld, normal, depth));
      entries' := entries + [Penetration(vertexWorld, normal, depth)];
      points' := points + [vertexWorld];
      normals' := normals + [normal];
      minOverlap' := Min(minOverlap, depth);
    } else if Get(vertexWorld, i) > Get(hi, i) {
      var normal := Axis(i, 1.0);
      var depth := Get(vertexWorld, i) - Get(hi, i);
      AppendEntry(entries, Penetration(vertexWorld, normal, depth));
      entries' := entries + [Penetration(vertexWorld, normal, depth)];
      points' := points + [vertexWorld];
      normals' := normals + [normal];
      minOverlap' := Min(minOverlap, depth);
    }
  }

  lemma AppendEntry(es: seq<Penetration>, e: Penetration)
    ensures Points(es + [e]) == Points(es) + [e.point]
    ensures Normals(es + [e]) == Normals(es) + [e.normal]
    ensures MinDepth(es + [e]) == Min(MinDepth(es), e.depth)
  {
    assert (es + [e])[..|es|] == es;
  }

  /** `foreach (Vector3 point in points) sumPoints += point;` and the same for the normals. */
  method SumAll(vs: seq<Vec3>) returns (s: Vec3)
    ensures s == Sum(vs)
  {
    s := Zero();
    for k := 0 to |vs|
      invariant s == Sum(vs[..k])
    {
      assert vs[..k + 1][..k] == vs[..k];
      s := Add(s, vs[k]);
    }
    assert vs[..|vs|] == vs;
  }

  /** The tail of both `InsideContainer`s: from the gathered lists to the result and contact. */
  method Summarise(ghost entries: seq<Penetration>, points: seq<Vec3>, normals: seq<Vec3>, minOverlap: real, num: Numerics)
    returns (inside: bool, contactInfo: Contact)
    requires points == Points(entries) && normals == Normals(entries) && minOverlap == MinDepth(entries)
    ensures inside <==> WallContact(entries, num).None?
    ensures contactInfo == if inside then EmptyContact() else WallContact(entries, num).value
  {
    contactInfo := EmptyContact();
    if |points| > 0 {
      var sumPoints := SumAll(points);
      var sumNormals := SumAll(normals);
      contactInfo := contactInfo.(contactA := Div(sumPoints, |points| as real),
                                  norm := Normalize(sumNormals, num),
                                  overlapDist := minOverlap);
      return false, contactInfo;
    }
    return true, contactInfo;
  }

  /**
   * `PhysicsCube.InsideContainer`: the scan stops after the first eight
   * mesh vertices, the corners of the cube mesh.
   */
  method CubeInsideContainer(pose: Pose, vertices: seq<Vec3>, lo: Vec3, hi: Vec3, num: Numerics)
    returns (inside: bool, contactInfo: Contact)
    ensures var scanned := WorldVertices(pose, vertices)[..Scanned(|vertices|)];
      inside <==> forall k :: 0 <= k < |scanned| ==> InsideBounds(scanned[k], lo, hi)
    ensures var es := Penetrations(WorldVertices(pose, vertices)[..Scanned(|vertices|)], lo, hi);
      && (inside <==> es == [])
      && contactInfo == if inside then EmptyContact() else WallContact(es, num).value
  {
    ghost var entries;
    var points, normals, minOverlap;
    entries, points, normals, minOverlap := CubeScan(pose, vertices, lo, hi);
    inside, contactInfo := Summarise(entries, points, normals, minOverlap, num);
    PenetrationsEmptyIff(WorldVertices(pose, vertices)[..Scanned(|vertices|)], lo, hi);
  }

  /** The `foreach` of `PhysicsCube.InsideContainer`, with its `count >= 8` break. */
  method CubeScan(pose: Pose, vertices: seq<Vec3>, lo: Vec3, hi: Vec3)
    returns (ghost entries: seq<Penetration>, points: seq<Vec3>, normals: seq<Vec3>, minOverlap: real)
    ensures entries == Penetrations(WorldVertices(pose, vertices)[..Scanned(|vertices|)], lo, hi)
    ensures points == Points(entries) && normals == Normals(entries) && minOverlap == MinDepth(entries)
  {
    ghost var worlds := WorldVertices(pose, vertices);
    entries := [];
    points, normals, minOverlap := [], [], FloatMax;
    var count := 0;
    var k := 0;
    while k < |vertices|
      invariant 0 <= k <= |vertices| && count == k && k <= 8
      invariant entries == Penetrations(worlds[..k], lo, hi)
      invariant points == Points(entries) && normals == Normals(entries) && minOverlap == MinDepth(entries)
    {
      if count >= 8 {
        assert k == Scanned(|vertices|);
        return;
      }
      entries, points, normals, minOverlap := ScanMeshVertex(pose, vertices, k, lo, hi, entries, points, normals, minOverlap);
      count := count + 1;
      k := k + 1;
    }
    assert k == Scanned(|vertices|);
  }

  /** One pass of the `foreach` of both `InsideContainer`s: mesh vertex `k` to world space, then its scan. */
  method ScanMeshVertex(pose: Pose, vertices: seq<Vec3>, k: nat, lo: Vec3, hi: Vec3,
                        ghost entries: seq<Penetration>, points: seq<Vec3>, normals: seq<Vec3>, minOverlap: real)
    returns (ghost entries': seq<Penetration>, points': seq<Vec3>, normals': seq<Vec3>, minOverlap': real)
    requires k < |vertices|
    requires entries == Penetrations(WorldVertices(pose, vertices)[..k], lo, hi)
    requires points == Points(entries) && normals == Normals(entries) && minOverlap == MinDepth(entries)
    ensures entries' == Penetrations(WorldVertices(pose, vertices)[..k + 1], lo, hi)
    ensures points' == Points(entries') && normals' == Normals(entries') && minOverlap' == MinDepth(entries')
  {
    var vertexWorld := TransformPoint(pose, vertices[k]);
    entries', points', normals', minOverlap' := ScanVertex(vertexWorld, lo, hi, entries, points, normals, minOverlap);
    PenetrationsSnoc(WorldVertices(pose, vertices), k, lo, hi);
  }

  lemma PenetrationsSnoc(worlds: seq<Vec3>, k: nat, lo: Vec3, hi: Vec3)
    requires k < |worlds|
    ensures Penetrations(worlds[..k + 1], lo, hi) == Penetrations(worlds[..k], lo, hi) + VertexPenetrations(worlds[k], lo, hi, 3)
  {
    assert worlds[..k + 1][..k] == worlds[..k];
  }

  /** How many vertices the cube scan reads: the first eight at most. */
  function Scanned(n: nat): (m: nat)
    ensures m <= n && m <= 8 && (m == n || m == 8)
  {
    if n < 8 then n else 8
  }

  /** `PhysicsCone.InsideContainer`: the same scan over every mesh vertex. */
  method ConeInsideContainer(pose: Pose, vertices: seq<Vec3>, lo: Vec3, hi: Vec3, num: Numerics)
    returns (inside: bool, contactInfo: Contact)
    ensures var worlds := WorldVertices(pose, vertices);
      inside <==> forall k :: 0 <= k < |worlds| ==> InsideBounds(worlds[k], lo, hi)
    ensures var es := Penetrations(WorldVertices(pose, vertices), lo, hi);
      && (inside <==> es == [])
      && contactInfo == if inside then EmptyContact() else WallContact(es, num).value
  {
    ghost var worlds := WorldVertices(pose, vertices);
    ghost var entries: seq<Penetration> := [];
    var points: seq<Vec3> := [];
    var normals: seq<Vec3> := [];
    var minOverlap := FloatMax;
    for k := 0 to |vertices|
      invariant entries == Penetrations(worlds[..k], lo, hi)
      invariant points == Points(entries) && normals == Normals(entries) && minOverlap == MinDepth(entries)
    {
      entries, points, normals, minOverlap := ScanMeshVertex(pose, vertices, k, lo, hi, entries, points, normals, minOverlap);
    }
    assert worlds[..|vertices|] == worlds;
    inside, contactInfo := Summarise(entries, points, normals, minOverlap, num);
    PenetrationsEmptyIff(worlds, lo, hi);
  }

  // The sphere

  /**
   * One axis of `PhysicsSphere.FixedUpdate`: a centre within `radius` of
   * the min wall is put at `min + radius` and its velocity reflected with
   * the restitution; the max wall is then checked against the centre as
   * already updated. `Mathf.Pow(x, 2)` is `x * x`. The result is
   * `(centre, velocity)`.
   */
  function ReflectAxis(c: real, v: real, radius: real, lo: real, hi: real): (real, real)
  {
    var r2 := radius * radius;
    var (c1, v1) := if (c - lo) * (c - lo) <= r2 then (lo + radius, -Restitution * v) else (c, v);
    if (c1 - hi) * (c1 - hi) <= r2 then (hi - radius, -Restitution * v1) else (c1, v1)
  }

  /** A centre farther than the radius from both walls is left alone. */
  lemma ReflectFarFromWalls(c: real, v: real, radius: real, lo: real, hi: real)
    requires radius >= 0.0 && lo + radius < c < hi - radius
    ensures ReflectAxis(c, v, radius, lo, hi) == (c, v)
  {
    SquareLessIff(radius, c - lo);
    SquareLessIff(radius, hi - c);
    assert (c - hi) * (c - hi) == (hi - c) * (hi - c);
  }

  lemma SquareWithin(d: real, radius: real)
    requires radius >= 0.0 && -radius <= d <= radius
    ensures d * d <= radius * radius
  {
    var m := Abs(d);
    SquareLessIff(radius, m);
    assert m * m == d * d;
  }

  /**
   * Touching only the min wall, in a container wider than the sphere, puts
   * the centre a radius from that wall and reverses the velocity scaled by
   * the restitution.
   */
  lemma ReflectMinWall(c: real, v: real, radius: real, lo: real, hi: real)
    requires radius >= 0.0 && lo - radius <= c <= lo + radius && hi - lo > 2.0 * radius
    ensures ReflectAxis(c, v, radius, lo, hi) == (lo + radius, -Restitution * v)
  {
    SquareWithin(c - lo, radius);
    SquareLessIff(radius, hi - (lo + radius));
    assert (lo + radius - hi) * (lo + radius - hi) == (hi - (lo + radius)) * (hi - (lo + radius));
  }

  /** In a container narrower than the sphere both walls fire: the velocity ends at `e^2 * v`. */
  lemma ReflectBothWalls(c: real, v: real, radius: real, lo: real, hi: real)
    requires radius >= 0.0 && lo - radius <= c <= lo + radius && lo <= hi <= lo + 2.0 * radius
    ensures ReflectAxis(c, v, radius, lo, hi) == (hi - radius, Restitution * Restitution * v)
  {
    SquareWithin(c - lo, radius);
    SquareWithin(lo + radius - hi, radius);
  }

  /** The sphere's centre and velocity after the reflection on all three axes. */
  function ReflectSphere(center: Vec3, velocity: Vec3, radius: real, cmin: Vec3, cmax: Vec3): (Vec3, Vec3)
  {
    var x := ReflectAxis(center.x, velocity.x, radius, cmin.x, cmax.x);
    var y := ReflectAxis(center.y, velocity.y, radius, cmin.y, cmax.y);
    var z := ReflectAxis(center.z, velocity.z, radius, cmin.z, cmax.z);
    (Vec3(x.0, y.0, z.0), Vec3(x.1, y.1, z.1))
  }

  /** The `for (int i = 0; i < 3; i++)` loop of `PhysicsSphere.FixedUpdate`. */
  method ContainSphere(center: Vec3, velocity: Vec3, radius: real, cmin: Vec3, cmax: Vec3)
    returns (center': Vec3, velocity': Vec3)
    ensures forall i :: 0 <= i < 3 ==>
      (Get(center', i), Get(velocity', i))
        == ReflectAxis(Get(center, i), Get(velocity, i), radius, Get(cmin, i), Get(cmax, i))
    ensures (center', velocity') == ReflectSphere(center, velocity, radius, cmin, cmax)
  {
    center', velocity' := center, velocity;
    for i := 0 to 3
      invariant forall k :: 0 <= k < i ==>
        (Get(center', k), Get(velocity', k))
          == ReflectAxis(Get(center, k), Get(velocity, k), radius, Get(cmin, k), Get(cmax, k))
      invariant forall k :: i <= k < 3 ==> Get(center', k) == Get(center, k) && Get(velocity', k) == Get(velocity, k)
    {
      var c, v := ContainAxis(Get(center', i), Get(velocity', i), radius, Get(cmin, i), Get(cmax, i));
      center', velocity' := With(center', i, c), With(velocity', i, v);
    }
    assert (Get(center', 0), Get(velocity', 0)) == ReflectAxis(center.x, velocity.x, radius, cmin.x, cmax.x);
    assert (Get(center', 1), Get(velocity', 1)) == ReflectAxis(center.y, velocity.y, radius, cmin.y, cmax.y);
    assert (Get(center', 2), Get(velocity', 2)) == ReflectAxis(center.z, velocity.z, radius, cmin.z, cmax.z);
  }

  /** One pass of that loop: the two `Mathf.Pow(..., 2) <= Mathf.Pow(radius, 2)` tests of one axis. */
  method ContainAxis(c: real, v: real, radius: real, lo: real, hi: real) returns (c': real, v': real)
    ensures (c', v') == ReflectAxis(c, v, radius, lo, hi)
  {
    c', v' := c, v;
    var r2 := radius * radius;
    var dist := (c' - lo) * (c' - lo);
    if dist <= r2 {
      c', v' := lo + radius, -Restitution * v';
    }
    dist := (c' - hi) * (c' - hi);
    if dist <= r2 {
      c', v' := hi - radius, -Restitution * v';
    }
  }
}
