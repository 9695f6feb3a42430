/**
 * `PhysicsManager.FixedUpdate`: every unordered pair of registered
 * bodies handles its collision once, `objects[i].HandleCollision(objects[j])`
 * for `i < j` in lexicographic order.
 */
module World {
  import opened Vectors
  import opened Dynamics
  import opened Bodies
  import opened Collisions

  // The pairs the loop visits

  /** The pairs `(i, k)` for `k` from `i + 1` to `j - 1`: the inner loop's pass for `i` up to `j`. */
  function Row(i: nat, j: nat): (r: seq<(nat, nat)>)
    requires i < j
    ensures |r| == j - i - 1
    ensures forall k :: 0 <= k < |r| ==> r[k] == (i, i + 1 + k)
    decreases j
  {
    if j == i + 1 then [] else Row(i, j - 1) + [(i, j - 1)]
  }

  /** A pass grows by one pair at a time. */
  lemma RowSnoc(i: nat, j: nat)
    requires i < j
    ensures Row(i, j + 1) == Row(i, j) + [(i, j)]
  {
  }

  /** Every pair names two bodies among `n`, the first before the second. */
  predicate InRange(ps: seq<(nat, nat)>, n: nat)
  {
    forall k :: 0 <= k < |ps| ==> ps[k].0 < ps[k].1 < n
  }

  lemma RowInRange(i: nat, j: nat, n: nat)
    requires i < j <= n
    ensures InRange(Row(i, j), n)
  {
  }

  /** The pairs of the first `m` passes of the outer loop. */
  function Pairs(m: nat, n: nat): (r: seq<(nat, nat)>)
    requires m <= n
    ensures InRange(r, n) && forall k :: 0 <= k < |r| ==> r[k].0 < m
  {
    if m == 0 then [] else Pairs(m - 1, n) + Row(m - 1, n)
  }

  /** All pairs the loop visits for `n` bodies. */
  function AllPairs(n: nat): seq<(nat, nat)>
  {
    Pairs(n, n)
  }

  predicate Before(p: (nat, nat), q: (nat, nat))
  {
    p.0 < q.0 || (p.0 == q.0 && p.1 < q.1)
  }

  /** The first `m` passes visit exactly the pairs `i < j < n` with `i < m`. */
  lemma {:induction false} PairsMembers(m: nat, n: nat)
    requires m <= n
    ensures forall p :: p in Pairs(m, n) <==> p.0 < m && p.0 < p.1 < n
  {
    if m > 0 {
      PairsMembers(m - 1, n);
      var prev, row := Pairs(m - 1, n), Row(m - 1, n);
      assert Pairs(m, n) == prev + row;
      forall p: (nat, nat) | p.0 < m && p.0 < p.1 < n
        ensures p in Pairs(m, n)
      {
        if p.0 == m - 1 {
          assert row[p.1 - m] == p;
        }
      }
    }
  }

  /** The first `m` passes visit their pairs in strictly increasing lexicographic order. */
  lemma {:induction false} PairsOrdered(m: nat, n: nat)
    requires m <= n
    ensures forall a, b :: 0 <= a < b < |Pairs(m, n)| ==> Before(Pairs(m, n)[a], Pairs(m, n)[b])
  {
    if m > 0 {
      PairsOrdered(m - 1, n);
      var prev, row := Pairs(m - 1, n), Row(m - 1, n);
      var all := prev + row;
      assert Pairs(m, n) == all;
      forall a, b | 0 <= a < b < |all|
        ensures Before(all[a], all[b])
      {
        if b < |prev| {
          assert all[a] == prev[a] && all[b] == prev[b];
        } else if a < |prev| {
          assert all[a] == prev[a] && all[b] == row[b - |prev|];
        } else {
          assert all[a] == row[a - |prev|] && all[b] == row[b - |prev|];
        }
      }
    }
  }

  /** For `n` bodies every pair `i < j < n` is visited, once, in lexicographic order. */
  lemma AllPairsMeaning(n: nat)
    ensures forall p :: p in AllPairs(n) <==> p.0 < p.1 < n
    ensures forall a, b :: 0 <= a < b < |AllPairs(n)| ==> Before(AllPairs(n)[a], AllPairs(n)[b])
    ensures forall a, b :: 0 <= a < |AllPairs(n)| && 0 <= b < |AllPairs(n)| && AllPairs(n)[a] == AllPairs(n)[b] ==> a == b
  {
    PairsMembers(n, n);
    PairsOrdered(n, n);
  }

  // The effect of one pair on the bodies' snapshots

  predicate AllValid(snaps: seq<Snapshot>)
  {
    forall k :: 0 <= k < |snaps| ==> SnapshotValid(snaps[k])
  }

  /** Only the state of a snapshot changes, and not its mass. */
  predicate SameBody(s: Snapshot, t: Snapshot)
  {
    t == s.(state := t.state) && t.state.mass == s.state.mass
  }

  predicate SameBodies(snaps: seq<Snapshot>, snaps': seq<Snapshot>)
  {
    |snaps'| == |snaps| && forall k :: 0 <= k < |snaps| ==> SameBody(snaps[k], snaps'[k])
  }

  /** `objects[i].HandleCollision(objects[j])` on the snapshots: the routine `Route` picks, in its order. */
  function PairStep(snaps: seq<Snapshot>, i: nat, j: nat, num: Numerics): (r: seq<Snapshot>)
    requires AllValid(snaps) && i < |snaps| && j < |snaps| && i != j
    ensures SameBodies(snaps, r) && AllValid(r)
    ensures forall k :: 0 <= k < |snaps| && k != i && k != j ==> r[k] == snaps[k]
  {
    var o := Dispatch(snaps[i], snaps[j], num);
    snaps[i := snaps[i].(state := o.0)][j := snaps[j].(state := o.1)]
  }

  /** The snapshots after the pairs `ps` in order. */
  function PairsFold(snaps: seq<Snapshot>, ps: seq<(nat, nat)>, num: Numerics): (r: seq<Snapshot>)
    requires AllValid(snaps)
    requires InRange(ps, |snaps|)
    ensures SameBodies(snaps, r) && AllValid(r)
    decreases |ps|
  {
    if |ps| == 0 then snaps
    else
      var init := ps[..|ps| - 1];
      assert forall k :: 0 <= k < |init| ==> init[k] == ps[k];
      PairStep(PairsFold(snaps, init, num), ps[|ps| - 1].0, ps[|ps| - 1].1, num)
  }

  lemma PairsFoldSnoc(snaps: seq<Snapshot>, ps: seq<(nat, nat)>, p: (nat, nat), num: Numerics)
    requires AllValid(snaps) && InRange(ps, |snaps|) && p.0 < p.1 < |snaps|
    ensures InRange(ps + [p], |snaps|)
    ensures PairsFold(snaps, ps + [p], num) == PairStep(PairsFold(snaps, ps, num), p.0, p.1, num)
  {
    assert (ps + [p])[..|ps|] == ps;
  }

  /** Folding two runs of pairs one after the other is folding their concatenation. */
  lemma {:induction false} PairsFoldAppend(snaps: seq<Snapshot>, ps: seq<(nat, nat)>, qs: seq<(nat, nat)>, num: Numerics)
    requires AllValid(snaps)
    requires InRange(ps, |snaps|) && InRange(qs, |snaps|)
    ensures PairsFold(snaps, ps + qs, num) == PairsFold(PairsFold(snaps, ps, num), qs, num)
    decreases |qs|
  {
    if |qs| == 0 {
      assert ps + qs == ps;
    } else {
      var qs' := qs[..|qs| - 1];
      assert (ps + qs)[..|ps + qs| - 1] == ps + qs';
      PairsFoldAppend(snaps, ps, qs', num);
    }
  }

  // Momentum of the whole scene

  function TotalMomentum(snaps: seq<Snapshot>): Vec3
    decreases |snaps|
  {
    if |snaps| == 0 then Zero() else Add(TotalMomentum(snaps[..|snaps| - 1]), Momentum(snaps[|snaps| - 1].state))
  }

  /** Replacing one snapshot changes the total by the difference of its momentum. */
  lemma {:induction false} TotalMomentumUpdate(snaps: seq<Snapshot>, i: nat, s: Snapshot)
    requires i < |snaps|
    ensures TotalMomentum(snaps[i := s])
         == Add(Sub(TotalMomentum(snaps), Momentum(snaps[i].state)), Momentum(s.state))
    decreases |snaps|
  {
    var n := |snaps|;
    var u := snaps[i := s];
    if i == n - 1 {
      assert u[..n - 1] == snaps[..n - 1];
    } else {
      assert u[..n - 1] == snaps[..n - 1][i := s];
      TotalMomentumUpdate(snaps[..n - 1], i, s);
    }
  }

  lemma PairTotal(t: Vec3, mi: Vec3, mj: Vec3, mi': Vec3, mj': Vec3)
    requires Add(mi', mj') == Add(mi, mj)
    ensures Add(Sub(Add(Sub(t, mi), mi'), mj), mj') == t
  {
  }

  /** One pair leaves the scene's total linear momentum unchanged. */
  lemma PairStepConservesMomentum(snaps: seq<Snapshot>, i: nat, j: nat, num: Numerics)
    requires AllValid(snaps) && i < |snaps| && j < |snaps| && i != j
    ensures TotalMomentum(PairStep(snaps, i, j, num)) == TotalMomentum(snaps)
  {
    var o := Dispatch(snaps[i], snaps[j], num);
    DispatchConservesMomentum(snaps[i], snaps[j], num);
    var u := snaps[i := snaps[i].(state := o.0)];
    TotalMomentumUpdate(snaps, i, snaps[i].(state := o.0));
    TotalMomentumUpdate(u, j, snaps[j].(state := o.1));
    PairTotal(TotalMomentum(snaps), Momentum(snaps[i].state), Momentum(snaps[j].state), Momentum(o.0), Momentum(o.1));
  }

  /** The whole collision pass conserves the scene's total linear momentum. */
  lemma {:induction false} PairsFoldConservesMomentum(snaps: seq<Snapshot>, ps: seq<(nat, nat)>, num: Numerics)
    requires AllValid(snaps)
    requires InRange(ps, |snaps|)
    ensures TotalMomentum(PairsFold(snaps, ps, num)) == TotalMomentum(snaps)
    decreases |ps|
  {
    if |ps| > 0 {
      PairsFoldConservesMomentum(snaps, ps[..|ps| - 1], num);
      PairStepConservesMomentum(PairsFold(snaps, ps[..|ps| - 1], num), ps[|ps| - 1].0, ps[|ps| - 1].1, num);
    }
  }

  // The bodies

  /** The snapshots of the registered bodies, in registration order. */
  function Snapshots(objects: seq<Body>): (r: seq<Snapshot>)
    reads objects, set o | o in objects :: o.triangles
    ensures |r| == |objects|
  {
    seq(|objects|, k reads objects, set o | o in objects :: o.triangles
                     requires 0 <= k < |objects| => objects[k].Snap())
  }

  /** The part of `PhysicsManager` the collision pass uses: the bodies `Start` and the spawn keys register. */
  class Manager {
    const objects: seq<Body>

    ghost predicate Valid()
      reads this, objects
    {
      && (forall a, b :: 0 <= a < b < |objects| ==> objects[a] != objects[b])
      && forall k :: 0 <= k < |objects| ==> objects[k].Valid()
    }

    constructor (objects: seq<Body>)
      ensures this.objects == objects
    {
      this.objects := objects;
    }

    /** The fields no collision routine writes, the force and torque accumulators and the base tensor, are as they were. */
    twostate predicate Kept()
      reads this, objects
    {
      forall o | o in objects ::
        o.force == old(o.force) && o.torque == old(o.torque) && o.baseInertiaTensor == old(o.baseInertiaTensor)
    }

    /** The fields no collision routine writes, body by body. */
    function Accumulators(): (r: map<Body, (Vec3, Vec3, Mat3)>)
      reads this, objects
      ensures forall o | o in objects :: o in r
    {
      map o | o in objects :: (o.force, o.torque, o.baseInertiaTensor)
    }

    /** Every body's untouched fields still have the values recorded in `acc`. */
    ghost predicate KeptFrom(acc: map<Body, (Vec3, Vec3, Mat3)>)
      reads this, objects
    {
      forall o | o in objects :: o in acc && acc[o] == (o.force, o.torque, o.baseInertiaTensor)
    }

    /** The body of the inner loop: `objects[i].HandleCollision(objects[j])`. */
    method CollidePair(i: nat, j: nat, num: Numerics)
      requires Valid() && i < j < |objects|
      modifies objects`position, objects`velocity, objects`angularVelocity
      ensures Valid()
      ensures Snapshots(objects) == PairStep(old(Snapshots(objects)), i, j, num)
    {
      var a, b := objects[i], objects[j];
      ghost var before := Snapshots(objects);
      assert AllValid(before) && before[i] == a.Snap() && before[j] == b.Snap();
      HandleCollision(a, b, num);
      assert a.Snap() == before[i].(state := a.State()) && b.Snap() == before[j].(state := b.State());
      forall k | 0 <= k < |objects| && k != i && k != j
        ensures Snapshots(objects)[k] == before[k]
      {
        assert objects[k] != a && objects[k] != b;
      }
      assert Snapshots(objects) == before[i := a.Snap()][j := b.Snap()];
    }

    /** One pass of the inner loop: `objects[i]` against every later body. */
    method CollideRow(i: nat, num: Numerics)
      requires Valid() && i < |objects|
      modifies objects
      ensures Valid() && Kept()
      ensures Snapshots(objects) == PairsFold(old(Snapshots(objects)), Row(i, |objects|), num)
    {
      ghost var start := Snapshots(objects);
      ghost var acc := Accumulators();
      ghost var done: seq<(nat, nat)> := [];
      assert AllValid(start);
      for j := i + 1 to |objects|
        invariant done == Row(i, j)
        invariant RowState(start, done, acc, num)
      {
        CollideNext(i, j, start, done, acc, num);
        RowSnoc(i, j);
        done := done + [(i, j)];
      }
      KeptByAccumulators(acc);
    }

    /** The bodies are valid, stand where the pairs `done` have taken `start`, and keep the fields recorded in `acc`. */
    ghost predicate RowState(start: seq<Snapshot>, done: seq<(nat, nat)>, acc: map<Body, (Vec3, Vec3, Mat3)>, num: Numerics)
      reads this, objects, set o | o in objects :: o.triangles
    {
      && Valid() && |start| == |objects| && AllValid(start) && InRange(done, |objects|)
      && Snapshots(objects) == PairsFold(start, done, num) && KeptFrom(acc)
    }

    /** One turn of the inner loop: the pair `(i, j)` after the pairs `done`. */
    method CollideNext(i: nat, j: nat, ghost start: seq<Snapshot>, ghost done: seq<(nat, nat)>,
                       ghost acc: map<Body, (Vec3, Vec3, Mat3)>, num: Numerics)
      requires i < j < |objects| && RowState(start, done, acc, num)
      modifies objects
      ensures RowState(start, done + [(i, j)], acc, num)
    {
      PairsFoldSnoc(start, done, (i, j), num);
      CollidePair(i, j, num);
    }

    /** Fields that still hold the values recorded on entry are unchanged. */
    twostate lemma KeptByAccumulators(acc: map<Body, (Vec3, Vec3, Mat3)>)
      requires acc == old(Accumulators()) && KeptFrom(acc)
      ensures Kept()
    {
    }

    /** `FixedUpdate`: both loops over the registered bodies. */
    method FixedUpdate(num: Numerics)
      requires Valid()
      modifies objects
      ensures Valid()
      ensures Snapshots(objects) == PairsFold(old(Snapshots(objects)), AllPairs(|objects|), num)
      ensures Kept()
    {
      ghost var start := Snapshots(objects);
      var n := |objects|;
      assert AllValid(start);
      for i := 0 to n
        invariant Valid() && Kept()
        invariant Snapshots(objects) == PairsFold(start, Pairs(i, n), num)
      {
        assert Pairs(i + 1, n) == Pairs(i, n) + Row(i, n);
        CollideRow(i, num);
        PairsFoldAppend(start, Pairs(i, n), Row(i, n), num);
      }
    }
  }
}
