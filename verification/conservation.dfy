/** What one `simulate` step promises as a whole: the internal forces of the
    system cancel (Newton's third law summed over all pairs), so the total
    linear momentum is conserved; and the step's behaviour on the small and
    degenerate inputs (no bodies, one body, two bodies, a zero time step). */
module Conservation {
  import opened Vectors
  import opened Particle
  import opened Compute

  /** The sum of the forces accumulated on bodies `0 .. k-1` after the inner
      loop has visited bodies `0 .. w-1`. */
  function RowsSum(bs: seq<BodyState>, k: nat, w: nat, g: real, mag: Vec3 -> real): Vec3
    requires IsNorm(mag) && DistinctPositions(bs)
    requires k <= |bs| && w <= |bs|
  {
    if k == 0 then Zero else Add(RowsSum(bs, k - 1, w, g, mag), Accumulated(bs, k - 1, w, g, mag))
  }

  /** The sum of the forces that body `j` exerts on the other bodies among
      `0 .. k-1`. */
  function Column(bs: seq<BodyState>, j: nat, k: nat, g: real, mag: Vec3 -> real): Vec3
    requires IsNorm(mag) && DistinctPositions(bs)
    requires j < |bs| && k <= |bs|
  {
    if k == 0 then Zero
    else
      var acc := Column(bs, j, k - 1, g, mag);
      if k - 1 != j then Add(acc, CalculateForce(bs[k - 1], bs[j], g, mag)) else acc
  }

  /** The reactions balance the actions: what body `j` exerts on bodies
      `0 .. k-1` is the opposite of what they exert on it. */
  lemma {:induction false} ColumnIsNegatedRow(bs: seq<BodyState>, j: nat, k: nat, g: real, mag: Vec3 -> real)
    requires IsNorm(mag) && DistinctPositions(bs)
    requires j < |bs| && k <= |bs|
    ensures Column(bs, j, k, g, mag) == Neg(Accumulated(bs, j, k, g, mag))
  {
    if k > 0 {
      ColumnIsNegatedRow(bs, j, k - 1, g, mag);
      if k - 1 != j {
        ForceAntisymmetric(bs[k - 1], bs[j], g, mag);
      }
    }
  }

  /** Letting the inner loop visit one more body `w` adds, over the rows
      `0 .. k-1`, exactly the forces that `w` exerts on them. */
  lemma {:induction false} RowsWiden(bs: seq<BodyState>, k: nat, w: nat, g: real, mag: Vec3 -> real)
    requires IsNorm(mag) && DistinctPositions(bs)
    requires k <= |bs| && w < |bs|
    ensures RowsSum(bs, k, w + 1, g, mag) == Add(RowsSum(bs, k, w, g, mag), Column(bs, w, k, g, mag))
  {
    if k > 0 {
      RowsWiden(bs, k - 1, w, g, mag);
    }
  }

  /** Over the square of bodies `0 .. m-1`, the pairwise forces cancel. */
  lemma {:induction false} SquareCancels(bs: seq<BodyState>, m: nat, g: real, mag: Vec3 -> real)
    requires IsNorm(mag) && DistinctPositions(bs)
    requires m <= |bs|
    ensures RowsSum(bs, m, m, g, mag) == Zero
  {
    if m > 0 {
      var n := m - 1;
      SquareCancels(bs, n, g, mag);
      RowsWiden(bs, n, n, g, mag);
      ColumnIsNegatedRow(bs, n, n, g, mag);
    }
  }

  lemma {:induction false} NetForcesPrefix(bs: seq<BodyState>, k: nat, g: real, mag: Vec3 -> real)
    requires IsNorm(mag) && DistinctPositions(bs)
    requires k <= |bs|
    ensures Sum(NetForces(bs, g, mag)[..k]) == RowsSum(bs, k, |bs|, g, mag)
  {
    if k > 0 {
      NetForcesPrefix(bs, k - 1, g, mag);
      assert NetForces(bs, g, mag)[..k][..k - 1] == NetForces(bs, g, mag)[..k - 1];
    }
  }

  /** The forces computed by the first pass of `simulate` add up to zero. */
  lemma TotalForceZero(bs: seq<BodyState>, g: real, mag: Vec3 -> real)
    requires IsNorm(mag) && DistinctPositions(bs)
    ensures Sum(NetForces(bs, g, mag)) == Zero
  {
    NetForcesPrefix(bs, |bs|, g, mag);
    assert NetForces(bs, g, mag)[..|bs|] == NetForces(bs, g, mag);
    SquareCancels(bs, |bs|, g, mag);
  }

  /** `mass * acceleration` of every body. */
  function MassAccelerations(bs: seq<BodyState>): (r: seq<Vec3>)
    ensures |r| == |bs|
    ensures forall i :: 0 <= i < |bs| ==> r[i] == Scale(bs[i].acceleration, bs[i].mass)
  {
    seq(|bs|, i requires 0 <= i < |bs| => Scale(bs[i].acceleration, bs[i].mass))
  }

  /** After a step, `mass * acceleration` summed over all the bodies is the
      zero vector. */
  lemma MassAccelerationsCancel(bs: seq<BodyState>, dt: real, g: real, mag: Vec3 -> real)
    requires IsNorm(mag) && DistinctPositions(bs) && NonZeroMasses(bs)
    ensures Sum(MassAccelerations(Step(bs, dt, g, mag))) == Zero
  {
    assert MassAccelerations(Step(bs, dt, g, mag)) == NetForces(bs, g, mag);
    TotalForceZero(bs, g, mag);
  }

  /** The linear momentum `mass * velocity` of every body. */
  function Momenta(bs: seq<BodyState>): (r: seq<Vec3>)
    ensures |r| == |bs|
    ensures forall i :: 0 <= i < |bs| ==> r[i] == Scale(bs[i].velocity, bs[i].mass)
  {
    seq(|bs|, i requires 0 <= i < |bs| => Scale(bs[i].velocity, bs[i].mass))
  }

  /** A body's momentum after the velocity update: the old momentum plus
      `dt` times `mass * acceleration` (the impulse of the force). */
  lemma MomentumUpdate(p: BodyState, q: BodyState, dt: real)
    requires q.mass == p.mass
    requires Sub(q.velocity, p.velocity) == Scale(q.acceleration, dt)
    ensures Scale(q.velocity, q.mass) == Add(Scale(p.velocity, p.mass), Scale(Scale(q.acceleration, q.mass), dt))
  {
    assert q.velocity == Add(p.velocity, Scale(q.acceleration, dt));
  }

  /** A step of the simulation conserves the total linear momentum of the
      system: the internal forces cancel, so their impulses do too. */
  lemma MomentumConserved(bs: seq<BodyState>, dt: real, g: real, mag: Vec3 -> real)
    requires IsNorm(mag) && DistinctPositions(bs) && NonZeroMasses(bs)
    ensures Sum(Momenta(Step(bs, dt, g, mag))) == Sum(Momenta(bs))
  {
    var r := Step(bs, dt, g, mag);
    var impulses := seq(|bs|, i requires 0 <= i < |bs| => Scale(MassAccelerations(r)[i], dt));
    forall i | 0 <= i < |bs|
      ensures Momenta(r)[i] == Add(Momenta(bs)[i], impulses[i])
    {
      MomentumUpdate(bs[i], r[i], dt);
    }
    SumAdd(Momenta(bs), impulses, Momenta(r));
    SumScale(MassAccelerations(r), impulses, dt);
    MassAccelerationsCancel(bs, dt, g, mag);
  }

  /** With no bodies, a step does nothing. */
  lemma StepEmpty(dt: real, g: real, mag: Vec3 -> real)
    requires IsNorm(mag)
    ensures Step([], dt, g, mag) == []
  {
  }

  /** A body alone feels no force: its acceleration becomes zero, its
      velocity is unchanged and it moves on at that velocity. */
  lemma StepSingle(b: BodyState, dt: real, g: real, mag: Vec3 -> real)
    requires IsNorm(mag) && b.mass != 0.0
    ensures Step([b], dt, g, mag) == [b.(acceleration := Zero, position := Advance(b.position, b.velocity, dt))]
  {
    assert DistinctPositions([b]);
    assert Accumulated([b], 0, 1, g, mag) == Accumulated([b], 0, 0, g, mag) == Zero;
  }

  /** With two bodies, each is pulled by the other alone. */
  lemma StepTwo(b1: BodyState, b2: BodyState, dt: real, g: real, mag: Vec3 -> real)
    requires IsNorm(mag) && b1.position != b2.position
    ensures NetForce([b1, b2], 0, g, mag) == CalculateForce(b1, b2, g, mag)
    ensures NetForce([b1, b2], 1, g, mag) == CalculateForce(b2, b1, g, mag)
  {
    var bs := [b1, b2];
    assert DistinctPositions(bs);
    assert Accumulated(bs, 0, 1, g, mag) == Zero;
    assert Accumulated(bs, 0, 2, g, mag) == Add(Zero, CalculateForce(b1, b2, g, mag));
    assert Accumulated(bs, 1, 1, g, mag) == Add(Zero, CalculateForce(b2, b1, g, mag));
    assert Accumulated(bs, 1, 2, g, mag) == Accumulated(bs, 1, 1, g, mag);
  }

  /** A zero time step moves nothing: positions and velocities stay as they
      were and only the accelerations are overwritten, with the net force
      over the mass. */
  lemma StepZeroTime(bs: seq<BodyState>, g: real, mag: Vec3 -> real)
    requires IsNorm(mag) && DistinctPositions(bs) && NonZeroMasses(bs)
    ensures forall i :: 0 <= i < |bs| ==>
      Step(bs, 0.0, g, mag)[i] == bs[i].(acceleration := CalculateAcceleration(bs[i], NetForce(bs, i, g, mag)))
  {
  }

  /** Two collections that agree on the positions and masses of their
      bodies. */
  predicate SameConfiguration(bs: seq<BodyState>, cs: seq<BodyState>) {
    |bs| == |cs| &&
    forall i :: 0 <= i < |bs| ==> bs[i].position == cs[i].position && bs[i].mass == cs[i].mass
  }

  /** The accumulated force reads only positions and masses: velocities,
      previous accelerations and densities play no part. */
  lemma {:induction false} AccumulatedIgnoresMotion(bs: seq<BodyState>, cs: seq<BodyState>, i: nat, k: nat, g: real, mag: Vec3 -> real)
    requires IsNorm(mag) && DistinctPositions(bs) && SameConfiguration(bs, cs)
    requires i < |bs| && k <= |bs|
    ensures DistinctPositions(cs)
    ensures Accumulated(bs, i, k, g, mag) == Accumulated(cs, i, k, g, mag)
  {
    if k > 0 {
      AccumulatedIgnoresMotion(bs, cs, i, k - 1, g, mag);
    }
  }

  /** The net force on each body depends on the positions and masses of the
      bodies only. */
  lemma NetForceIgnoresMotion(bs: seq<BodyState>, cs: seq<BodyState>, i: nat, g: real, mag: Vec3 -> real)
    requires IsNorm(mag) && DistinctPositions(bs) && SameConfiguration(bs, cs)
    requires i < |bs|
    ensures DistinctPositions(cs)
    ensures NetForce(bs, i, g, mag) == NetForce(cs, i, g, mag)
  {
    AccumulatedIgnoresMotion(bs, cs, i, |bs|, g, mag);
  }

  lemma DivNeg(v: Vec3, c: real)
    requires c != 0.0
    ensures Div(Neg(v), c) == Neg(Div(v, c))
  {
  }

  lemma AdvanceNeg(x: Vec3, rate: Vec3, dt: real)
    ensures Advance(Neg(x), Neg(rate), dt) == Neg(Advance(x, rate, dt))
  {
    assert (-rate.x) * dt == -(rate.x * dt);
    assert (-rate.y) * dt == -(rate.y * dt);
    assert (-rate.z) * dt == -(rate.z * dt);
  }

  /** Integrating two bodies of equal mass, mirrored through the origin,
      under opposite forces keeps them mirrored. */
  lemma IntegrateMirror(p: BodyState, q: BodyState, f: Vec3, dt: real)
    requires p.mass != 0.0 && q.mass == p.mass
    requires q.position == Neg(p.position) && q.velocity == Neg(p.velocity)
    ensures Integrate(q, Neg(f), dt).acceleration == Neg(Integrate(p, f, dt).acceleration)
    ensures Integrate(q, Neg(f), dt).velocity == Neg(Integrate(p, f, dt).velocity)
    ensures Integrate(q, Neg(f), dt).position == Neg(Integrate(p, f, dt).position)
  {
    var a := Div(f, p.mass);
    DivNeg(f, p.mass);
    var v := Advance(p.velocity, a, dt);
    AdvanceNeg(p.velocity, a, dt);
    AdvanceNeg(p.position, v, dt);
  }

  /** Two bodies of equal mass, mirrored through the origin in position and
      velocity, are still mirrored after a step, and their new accelerations
      are opposite. */
  lemma StepMirror(b1: BodyState, b2: BodyState, dt: real, g: real, mag: Vec3 -> real)
    requires IsNorm(mag) && b1.position != b2.position
    requires b1.mass != 0.0 && b2.mass == b1.mass
    requires b2.position == Neg(b1.position) && b2.velocity == Neg(b1.velocity)
    ensures Step([b1, b2], dt, g, mag)[1].acceleration == Neg(Step([b1, b2], dt, g, mag)[0].acceleration)
    ensures Step([b1, b2], dt, g, mag)[1].velocity == Neg(Step([b1, b2], dt, g, mag)[0].velocity)
    ensures Step([b1, b2], dt, g, mag)[1].position == Neg(Step([b1, b2], dt, g, mag)[0].position)
  {
    var bs := [b1, b2];
    assert DistinctPositions(bs) && NonZeroMasses(bs);
    var f := CalculateForce(b1, b2, g, mag);
    StepTwo(b1, b2, dt, g, mag);
    ForceAntisymmetric(b2, b1, g, mag);
    var r := Step(bs, dt, g, mag);
    assert r[0] == Integrate(b1, f, dt);
    assert r[1] == Integrate(b2, Neg(f), dt);
    IntegrateMirror(b1, b2, f, dt);
  }
}
