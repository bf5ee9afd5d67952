/** The gravitational step of src/compute.rs: Newton's inverse-square force
    between two bodies, the acceleration it causes, and `simulate`, which
    accumulates the force on every body from every other body and then
    advances each body by one semi-implicit Euler step.

    The gravitational constant `g` and the time step `dt` are parameters,
    as in the source; the vector length `mag` is one too (see `Vectors`).
    Arithmetic is exact: the source's 32-bit floats are modelled as reals. */
module Compute {
  import opened Vectors
  import opened Particle

  /** No two bodies of the collection share a position: the force law
      divides by the squared distance between every pair. */
  predicate DistinctPositions(bs: seq<BodyState>) {
    forall i, j :: 0 <= i < |bs| && 0 <= j < |bs| && i != j ==> bs[i].position != bs[j].position
  }

  /** No body has zero mass: acceleration divides by the mass. */
  predicate NonZeroMasses(bs: seq<BodyState>) {
    forall i :: 0 <= i < |bs| ==> bs[i].mass != 0.0
  }

  lemma DivAsScale(v: Vec3, c: real)
    requires c != 0.0
    ensures Div(v, c) == Scale(v, 1.0 / c)
  {
  }

  /** A unit vector: `v / mag(v)` has length one. */
  lemma UnitLength(mag: Vec3 -> real, v: Vec3)
    requires IsNorm(mag) && v != Zero
    ensures mag(v) > 0.0 && mag(Div(v, mag(v))) == 1.0
  {
    var m := mag(v);
    DivAsScale(v, m);
    assert mag(Scale(v, 1.0 / m)) == Abs(1.0 / m) * m;
  }

  /** A vector of size `c` along a unit vector has length `|c|`. */
  lemma ScaledUnitLength(mag: Vec3 -> real, r: Vec3, c: real)
    requires IsNorm(mag) && r != Zero
    ensures mag(r) > 0.0
    ensures mag(Scale(Div(r, mag(r)), c)) == Abs(c)
  {
    UnitLength(mag, r);
  }

  /** `g * m1 * m2 / r^2`: the size of the attraction between masses `m1`
      and `m2` at distance `r`. */
  function ForceMagnitude(g: real, m1: real, m2: real, r: real): real
    requires r != 0.0
  {
    g * m1 * m2 / (r * r)
  }

  /** The force that body `p2` exerts on body `p1` (`calculate_force`):
      of size `g * m1 * m2 / r^2` (the inverse-square law), along the unit
      vector from `p1` towards `p2`. The law is singular when the two
      positions coincide. */
  function CalculateForce(p1: BodyState, p2: BodyState, g: real, mag: Vec3 -> real): (f: Vec3)
    requires IsNorm(mag)
    requires p1.position != p2.position
    ensures mag(Sub(p2.position, p1.position)) > 0.0
    ensures mag(f) == Abs(ForceMagnitude(g, p1.mass, p2.mass, mag(Sub(p2.position, p1.position))))
  {
    var r := Sub(p2.position, p1.position);
    DistancePositive(mag, p1.position, p2.position);
    var rHat := Div(r, mag(r));
    var forceMag := ForceMagnitude(g, p1.mass, p2.mass, mag(r));
    ScaledUnitLength(mag, r, forceMag);
    Scale(rHat, forceMag)
  }

  lemma ScaleDivNeg(r: Vec3, m: real, k: real)
    requires m != 0.0
    ensures Scale(Div(r, m), k) == Neg(Scale(Div(Neg(r), m), k))
  {
  }

  /** Newton's third law: the force of `p2` on `p1` is the opposite of the
      force of `p1` on `p2`. */
  lemma ForceAntisymmetric(p1: BodyState, p2: BodyState, g: real, mag: Vec3 -> real)
    requires IsNorm(mag)
    requires p1.position != p2.position
    ensures CalculateForce(p1, p2, g, mag) == Neg(CalculateForce(p2, p1, g, mag))
  {
    var r := Sub(p2.position, p1.position);
    assert Sub(p1.position, p2.position) == Neg(r);
    NormNeg(mag, r);
    DistancePositive(mag, p1.position, p2.position);
    var m := mag(r);
    var k := ForceMagnitude(g, p1.mass, p2.mass, m);
    assert ForceMagnitude(g, p2.mass, p1.mass, m) == k;
    assert CalculateForce(p1, p2, g, mag) == Scale(Div(r, m), k);
    assert CalculateForce(p2, p1, g, mag) == Scale(Div(Neg(r), m), k);
    ScaleDivNeg(r, m, k);
  }

  lemma QuotientPositive(a: real, b: real)
    requires a > 0.0 && b > 0.0
    ensures a / b > 0.0
  {
  }

  lemma ForceMagnitudePositive(g: real, m1: real, m2: real, r: real)
    requires g > 0.0 && m1 > 0.0 && m2 > 0.0 && r > 0.0
    ensures ForceMagnitude(g, m1, m2, r) > 0.0
  {
  }

  lemma ScaleUnit(r: Vec3, m: real, c: real)
    requires m != 0.0
    ensures Scale(Div(r, m), c) == Scale(r, c / m)
  {
  }

  /** Gravity attracts: with a positive constant and positive masses, the
      force on `p1` is a positive multiple of the vector from `p1` to `p2`. */
  lemma ForceAttracts(p1: BodyState, p2: BodyState, g: real, mag: Vec3 -> real)
    requires IsNorm(mag)
    requires p1.position != p2.position
    requires g > 0.0 && p1.mass > 0.0 && p2.mass > 0.0
    ensures exists c :: c > 0.0 && CalculateForce(p1, p2, g, mag) == Scale(Sub(p2.position, p1.position), c)
  {
    var r := Sub(p2.position, p1.position);
    var m := mag(r);
    DistancePositive(mag, p1.position, p2.position);
    var forceMag := ForceMagnitude(g, p1.mass, p2.mass, m);
    ForceMagnitudePositive(g, p1.mass, p2.mass, m);
    QuotientPositive(forceMag, m);
    ScaleUnit(r, m, forceMag);
    assert CalculateForce(p1, p2, g, mag) == Scale(r, forceMag / m);
  }

  /** The acceleration a force gives a body (`calculate_acceleration`):
      Newton's second law, mass times the result is the force. */
  function CalculateAcceleration(p: BodyState, force: Vec3): (a: Vec3)
    requires p.mass != 0.0
    ensures Scale(a, p.mass) == force
  {
    Div(force, p.mass)
  }

  /** The forces exerted on body `i` by each body `j` in turn, with a zero
      entry at `j == i`: no body pulls on itself. */
  function PairForces(bs: seq<BodyState>, i: nat, g: real, mag: Vec3 -> real): (fs: seq<Vec3>)
    requires IsNorm(mag) && DistinctPositions(bs)
    requires i < |bs|
    ensures |fs| == |bs|
  {
    seq(|bs|, j requires 0 <= j < |bs| => if j == i then Zero else CalculateForce(bs[i], bs[j], g, mag))
  }

  /** The force accumulated on body `i` once the inner loop of the force
      pass has visited the bodies `0 .. k-1`: the running sum, in index
      order, of the forces on `i` from every other body among them. */
  function Accumulated(bs: seq<BodyState>, i: nat, k: nat, g: real, mag: Vec3 -> real): Vec3
    requires IsNorm(mag) && DistinctPositions(bs)
    requires i < |bs| && k <= |bs|
  {
    if k == 0 then Zero
    else
      var acc := Accumulated(bs, i, k - 1, g, mag);
      if i != k - 1 then Add(acc, CalculateForce(bs[i], bs[k - 1], g, mag)) else acc
  }

  /** The total force on body `i` from all the other bodies. */
  function NetForce(bs: seq<BodyState>, i: nat, g: real, mag: Vec3 -> real): Vec3
    requires IsNorm(mag) && DistinctPositions(bs)
    requires i < |bs|
  {
    Accumulated(bs, i, |bs|, g, mag)
  }

  /** The running sum of the inner loop is the sum of the first `k` pair
      forces on body `i`, the one at `j == i` being zero. */
  lemma {:induction false} AccumulatedIsPrefixSum(bs: seq<BodyState>, i: nat, k: nat, g: real, mag: Vec3 -> real)
    requires IsNorm(mag) && DistinctPositions(bs)
    requires i < |bs| && k <= |bs|
    ensures Accumulated(bs, i, k, g, mag) == Sum(PairForces(bs, i, g, mag)[..k])
  {
    if k > 0 {
      AccumulatedIsPrefixSum(bs, i, k - 1, g, mag);
      assert PairForces(bs, i, g, mag)[..k][..k - 1] == PairForces(bs, i, g, mag)[..k - 1];
    }
  }

  /** The net force on body `i` is the sum, over all the bodies, of the
      force each other body exerts on `i`. */
  lemma NetForceIsSum(bs: seq<BodyState>, i: nat, g: real, mag: Vec3 -> real)
    requires IsNorm(mag) && DistinctPositions(bs)
    requires i < |bs|
    ensures NetForce(bs, i, g, mag) == Sum(PairForces(bs, i, g, mag))
  {
    AccumulatedIsPrefixSum(bs, i, |bs|, g, mag);
    assert PairForces(bs, i, g, mag)[..|bs|] == PairForces(bs, i, g, mag);
  }

  /** The integration pass applied to one body under the force `force`: the
      acceleration is set to `force / mass`, then the velocity is advanced by
      the new acceleration, then the position by the NEW velocity
      (semi-implicit Euler). Mass and density are untouched. */
  function Integrate(p: BodyState, force: Vec3, dt: real): (q: BodyState)
    requires p.mass != 0.0
    ensures q.mass == p.mass && q.density == p.density
    ensures Scale(q.acceleration, q.mass) == force
    ensures Sub(q.velocity, p.velocity) == Scale(q.acceleration, dt)
    ensures Sub(q.position, p.position) == Scale(q.velocity, dt)
  {
    var a := CalculateAcceleration(p, force);
    var withAcceleration := p.(acceleration := a);
    var withVelocity := withAcceleration.(velocity := Advance(withAcceleration.velocity, withAcceleration.acceleration, dt));
    withVelocity.(position := Advance(withVelocity.position, withVelocity.velocity, dt))
  }

  /** The net forces on all the bodies, as the first pass of `simulate`
      leaves them in its buffer. */
  function NetForces(bs: seq<BodyState>, g: real, mag: Vec3 -> real): (fs: seq<Vec3>)
    requires IsNorm(mag) && DistinctPositions(bs)
    ensures |fs| == |bs|
    ensures forall i :: 0 <= i < |bs| ==> fs[i] == NetForce(bs, i, g, mag)
  {
    seq(|bs|, i requires 0 <= i < |bs| => NetForce(bs, i, g, mag))
  }

  /** The second pass of `simulate`, on values: body `i` integrated under
      `forces[i]`. */
  function IntegrateEach(bs: seq<BodyState>, forces: seq<Vec3>, dt: real): (r: seq<BodyState>)
    requires NonZeroMasses(bs) && |forces| == |bs|
    ensures |r| == |bs|
    ensures forall i :: 0 <= i < |bs| ==> r[i].mass == bs[i].mass && r[i].density == bs[i].density
    ensures forall i :: 0 <= i < |bs| ==> Scale(r[i].acceleration, r[i].mass) == forces[i]
    ensures forall i :: 0 <= i < |bs| ==> Sub(r[i].velocity, bs[i].velocity) == Scale(r[i].acceleration, dt)
    ensures forall i :: 0 <= i < |bs| ==> Sub(r[i].position, bs[i].position) == Scale(r[i].velocity, dt)
  {
    seq(|bs|, i requires 0 <= i < |bs| => Integrate(bs[i], forces[i], dt))
  }

  /** One call of `simulate`, on values: every body integrated under the net
      force computed from the bodies as they were before the step. */
  function Step(bs: seq<BodyState>, dt: real, g: real, mag: Vec3 -> real): (r: seq<BodyState>)
    requires IsNorm(mag) && DistinctPositions(bs) && NonZeroMasses(bs)
    ensures |r| == |bs|
    ensures forall i :: 0 <= i < |bs| ==> r[i].mass == bs[i].mass && r[i].density == bs[i].density
    ensures forall i :: 0 <= i < |bs| ==> Scale(r[i].acceleration, r[i].mass) == NetForce(bs, i, g, mag)
    ensures forall i :: 0 <= i < |bs| ==> Sub(r[i].velocity, bs[i].velocity) == Scale(r[i].acceleration, dt)
    ensures forall i :: 0 <= i < |bs| ==> Sub(r[i].position, bs[i].position) == Scale(r[i].velocity, dt)
  {
    IntegrateEach(bs, NetForces(bs, g, mag), dt)
  }

  /** The value of a collection of bodies. */
  ghost function StatesOf(bodies: seq<Body>): (r: seq<BodyState>)
    reads bodies
    ensures |r| == |bodies|
    ensures forall i :: 0 <= i < |bodies| ==> r[i] == bodies[i].State()
  {
    seq(|bodies|, i requires 0 <= i < |bodies| reads bodies => bodies[i].State())
  }

  /** The simulator: it owns the bodies (`Compute { particles }`). */
  class Compute {
    var particles: seq<Body>

    /** The vector owns its bodies, so no body appears twice. */
    ghost predicate Valid()
      reads this
    {
      forall i, j :: 0 <= i < |particles| && 0 <= j < |particles| && i != j ==> particles[i] != particles[j]
    }

    ghost function States(): seq<BodyState>
      reads this, particles
    {
      StatesOf(particles)
    }

    constructor (particles: seq<Body>)
      requires forall i, j :: 0 <= i < |particles| && 0 <= j < |particles| && i != j ==> particles[i] != particles[j]
      ensures Valid() && this.particles == particles
    {
      this.particles := particles;
    }

    /** The first pass of `simulate`: a fresh buffer holding, for every body,
        the sum of the forces that all the other bodies exert on it. The
        bodies are only read. */
    method ComputeForces(g: real, mag: Vec3 -> real) returns (forces: array<Vec3>)
      requires IsNorm(mag) && DistinctPositions(States())
      ensures fresh(forces) && forces.Length == |particles|
      ensures forces[..] == NetForces(States(), g, mag)
    {
      var n := |particles|;
      ghost var bs := States();
      forces := new Vec3[n](_ => Zero);
      for i := 0 to n
        modifies forces
        invariant forall k :: 0 <= k < i ==> forces[k] == NetForce(bs, k, g, mag)
        invariant forall k :: i <= k < n ==> forces[k] == Zero
      {
        ghost var untouched := forces[..];
        for j := 0 to n
          modifies forces
          invariant forces[i] == Accumulated(bs, i, j, g, mag)
          invariant forall k :: 0 <= k < n && k != i ==> forces[k] == untouched[k]
        {
          if i != j {
            assert particles[i].State() == bs[i] && particles[j].State() == bs[j];
            forces[i] := Add(forces[i], CalculateForce(particles[i].State(), particles[j].State(), g, mag));
          }
        }
      }
    }

    /** The second pass of `simulate`: body `i` gets the acceleration that
        `forces[i]` gives it, then its velocity is advanced, then its
        position, each body exactly once. */
    method IntegrateAll(forces: array<Vec3>, dt: real)
      requires Valid() && NonZeroMasses(States())
      requires forces.Length == |particles|
      modifies particles
      ensures particles == old(particles)
      ensures States() == IntegrateEach(old(States()), forces[..], dt)
    {
      var n := |particles|;
      ghost var before := States();
      for i := 0 to n
        modifies particles
        invariant forall k :: 0 <= k < i ==> particles[k].State() == Integrate(before[k], forces[k], dt)
        invariant forall k :: i <= k < n ==> particles[k].State() == before[k]
      {
        var body := particles[i];
        assert forall k :: 0 <= k < n && k != i ==> particles[k] != body;
        var acceleration := CalculateAcceleration(body.State(), forces[i]);
        body.SetAcceleration(acceleration);
        body.NewVelocity(dt);
        body.NewPosition(dt);
        assert body.State() == Integrate(before[i], forces[i], dt);
      }
    }

    /** `simulate(dt, G)`: the force pass over the bodies as they are, then
        the integration pass. The collection itself (its length and which
        bodies it holds) does not change; the new value of the bodies is
        `Step` of their old value. */
    method Simulate(dt: real, g: real, mag: Vec3 -> real)
      requires Valid() && IsNorm(mag)
      requires DistinctPositions(States()) && NonZeroMasses(States())
      modifies particles
      ensures particles == old(particles)
      ensures States() == Step(old(States()), dt, g, mag)
    {
      ghost var before := States();
      var forces := ComputeForces(g, mag);
      IntegrateAll(forces, dt);
    }
  }
}
