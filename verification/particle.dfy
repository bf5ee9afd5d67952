/** One simulated point mass (`Body`) and the accessors and Euler mutators
    of the `Particle` interface (src/particle.rs). A `Body` is updated in
    place, so it is a class; `BodyState` is the value it holds at one
    moment, which the specifications of the simulator are written over. */
module Particle {
  import opened Vectors

  /** A quantity advanced for `dt` at a constant `rate` (one explicit Euler
      step): the change it undergoes is exactly `rate * dt`. */
  function Advance(x: Vec3, rate: Vec3, dt: real): (r: Vec3)
    ensures Sub(r, x) == Scale(rate, dt)
    ensures dt == 0.0 || rate == Zero ==> r == x
  {
    Add(x, Scale(rate, dt))
  }

  /** The five fields of a body at one moment. */
  datatype BodyState = BodyState(
    position: Vec3,
    velocity: Vec3,
    acceleration: Vec3,
    mass: real,
    density: real)

  class Body {
    var position: Vec3
    var velocity: Vec3
    var acceleration: Vec3
    var mass: real
    var density: real

    /** The struct literal `Body { position, velocity, acceleration, mass, density }`. */
    constructor (position: Vec3, velocity: Vec3, acceleration: Vec3, mass: real, density: real)
      ensures State() == BodyState(position, velocity, acceleration, mass, density)
    {
      this.position := position;
      this.velocity := velocity;
      this.acceleration := acceleration;
      this.mass := mass;
      this.density := density;
    }

    /** The value of all five fields. */
    function State(): BodyState
      reads this
    {
      BodyState(position, velocity, acceleration, mass, density)
    }

    function Position(): (p: Vec3)
      reads this
      ensures p == State().position
    {
      position
    }

    function Velocity(): (v: Vec3)
      reads this
      ensures v == State().velocity
    {
      velocity
    }

    function Acceleration(): (a: Vec3)
      reads this
      ensures a == State().acceleration
    {
      acceleration
    }

    function Mass(): (m: real)
      reads this
      ensures m == State().mass
    {
      mass
    }

    function Density(): (d: real)
      reads this
      ensures d == State().density
    {
      density
    }

    /** Replaces the position and nothing else. */
    method SetPosition(p: Vec3)
      modifies this
      ensures State() == old(State()).(position := p)
    {
      position := p;
    }

    /** Replaces the velocity and nothing else. */
    method SetVelocity(v: Vec3)
      modifies this
      ensures State() == old(State()).(velocity := v)
    {
      velocity := v;
    }

    /** Replaces the acceleration and nothing else. */
    method SetAcceleration(a: Vec3)
      modifies this
      ensures State() == old(State()).(acceleration := a)
    {
      acceleration := a;
    }

    /** `position += velocity * dt`, through `SetPosition`; a zero step
        leaves the body as it was. */
    method NewPosition(dt: real)
      modifies this
      ensures State() == old(State()).(position := Advance(old(position), old(velocity), dt))
      ensures dt == 0.0 ==> State() == old(State())
    {
      SetPosition(Advance(position, velocity, dt));
    }

    /** `velocity += acceleration * dt`, through `SetVelocity`; the position
        is neither read nor written, and a zero step leaves the body as it
        was. */
    method NewVelocity(dt: real)
      modifies this
      ensures State() == old(State()).(velocity := Advance(old(velocity), old(acceleration), dt))
      ensures dt == 0.0 ==> State() == old(State())
    {
      SetVelocity(Advance(velocity, acceleration, dt));
    }
  }
}
