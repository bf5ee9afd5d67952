# particlesimul — a verified model of the gravitational step

particlesimul is a small N-body gravity simulator. Its core has two parts:

- `src/particle.rs` defines a `Body`: a point mass with a position, a
  velocity, an acceleration, a mass and a density. Its `Particle` interface
  has getters, setters and two explicit Euler mutators, `new_velocity` and
  `new_position`.
- `src/compute.rs` defines the simulator, `Compute { particles }`. It has:
  - `calculate_force`, Newton's inverse-square law between two bodies;
  - `calculate_acceleration`, which divides a force by a mass;
  - `simulate(dt, G)`. Its first pass fills a fresh buffer with the net force
    on every body, computed from the positions before the step. Its second
    pass gives each body its acceleration, then its velocity, then its
    position (semi-implicit Euler).

The model has four modules:

- `Vectors` (`vectors.dfy`): three-component real vectors standing in for
  `ultraviolet::Vec3`. The library's vector length `mag` is passed in as a
  function parameter. The predicate `IsNorm` states the two properties of a
  length that the model relies on: it is positive on every non-zero vector,
  and `mag(c * v) == |c| * mag(v)`.
- `Particle` (`particle.dfy`): `Body` is a class whose methods update its
  fields in place. `BodyState` is the value of those fields at one moment.
- `Compute` (`compute.dfy`): the force law and the acceleration as
  functions. The reference semantics of one step is the value-level `Step`.
  The class `Compute` holds `particles: seq<Body>`. Its `Simulate` is proved
  to turn the bodies' old value into `Step` of it. The two passes of
  `simulate` are the methods `ComputeForces` (the buffer and its nested
  loops) and `IntegrateAll` (the loop over the bodies), and `Simulate`
  composes them.
- `Conservation` (`conservation.dfy`): properties of a whole step:
  - the pairwise forces cancel, so Σ mass·acceleration is zero after a step
    and the total linear momentum is conserved;
  - the edge cases: no bodies, one body, two bodies, a zero time step;
  - two equal masses mirrored through the origin stay mirrored;
  - the forces depend on positions and masses only.

With a single body, the code does not leave the body unchanged. Its
acceleration becomes zero and its velocity stays the same, but its position
still advances by `velocity * dt`. The model follows the code (`StepSingle`).

## Model

| member | source | states |
|---|---|---|
| `Vectors.Add` | src/compute.rs:31 | vector sum; the zero vector is its identity on both sides |
| `Vectors.Sub` | src/compute.rs:13 | `a - b` is the vector that carries `b` onto `a`; it is zero exactly when `a == b` |
| `Vectors.Scale` | src/compute.rs:18 | scaling by zero, or scaling the zero vector, gives zero; scaling by one is the identity |
| `Vectors.Div` | src/compute.rs:23 | division by a non-zero scalar is undone by multiplying by it |
| `Vectors.DistancePositive` | src/compute.rs:13-14 | the length of `p2 - p1` is positive exactly when the positions differ |
| `Vectors.NormNeg` | src/compute.rs:13-14 | a vector and its opposite have the same length |
| `Particle.Advance` | src/particle.rs:64-70 | one Euler increment: the change is exactly `rate * dt`; it is no change when `dt == 0` or the rate is zero |
| `Particle.Body.constructor` | src/particle.rs:6-12 | a new body holds exactly the five given fields |
| `Particle.Body.Position` | src/particle.rs:32-34 | returns the stored position |
| `Particle.Body.Velocity` | src/particle.rs:36-38 | returns the stored velocity |
| `Particle.Body.Acceleration` | src/particle.rs:40-42 | returns the stored acceleration |
| `Particle.Body.Mass` | src/particle.rs:44-46 | returns the stored mass |
| `Particle.Body.Density` | src/particle.rs:48-50 | returns the stored density |
| `Particle.Body.SetPosition` | src/particle.rs:52-54 | the position becomes the argument; the other four fields are unchanged |
| `Particle.Body.SetVelocity` | src/particle.rs:56-58 | the velocity becomes the argument; the other four fields are unchanged |
| `Particle.Body.SetAcceleration` | src/particle.rs:60-62 | the acceleration becomes the argument; the other four fields are unchanged |
| `Particle.Body.NewPosition` | src/particle.rs:64-66 | the position advances by `velocity * dt` and nothing else changes; with `dt == 0` the body is unchanged |
| `Particle.Body.NewVelocity` | src/particle.rs:68-70 | the velocity advances by `acceleration * dt` and nothing else changes (the position is not read); with `dt == 0` the body is unchanged |
| `Compute.CalculateForce` | src/compute.rs:12-19 | defined when the positions differ; the force has length `|G m1 m2 / r^2|`, where `r` is the distance (inverse-square law) |
| `Compute.ForceAntisymmetric` | src/compute.rs:12-19 | the force of `p2` on `p1` is the opposite of the force of `p1` on `p2` (Newton's third law) |
| `Compute.ForceAttracts` | src/compute.rs:12-19 | with `G` and both masses positive, the force on `p1` is a positive multiple of the vector from `p1` to `p2` |
| `Compute.CalculateAcceleration` | src/compute.rs:21-23 | defined for a non-zero mass; mass times the result is the force (Newton's second law) |
| `Compute.Integrate` | src/compute.rs:36-41 | one body's update: `mass * acceleration == force`; the velocity changes by the NEW acceleration times `dt`; the position changes by the NEW velocity times `dt`; mass and density are kept |
| `Compute.Step` | src/compute.rs:25-42 | one step on values: same length, masses and densities kept; each body's `mass * acceleration` is the net force from the pre-step bodies; the Euler relations hold for every body |
| `Compute.AccumulatedIsPrefixSum` | src/compute.rs:29-33 | after the inner loop has visited bodies `0 .. k-1`, the slot of body `i` holds the sum of the forces on `i` from those bodies other than `i` (the entry at `j == i` is zero) |
| `Compute.NetForceIsSum` | src/compute.rs:28-34 | the net force on body `i` is the sum, over all the bodies `j`, of the force that `j` exerts on `i`, with no contribution from `i` itself |
| `Compute.IntegrateEach` | src/compute.rs:36-41 | the second pass on values: same length, masses and densities kept; `mass * acceleration` of body `i` equals `forces[i]`; the velocity changes by the new acceleration times `dt`; the position changes by the new velocity times `dt` |
| `Compute.Compute.constructor` | src/compute.rs:5-8 | the simulator owns the given bodies, with no body held twice |
| `Compute.Compute.ComputeForces` | src/compute.rs:26-34 | returns a fresh buffer holding `NetForces` of the current bodies: slot `k` is the sum, over `j != k` in index order, of the force of body `j` on body `k`; the bodies are not changed |
| `Compute.Compute.IntegrateAll` | src/compute.rs:36-41 | the collection still holds the same bodies, and their new value is `IntegrateEach` of their old value under the buffer |
| `Compute.Compute.Simulate` | src/compute.rs:25-42 | the collection holds the same bodies, and their new value is `Step` of their old value |
| `Conservation.ColumnIsNegatedRow` | src/compute.rs:28-34 | what body `j` exerts on bodies `0 .. k-1` is the opposite of what they exert on it |
| `Conservation.RowsWiden` | src/compute.rs:29-33 | when the inner loop visits one more body `w`, the sum over the rows grows by exactly the forces that `w` exerts |
| `Conservation.SquareCancels` | src/compute.rs:28-34 | over any leading block of bodies, the pairwise forces add up to zero |
| `Conservation.TotalForceZero` | src/compute.rs:26-34 | the net forces of the first pass add up to the zero vector |
| `Conservation.MassAccelerationsCancel` | src/compute.rs:25-42 | after a step, Σ mass·acceleration over all bodies is zero |
| `Conservation.MomentumUpdate` | src/particle.rs:68-70 | after the velocity update, a body's momentum is its old momentum plus `dt` times mass·acceleration |
| `Conservation.MomentumConserved` | src/compute.rs:25-42 | a step conserves the total linear momentum Σ mass·velocity |
| `Conservation.StepEmpty` | src/compute.rs:25-42 | with no bodies, a step does nothing |
| `Conservation.StepSingle` | src/compute.rs:25-42 | a lone body's acceleration becomes zero, its velocity is unchanged and its position advances by `velocity * dt` |
| `Conservation.IntegrateMirror` | src/compute.rs:36-41 | two bodies of equal mass, mirrored through the origin, integrated under opposite forces get opposite accelerations and stay mirrored in velocity and position |
| `Conservation.StepMirror` | src/compute.rs:25-42 | two bodies of equal mass, mirrored through the origin in position and velocity, are still mirrored after a step, with opposite accelerations |
| `Conservation.StepTwo` | src/compute.rs:28-34 | with two bodies, each net force is the single force of the other body |
| `Conservation.StepZeroTime` | src/compute.rs:25-42 | with `dt == 0`, positions and velocities are unchanged and only each acceleration is overwritten, with net force over mass |
| `Conservation.AccumulatedIgnoresMotion` | src/compute.rs:28-34 | the partial force sums read only positions and masses |
| `Conservation.NetForceIgnoresMotion` | src/compute.rs:28-34 | the net force on a body depends only on the positions and masses of all the bodies |

## Left out

- Floating point: the source computes in 32-bit floats; the model uses exact reals. Rounding, the order-dependence of float sums, overflow, NaN and infinities are not modelled. The cancellation and momentum results are exact here and hold only up to rounding in the source.
- The vector length and `normalize` of the `ultraviolet` crate are foreign code. `mag` is a parameter constrained by `IsNorm`, and `normalize` is division by `mag`. The exact square-root formula is not modelled.
- Compute.CalculateForce: requires distinct positions. The source divides by zero there and produces non-finite values, which the model does not represent.
- Compute.CalculateAcceleration: requires a non-zero mass. The source produces non-finite values for a zero mass.
- Compute.Compute.Simulate: requires distinct positions and non-zero masses for the same reason. It also requires that no body is held twice, which Rust's ownership of `Vec<Body>` guarantees.
- The two passes of `simulate` are two methods, `ComputeForces` and `IntegrateAll`, called in sequence by `Simulate`. Together they do what the single Rust function does.
- The `Particle` interface is not a separate declaration: its operations are methods of `Body`. The unused `&self` receiver of `calculate_force` and `calculate_acceleration` is dropped.
- The derived `Component` and `Clone` of `Body`, and everything to do with Bevy, are left out. The scene set-up in src/scenedata.rs and the application in src/main.rs are not part of this model.
