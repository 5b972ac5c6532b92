# BattleBeyz rigid body, modelled in Dafny

This project models the physics core of the BattleBeyz prototype. That core is a spinning top (a Beyblade) assembled from three parts:

- a Layer, the top section that takes the collisions;
- a Disc, the middle section, which mostly adds weight;
- a Driver, the bottom tip that touches the stadium.

The model covers:

- **The part descriptors** (module `BeybladeParts`, in `parts.dfy`). These are `Layer`, `Disc` and `Driver`, each with its full constructor and its default values.
  - The full `Disc` and `Driver` constructors are the datatype constructors themselves. Their parameters come in the same order as in C++.
  - The full `Layer` constructor is `NewLayer`. Like the C++ constructor, it takes a velocity and an acceleration that it never stores.
- **The body** (module `Beyblade`, in `body.dfy`), as the class `BeybladeBody`:
  - the constants derived at construction (composite mass and moment of inertia, fixed restitution and friction, and the linear and angular drag terms);
  - the spin-axis queries `GetNormal` and `GetBottomPosition`;
  - the static contact test `DistanceOverlap`;
  - the mutators of the per-tick step: `SetInitialLaunch`, the four `Accumulate*` calls, the two impulse-magnitude calls, `ApplyAccumulatedChanges` and `Update`.
- **The step as functions on values** (module `Kinetics`, in `kinetics.dfy`). Each mutator of the class is specified by one function here. The properties of the step are lemmas about those functions:
  - contributions within a tick can come in any order;
  - the last acceleration contributed wins, because `accumulateAcceleration` overwrites the linear acceleration accumulator while `accumulateAngularAcceleration` adds to its own (src/RigidBodies/BeybladeBody.cpp:98-107);
  - accumulating, committing and integrating compose into a round trip.
- **Vectors** (module `Vectors`, in `vectors.dfy`). These stand for `glm::vec3` over the reals. The module also holds the square root, `glm::length` and `glm::normalize`.
- **Results** (module `Wrappers`, in `wrappers.dfy`). `std::optional` is modelled as `Option`. The exception `distanceOverlap` throws on a null argument is modelled as a `Failure` result.

`dv3(d)` is the vector `(d, d, d)`. glm's component-wise product with it is `Scale(d, ·)`, and the quotient by it is `DivScalar(·, d)`.

The square root is a ghost function. It picks the non-negative root whenever one exists. The solver cannot show without an axiom that every non-negative real has a root, so:

- every property that needs `Sqrt(x) * Sqrt(x) == x` is stated under `HasSqrt(x)`;
- the properties that do not need it hold unconditionally: the root is non-negative, positive for positive `x`, unique, `Sqrt(0) == 0` and `Sqrt(a * a) == |a|`.

Length and normalisation are therefore ghost too. So is the body's kinetic state (`baseCenter`, `velocity`, `angularVelocity`, `acceleration` and the four accumulators), because the impulse-magnitude mutators branch on a length. The constants of the body are ordinary `const` fields.

## Model

| member | source | states |
|---|---|---|
| BeybladeParts.NewLayer | src/RigidBodies/BeybladeParts.h:21-25 | every field of the Layer is the argument of the same name |
| BeybladeParts.NewLayerIgnoresMotion | src/RigidBodies/BeybladeParts.h:21-25 | the velocity and acceleration arguments have no effect on the Layer built |
| BeybladeParts.DefaultLayer | src/RigidBodies/BeybladeParts.h:26-28 | positive radius, height and mass; inertia of a solid cylinder, 0.5 m r^2, and positive; rotational drag in the documented range [0.001, 0.015]; restitution 0.8; recoil distribution (1, 0.25) |
| BeybladeParts.DefaultDisc | src/RigidBodies/BeybladeParts.h:44-45 | positive radius, height and mass; inertia 0.7 m r^2, positive; rotational drag 0.1 * 0.005 |
| BeybladeParts.DefaultDriver | src/RigidBodies/BeybladeParts.h:60-62 | positive radius, height and mass; inertia 0.5 m r * 0.0015 as written, positive; rotational drag 0.1 * 0.005; friction 0.2 |
| BeybladeParts.DefaultPartsPositive | src/RigidBodies/BeybladeParts.h:26-62 | every numeric field of every default part is strictly positive |
| Vectors.Sqrt | src/RigidBodies/BeybladeBody.cpp:81 | the root is non-negative, positive for a positive argument, and squares back to its argument whenever a root exists |
| Vectors.RootUnique | src/RigidBodies/BeybladeBody.cpp:81 | non-negative square roots are unique |
| Vectors.SqrtOfSquare | src/RigidBodies/BeybladeBody.cpp:81 | the root of a square is the absolute value |
| Vectors.Length | src/RigidBodies/BeybladeBody.cpp:115 | glm::length is non-negative and zero exactly at the zero vector |
| Vectors.DotSelfSign | src/RigidBodies/BeybladeBody.cpp:115 | a squared length is non-negative and positive away from the zero vector |
| Vectors.Normalize | src/RigidBodies/BeybladeBody.cpp:28 | glm::normalize of a non-zero vector is a positive multiple of it, of unit length when the root is exact |
| Vectors.NormalizeSign | src/RigidBodies/BeybladeBody.cpp:28-32 | the normalised vector has a negative (zero) y exactly when the vector has |
| Vectors.NormalizeNeg | src/RigidBodies/BeybladeBody.cpp:37 | normalising the reversed vector reverses the normalisation; the length is unchanged |
| Beyblade.LinearDragTerm | src/RigidBodies/BeybladeBody.cpp:12-15 | the linear drag term is non-negative when all heights and radii are |
| Beyblade.PartAngularDrag | src/RigidBodies/BeybladeBody.cpp:18-20 | c h r^2 is non-negative when c, h and r are |
| Beyblade.AngularDragTerm | src/RigidBodies/BeybladeBody.cpp:18-21 | the angular drag term is non-negative when all coefficients, heights and radii are |
| Beyblade.LinearDragIsPerPartSum | src/RigidBodies/BeybladeBody.cpp:10-15 | the linear drag term equals the sum over the parts of 0.5 * 0.9 * frontal area, Layer and Disc seen from the side and Driver end-on |
| Beyblade.AngularDragIsPerPartSum | src/RigidBodies/BeybladeBody.cpp:17-21 | the angular drag term equals the sum over the parts of 0.5 c h r^2 |
| Beyblade.DefaultBodyConstants | src/RigidBodies/BeybladeBody.cpp:24 | the default parts give mass 0.06, positive inertia and positive drag terms |
| Beyblade.BeybladeBody.constructor | src/RigidBodies/BeybladeBody.cpp:3-22 | geometry copied from the parts; mass and inertia are the sums over the parts; restitution 0.8 and friction 0.2 whatever the parts say; drag terms as above; the body starts still at the origin with cleared accumulators |
| Beyblade.BeybladeBody.Default | src/RigidBodies/BeybladeBody.cpp:24 | a fresh body built by the main constructor from the three default parts, at rest at the origin with empty accumulators |
| Beyblade.BeybladeBody.GetNormal | src/RigidBodies/BeybladeBody.cpp:27-34 | the result has y >= 0; it is normalize(angularVelocity) when that points up or flat, its negation otherwise; unit length when the root is exact |
| Beyblade.NormalIgnoresSpinSense | src/RigidBodies/BeybladeBody.cpp:27-34 | reversing the spin leaves the normal unchanged unless the axis lies flat |
| Beyblade.BeybladeBody.GetBottomPosition | src/RigidBodies/BeybladeBody.cpp:36-41 | the result is baseCenter - (discHeight + driverHeight) * GetNormal() |
| Beyblade.BeybladeBody.SetInitialLaunch | src/RigidBodies/BeybladeBody.cpp:43-48 | position and both velocities take the arguments; the accumulators and constants are unchanged |
| Beyblade.BeybladeBody.AccumulateVelocity | src/RigidBodies/BeybladeBody.cpp:88-91 | the new state is Kinetics.AccumulateVelocity of the old |
| Beyblade.BeybladeBody.AccumulateAngularVelocity | src/RigidBodies/BeybladeBody.cpp:93-96 | the new state is Kinetics.AccumulateAngularVelocity of the old |
| Beyblade.BeybladeBody.AccumulateAcceleration | src/RigidBodies/BeybladeBody.cpp:98-102 | the new state is Kinetics.AccumulateAcceleration of the old |
| Beyblade.BeybladeBody.AccumulateAngularAcceleration | src/RigidBodies/BeybladeBody.cpp:104-107 | the new state is Kinetics.AccumulateAngularAcceleration of the old |
| Beyblade.BeybladeBody.AccumulateAngularImpulseMagnitude | src/RigidBodies/BeybladeBody.cpp:113-123 | the new state is Kinetics.AccumulateAngularImpulseMagnitude of the old, with the body's moment of inertia |
| Beyblade.BeybladeBody.AccumulateImpulseMagnitude | src/RigidBodies/BeybladeBody.cpp:126-136 | the new state is Kinetics.AccumulateImpulseMagnitude of the old, with the body's mass |
| Beyblade.BeybladeBody.ApplyAccumulatedChanges | src/RigidBodies/BeybladeBody.cpp:138-152 | the new state is Kinetics.ApplyAccumulatedChanges of the old |
| Beyblade.BeybladeBody.Update | src/RigidBodies/BeybladeBody.cpp:154-158 | the new state is Kinetics.Update of the old |
| Beyblade.BeybladeBody.DistanceOverlap | src/RigidBodies/BeybladeBody.cpp:56-84 | failure exactly when an argument is null; a depth is reported only when the squared radii sum exceeds the squared horizontal distance, and it is positive; the function reads the bodies and changes neither |
| Beyblade.PlanarDistanceSymmetric | src/RigidBodies/BeybladeBody.cpp:72-74 | the squared horizontal distance does not depend on the order of the points |
| Beyblade.VerticallyApartNoContact | src/RigidBodies/BeybladeBody.cpp:64-70 | when the lower layer ends below the higher center, there is no contact in either argument order, whatever the horizontal positions |
| Beyblade.LayersMeetNotRejected | src/RigidBodies/BeybladeBody.cpp:64-70 | layers that meet are never turned away on height, and for non-negative layer heights a pair is turned away exactly when its layers do not meet |
| Beyblade.ContactIffDiscsOverlap | src/RigidBodies/BeybladeBody.cpp:64-83 | for any two bodies and any layer heights, the test succeeds; a pair turned away on height (VerticallyRejected, the lower body chosen as at lines 64-65) is not in contact, and every other pair is in contact exactly when R^2 exceeds the squared horizontal distance |
| Beyblade.FarApartNoContact | src/RigidBodies/BeybladeBody.cpp:77-83 | bodies at least R apart horizontally are not in contact |
| Beyblade.OverlapDepthIsComplement | src/RigidBodies/BeybladeBody.cpp:77-81 | the depth d satisfies d^2 + (horizontal distance)^2 = R^2 when the root is exact |
| Beyblade.CoincidentCentersFullDepth | src/RigidBodies/BeybladeBody.cpp:64-81 | bodies with coinciding horizontal position that are not turned away on height are in contact with depth R |
| Beyblade.DistanceOverlapSymmetric | src/RigidBodies/BeybladeBody.cpp:56-84 | with non-negative layer heights the test is symmetric in its arguments |
| Beyblade.EndToEndScenario | src/RigidBodies/BeybladeBody.cpp:88-157 | a resting body given (1, 0, 0), committed and integrated for 1 s moves at (1, 0, 0) and has moved by exactly (1, 0, 0) |
| Kinetics.AccumulateVelocity | src/RigidBodies/BeybladeBody.cpp:88-91 | the velocity accumulator grows by the argument; motion and the other accumulators are unchanged |
| Kinetics.AccumulateAngularVelocity | src/RigidBodies/BeybladeBody.cpp:93-96 | the angular-velocity accumulator grows by the argument; nothing else changes |
| Kinetics.AccumulateAcceleration | src/RigidBodies/BeybladeBody.cpp:98-102 | the acceleration accumulator becomes the argument (overwrite); nothing else changes |
| Kinetics.AccumulateAngularAcceleration | src/RigidBodies/BeybladeBody.cpp:104-107 | the angular-acceleration accumulator grows by the argument; nothing else changes |
| Kinetics.ImpulseDelta | src/RigidBodies/BeybladeBody.cpp:113-136 | at rest (length below float epsilon) the change is (magnitude, 0, 0), not divided by the inertia |
| Kinetics.ImpulseDeltaMoving | src/RigidBodies/BeybladeBody.cpp:133-135 | away from rest the change is (magnitude / inertia) times the unit direction of motion, with squared length (magnitude / inertia)^2 when the root is exact |
| Kinetics.AccumulateImpulseMagnitude | src/RigidBodies/BeybladeBody.cpp:126-136 | only the velocity accumulator changes; at rest (speed below float epsilon) it gains (magnitude, 0, 0), undivided; otherwise it gains (magnitude / mass) * normalize(velocity) |
| Kinetics.AccumulateAngularImpulseMagnitude | src/RigidBodies/BeybladeBody.cpp:113-123 | only the angular-velocity accumulator changes; at rest (spin below float epsilon) it gains (magnitude, 0, 0), undivided; otherwise it gains (magnitude / momentOfInertia) * normalize(angularVelocity) |
| Kinetics.ImpulseAtRest | src/RigidBodies/BeybladeBody.cpp:128-132 | a resting body gains exactly (magnitude, 0, 0) whatever its mass |
| Kinetics.Contribute | src/RigidBodies/BeybladeBody.cpp:88-107 | no accumulate call changes position, velocity or angular velocity |
| Kinetics.AccumulateAllEffect | src/RigidBodies/BeybladeBody.cpp:88-107 | after any sequence of contributions the motion is unchanged, each summing accumulator holds its sum, and the acceleration accumulator holds the last acceleration contributed |
| Kinetics.AccumulateAllOrderIndependent | src/RigidBodies/BeybladeBody.cpp:88-107 | two orderings of the same contributions with the same last acceleration give the same state |
| Kinetics.LastAccelerationWins | src/RigidBodies/BeybladeBody.cpp:98-102 | two acceleration contributions leave only the second |
| Kinetics.VelocityContributionsCommute | src/RigidBodies/BeybladeBody.cpp:88-91 | two velocity contributions commute and amount to their sum |
| Kinetics.ApplyAccumulatedChanges | src/RigidBodies/BeybladeBody.cpp:138-152 | all four accumulators are cleared, the position is kept, and a state with nothing accumulated is left as it is |
| Kinetics.CommitIdempotent | src/RigidBodies/BeybladeBody.cpp:145-151 | a second commit right after a first changes nothing |
| Kinetics.AccumulateCommitRoundTrip | src/RigidBodies/BeybladeBody.cpp:88-151 | from cleared accumulators, contributing v1 and v2 and committing changes the velocity by exactly v1 + v2 and leaves every accumulator cleared |
| Kinetics.CommitUsesLastAcceleration | src/RigidBodies/BeybladeBody.cpp:98-151 | with accelerations a1 then a2 contributed, the commit integrates only a2 * dt |
| Kinetics.CommitSumsAngularAccelerations | src/RigidBodies/BeybladeBody.cpp:104-149 | with angular accelerations alpha1 then alpha2 contributed to an empty accumulator, the commit integrates (alpha1 + alpha2) * dt into the angular velocity, on top of the pending angular velocity |
| Kinetics.Update | src/RigidBodies/BeybladeBody.cpp:154-158 | the position moves by dt * velocity; velocities and accumulators are unchanged |
| Kinetics.UpdateAdditive | src/RigidBodies/BeybladeBody.cpp:154-156 | integrating for dt1 then dt2 is integrating for dt1 + dt2 |
| Kinetics.SetInitialLaunch | src/RigidBodies/BeybladeBody.cpp:43-48 | the motion becomes the arguments and the accumulators are kept |
| Kinetics.StepOrderMatters | src/RigidBodies/BeybladeBody.cpp:138-156 | with a velocity pending and dt != 0, integrating before committing ends at a different position than committing first |
| Kinetics.EndToEndScenario | src/RigidBodies/BeybladeBody.cpp:88-156 | a resting body given (1, 0, 0) moves at (1, 0, 0) after the commit and is displaced by (1, 0, 0) after update(1.0) |

## Left out

- `sampleRecoil` (src/RigidBodies/BeybladeBody.cpp:52-54) draws from a random distribution. RandomDistribution.h is not part of this model. The distribution is kept only as its parameters (mean and standard deviation).
- Logging (`std::cout`, `printVec3`) has no effect on the state and is not modelled.
- Floating point: all arithmetic is on the reals. The double-to-float narrowing of `glm::vec3` and IEEE rounding are not modelled. The float epsilon is the exact value 2^-23.
- BeybladeBody.h is not part of this model. It is assumed that:
  - `getCenter` returns `baseCenter`, and the layer accessors return the stored radius and height;
  - `baseCenter`, `angularVelocity` and the four accumulators start at zero;
  - `dv3(d)` is the vector `(d, d, d)`.
- The `acceleration` field is set to zero by the constructor and nothing in the core reads or writes it again. It is kept as a field, with no role.
- Pointer ownership: the Layer's recoil-distribution pointer is held by value. The leak of the default Layer's distribution is not modelled.
- `distanceOverlap`'s `std::invalid_argument` exception is a `Failure(InvalidArgument(...))` result.
- Vectors.Sqrt: `Sqrt(x) * Sqrt(x) == x` is stated only under `HasSqrt(x)`. The existence of real square roots is not provable without an axiom.
- Vectors.Normalize: unit length is stated only under `HasSqrt` of the squared length, for the same reason.
- Beyblade.BeybladeBody.GetNormal: unit length is conditioned the same way. It requires a non-zero angular velocity; on the zero vector the source normalises by a zero length and yields NaN.
- Beyblade.BeybladeBody.GetBottomPosition: requires a non-zero angular velocity, for the same reason as GetNormal.
- Kinetics.ImpulseDelta: when the body is moving, it requires a non-zero mass (or moment of inertia). The source would divide by zero and produce infinities or NaN.
- Beyblade.BeybladeBody.AccumulateImpulseMagnitude and Beyblade.BeybladeBody.AccumulateAngularImpulseMagnitude carry the same requirement as ImpulseDelta.
- The impulse-magnitude methods update their accumulator directly rather than by calling `AccumulateVelocity` / `AccumulateAngularVelocity`. A ghost branch cannot call a compiled method; the effect is the same.
- Beyblade.OverlapDepthIsComplement: stated only under `HasSqrt` of the radicand.
