/** The kinetic state of a body and the two-phase step it goes through each
    tick, as functions on values: any number of contributions are first
    accumulated, then committed into the velocities in one go, and finally the
    position is integrated. The class in module Beyblade holds this state in
    fields and each of its mutators is specified by one function here. */
module Kinetics {
  import opened Vectors

  /** std::numeric_limits<float>::epsilon(), 2^-23: the speed below which a
      body counts as at rest. */
  const FloatEpsilon: real := 1.0 / 8388608.0

  datatype Motion = Motion(baseCenter: Vec3, velocity: Vec3, angularVelocity: Vec3)

  /** The four per-tick accumulators. */
  datatype Accumulators = Accumulators(
    velocity: Vec3,
    angularVelocity: Vec3,
    acceleration: Vec3,
    angularAcceleration: Vec3)

  const Cleared: Accumulators := Accumulators(Zero, Zero, Zero, Zero)

  datatype BodyState = BodyState(motion: Motion, pending: Accumulators)

  /* ---------------------------------------------------------------------
     Vector algebra the step lemmas rely on. */

  lemma AddZero(a: Vec3)
    ensures Add(a, Zero) == a && Add(Zero, a) == a
  {}

  lemma AddAssociative(a: Vec3, b: Vec3, c: Vec3)
    ensures Add(Add(a, b), c) == Add(a, Add(b, c))
  {}

  lemma AddCommutative(a: Vec3, b: Vec3)
    ensures Add(a, b) == Add(b, a)
  {}

  lemma ScaleAddTimes(s: real, t: real, v: Vec3)
    ensures Add(Scale(s, v), Scale(t, v)) == Scale(s + t, v)
  {}

  lemma ScaleZero(t: real)
    ensures Scale(t, Zero) == Zero
  {}

  /* ---------------------------------------------------------------------
     Accumulate phase. */

  /** accumulateVelocity: adds into the velocity accumulator. */
  function AccumulateVelocity(s: BodyState, v: Vec3): (t: BodyState)
    ensures t.motion == s.motion
    ensures t.pending.velocity == Add(s.pending.velocity, v)
    ensures t.pending.(velocity := s.pending.velocity) == s.pending
  {
    s.(pending := s.pending.(velocity := Add(s.pending.velocity, v)))
  }

  /** accumulateAngularVelocity: adds into the angular-velocity accumulator. */
  function AccumulateAngularVelocity(s: BodyState, w: Vec3): (t: BodyState)
    ensures t.motion == s.motion
    ensures t.pending.angularVelocity == Add(s.pending.angularVelocity, w)
    ensures t.pending.(angularVelocity := s.pending.angularVelocity) == s.pending
  {
    s.(pending := s.pending.(angularVelocity := Add(s.pending.angularVelocity, w)))
  }

  /** accumulateAcceleration: unlike the other three, it replaces its
      accumulator, so only the latest contribution of a tick survives. */
  function AccumulateAcceleration(s: BodyState, a: Vec3): (t: BodyState)
    ensures t.motion == s.motion
    ensures t.pending.acceleration == a
    ensures t.pending.(acceleration := s.pending.acceleration) == s.pending
  {
    s.(pending := s.pending.(acceleration := a))
  }

  /** accumulateAngularAcceleration: adds into its accumulator. */
  function AccumulateAngularAcceleration(s: BodyState, alpha: Vec3): (t: BodyState)
    ensures t.motion == s.motion
    ensures t.pending.angularAcceleration == Add(s.pending.angularAcceleration, alpha)
    ensures t.pending.(angularAcceleration := s.pending.angularAcceleration) == s.pending
  {
    s.(pending := s.pending.(angularAcceleration := Add(s.pending.angularAcceleration, alpha)))
  }

  /** The velocity change an impulse of the given magnitude produces along the
      current direction of motion `v` of a body with inertia `inertia` (its
      mass, or its moment of inertia for the angular version). At rest, the
      raw magnitude is put on the x axis without being divided by anything. */
  ghost function ImpulseDelta(v: Vec3, magnitude: real, inertia: real): (d: Vec3)
    requires Length(v) < FloatEpsilon || inertia != 0.0
    ensures Length(v) < FloatEpsilon ==> d == Vec3(magnitude, 0.0, 0.0)
  {
    if Length(v) < FloatEpsilon then Vec3(magnitude, 0.0, 0.0)
    else DivScalar(Scale(magnitude, Normalize(v)), inertia)
  }

  /** Away from rest, the change is the magnitude over the inertia along the
      unit direction of motion: it points along `v` when the two have the same
      sign and against it otherwise, and has length |magnitude / inertia|
      whenever the length of `v` is exact. */
  lemma ImpulseDeltaMoving(v: Vec3, magnitude: real, inertia: real)
    requires Length(v) >= FloatEpsilon && inertia != 0.0
    ensures ImpulseDelta(v, magnitude, inertia) == Scale(magnitude / inertia, Normalize(v))
    ensures exists k :: k > 0.0 && Normalize(v) == Scale(k, v)
    ensures HasSqrt(Dot(v, v)) ==>
      Dot(ImpulseDelta(v, magnitude, inertia), ImpulseDelta(v, magnitude, inertia))
        == (magnitude / inertia) * (magnitude / inertia)
  {
    assert v != Zero;
    var n := Normalize(v);
    var q := magnitude / inertia;
    var d := ImpulseDelta(v, magnitude, inertia);
    assert d == Scale(q, n);
    if HasSqrt(Dot(v, v)) {
      assert Dot(n, n) == 1.0;
      DotScale(q, n);
    }
  }

  /** accumulateImpulseMagnitude: a velocity contribution along the direction
      of motion, scaled by the inverse of the mass. */
  ghost function AccumulateImpulseMagnitude(s: BodyState, magnitude: real, mass: real): (t: BodyState)
    requires Length(s.motion.velocity) < FloatEpsilon || mass != 0.0
    ensures t.motion == s.motion
    ensures t.pending.(velocity := s.pending.velocity) == s.pending
    ensures Length(s.motion.velocity) < FloatEpsilon ==>
              t.pending.velocity == Add(s.pending.velocity, Vec3(magnitude, 0.0, 0.0))
    ensures Length(s.motion.velocity) >= FloatEpsilon ==>
              t.pending.velocity == Add(s.pending.velocity, Scale(magnitude / mass, Normalize(s.motion.velocity)))
  {
    if Length(s.motion.velocity) >= FloatEpsilon then
      ImpulseDeltaMoving(s.motion.velocity, magnitude, mass);
      AccumulateVelocity(s, ImpulseDelta(s.motion.velocity, magnitude, mass))
    else
      AccumulateVelocity(s, ImpulseDelta(s.motion.velocity, magnitude, mass))
  }

  /** accumulateAngularImpulseMagnitude: an angular-velocity contribution
      along the spin axis, scaled by the inverse of the moment of inertia. */
  ghost function AccumulateAngularImpulseMagnitude(s: BodyState, magnitude: real, momentOfInertia: real): (t: BodyState)
    requires Length(s.motion.angularVelocity) < FloatEpsilon || momentOfInertia != 0.0
    ensures t.motion == s.motion
    ensures t.pending.(angularVelocity := s.pending.angularVelocity) == s.pending
    ensures Length(s.motion.angularVelocity) < FloatEpsilon ==>
              t.pending.angularVelocity == Add(s.pending.angularVelocity, Vec3(magnitude, 0.0, 0.0))
    ensures Length(s.motion.angularVelocity) >= FloatEpsilon ==>
              t.pending.angularVelocity
              == Add(s.pending.angularVelocity,
                     Scale(magnitude / momentOfInertia, Normalize(s.motion.angularVelocity)))
  {
    if Length(s.motion.angularVelocity) >= FloatEpsilon then
      ImpulseDeltaMoving(s.motion.angularVelocity, magnitude, momentOfInertia);
      AccumulateAngularVelocity(s, ImpulseDelta(s.motion.angularVelocity, magnitude, momentOfInertia))
    else
      AccumulateAngularVelocity(s, ImpulseDelta(s.motion.angularVelocity, magnitude, momentOfInertia))
  }

  /** A body at rest takes the magnitude itself on the x axis: the result is
      defined (no division by a zero length), and mass plays no part in it. */
  lemma ImpulseAtRest(s: BodyState, magnitude: real, mass1: real, mass2: real)
    requires Length(s.motion.velocity) < FloatEpsilon
    ensures AccumulateImpulseMagnitude(s, magnitude, mass1).pending.velocity
         == Add(s.pending.velocity, Vec3(magnitude, 0.0, 0.0))
    ensures AccumulateImpulseMagnitude(s, magnitude, mass1)
         == AccumulateImpulseMagnitude(s, magnitude, mass2)
  {}

  /* ---------------------------------------------------------------------
     A tick's worth of contributions, folded left to right. */

  datatype Contribution =
    | AddVelocity(v: Vec3)
    | AddAngularVelocity(w: Vec3)
    | SetAcceleration(a: Vec3)
    | AddAngularAcceleration(alpha: Vec3)

  function Contribute(s: BodyState, c: Contribution): (t: BodyState)
    ensures t.motion == s.motion
  {
    match c
    case AddVelocity(v) => AccumulateVelocity(s, v)
    case AddAngularVelocity(w) => AccumulateAngularVelocity(s, w)
    case SetAcceleration(a) => AccumulateAcceleration(s, a)
    case AddAngularAcceleration(alpha) => AccumulateAngularAcceleration(s, alpha)
  }

  function AccumulateAll(s: BodyState, cs: seq<Contribution>): (t: BodyState)
    decreases |cs|
  {
    if cs == [] then s else AccumulateAll(Contribute(s, cs[0]), cs[1..])
  }

  /** The part each contribution adds to each summing accumulator. */
  function VelocityPart(c: Contribution): Vec3
  {
    if c.AddVelocity? then c.v else Zero
  }

  function AngularVelocityPart(c: Contribution): Vec3
  {
    if c.AddAngularVelocity? then c.w else Zero
  }

  function AngularAccelerationPart(c: Contribution): Vec3
  {
    if c.AddAngularAcceleration? then c.alpha else Zero
  }

  /** The acceleration the last SetAcceleration of `cs` leaves, or `initial`
      when there is none. */
  function LastAcceleration(initial: Vec3, cs: seq<Contribution>): Vec3
  {
    if cs == [] then initial
    else if cs[|cs| - 1].SetAcceleration? then cs[|cs| - 1].a
    else LastAcceleration(initial, cs[..|cs| - 1])
  }

  lemma {:induction false} LastAccelerationCons(initial: Vec3, c: Contribution, cs: seq<Contribution>)
    ensures LastAcceleration(initial, [c] + cs)
         == LastAcceleration(if c.SetAcceleration? then c.a else initial, cs)
    decreases |cs|
  {
    if cs != [] {
      var rest := cs[..|cs| - 1];
      assert ([c] + cs)[..|cs|] == [c] + rest;
      assert ([c] + cs)[|cs|] == cs[|cs| - 1];
      LastAccelerationCons(initial, c, rest);
    }
  }

  /** Accumulation never touches the body's motion, the three summing
      accumulators end up holding their sums, and the acceleration
      accumulator holds the last acceleration contributed. */
  lemma {:induction false} AccumulateAllEffect(s: BodyState, cs: seq<Contribution>)
    ensures AccumulateAll(s, cs).motion == s.motion
    ensures AccumulateAll(s, cs).pending.velocity
         == Add(s.pending.velocity, SumOf(VelocityPart, cs))
    ensures AccumulateAll(s, cs).pending.angularVelocity
         == Add(s.pending.angularVelocity, SumOf(AngularVelocityPart, cs))
    ensures AccumulateAll(s, cs).pending.angularAcceleration
         == Add(s.pending.angularAcceleration, SumOf(AngularAccelerationPart, cs))
    ensures AccumulateAll(s, cs).pending.acceleration
         == LastAcceleration(s.pending.acceleration, cs)
    decreases |cs|
  {
    if cs == [] {
      AddZero(s.pending.velocity);
      AddZero(s.pending.angularVelocity);
      AddZero(s.pending.angularAcceleration);
    } else {
      var c := cs[0];
      var s1 := Contribute(s, c);
      AccumulateAllEffect(s1, cs[1..]);
      assert cs == [c] + cs[1..];
      LastAccelerationCons(s.pending.acceleration, c, cs[1..]);
      AddAssociative(s.pending.velocity, VelocityPart(c), SumOf(VelocityPart, cs[1..]));
      AddAssociative(s.pending.angularVelocity, AngularVelocityPart(c), SumOf(AngularVelocityPart, cs[1..]));
      AddAssociative(s.pending.angularAcceleration, AngularAccelerationPart(c),
                     SumOf(AngularAccelerationPart, cs[1..]));
      match c
      case AddVelocity(v) =>
        AddZero(s.pending.angularVelocity);
        AddZero(s.pending.angularAcceleration);
      case AddAngularVelocity(w) =>
        AddZero(s.pending.velocity);
        AddZero(s.pending.angularAcceleration);
      case SetAcceleration(a) =>
        AddZero(s.pending.velocity);
        AddZero(s.pending.angularVelocity);
        AddZero(s.pending.angularAcceleration);
      case AddAngularAcceleration(alpha) =>
        AddZero(s.pending.velocity);
        AddZero(s.pending.angularVelocity);
    }
  }

  /** The order in which sources contribute within a tick does not matter,
      except for which acceleration is contributed last. */
  lemma AccumulateAllOrderIndependent(s: BodyState, cs: seq<Contribution>, ds: seq<Contribution>)
    requires multiset(cs) == multiset(ds)
    requires LastAcceleration(s.pending.acceleration, cs) == LastAcceleration(s.pending.acceleration, ds)
    ensures AccumulateAll(s, cs) == AccumulateAll(s, ds)
  {
    AccumulateAllEffect(s, cs);
    AccumulateAllEffect(s, ds);
    SumOfPermutation(VelocityPart, cs, ds);
    SumOfPermutation(AngularVelocityPart, cs, ds);
    SumOfPermutation(AngularAccelerationPart, cs, ds);
  }

  /** Two accelerations contributed in one tick: only the second remains. */
  lemma LastAccelerationWins(s: BodyState, a1: Vec3, a2: Vec3)
    ensures AccumulateAcceleration(AccumulateAcceleration(s, a1), a2)
         == AccumulateAcceleration(s, a2)
  {}

  /** Two velocity contributions commute, and amount to their sum. */
  lemma VelocityContributionsCommute(s: BodyState, v1: Vec3, v2: Vec3)
    ensures AccumulateVelocity(AccumulateVelocity(s, v1), v2)
         == AccumulateVelocity(AccumulateVelocity(s, v2), v1)
    ensures AccumulateVelocity(AccumulateVelocity(s, v1), v2)
         == AccumulateVelocity(s, Add(v1, v2))
  {
    AddAssociative(s.pending.velocity, v1, v2);
    AddAssociative(s.pending.velocity, v2, v1);
    AddCommutative(v1, v2);
  }

  /* ---------------------------------------------------------------------
     Commit and integrate. */

  /** applyAccumulatedChanges: the accumulated velocities are added as they
      are, the accumulated accelerations integrated over `dt`, and all four
      accumulators cleared; the position is left alone. */
  function ApplyAccumulatedChanges(s: BodyState, dt: real): (t: BodyState)
    ensures t.pending == Cleared
    ensures t.motion.baseCenter == s.motion.baseCenter
    ensures s.pending == Cleared ==> t == s
  {
    var p := s.pending;
    ScaleZero(dt);
    AddZero(s.motion.velocity);
    AddZero(s.motion.angularVelocity);
    BodyState(
      Motion(
        s.motion.baseCenter,
        Add(Add(s.motion.velocity, p.velocity), Scale(dt, p.acceleration)),
        Add(Add(s.motion.angularVelocity, p.angularVelocity), Scale(dt, p.angularAcceleration))),
      Cleared)
  }

  /** update: moves the position along the velocity for `dt`. */
  function Update(s: BodyState, dt: real): (t: BodyState)
    ensures t.motion.velocity == s.motion.velocity
    ensures t.motion.angularVelocity == s.motion.angularVelocity
    ensures t.pending == s.pending
    ensures Sub(t.motion.baseCenter, s.motion.baseCenter) == Scale(dt, s.motion.velocity)
  {
    s.(motion := s.motion.(baseCenter := Add(s.motion.baseCenter, Scale(dt, s.motion.velocity))))
  }

  /** setInitialLaunch: sets position and both velocities, keeping the
      accumulators. */
  function SetInitialLaunch(s: BodyState, center: Vec3, velocity: Vec3, angularVelocity: Vec3): (t: BodyState)
    ensures t.motion == Motion(center, velocity, angularVelocity)
    ensures t.pending == s.pending
  {
    BodyState(Motion(center, velocity, angularVelocity), s.pending)
  }

  /** A second commit right after a first has nothing left to apply. */
  lemma CommitIdempotent(s: BodyState, dt1: real, dt2: real)
    ensures ApplyAccumulatedChanges(ApplyAccumulatedChanges(s, dt1), dt2)
         == ApplyAccumulatedChanges(s, dt1)
  {}

  /** Integrating for two steps at a constant velocity is integrating once
      for their total time. */
  lemma UpdateAdditive(s: BodyState, dt1: real, dt2: real)
    ensures Update(Update(s, dt1), dt2) == Update(s, dt1 + dt2)
  {
    var v := s.motion.velocity;
    AddAssociative(s.motion.baseCenter, Scale(dt1, v), Scale(dt2, v));
    ScaleAddTimes(dt1, dt2, v);
  }

  /** The accumulate/commit round trip: from cleared accumulators, two
      velocity contributions and a commit change the velocity by exactly
      their sum (plus the independent acceleration term, zero here), and
      leave every accumulator cleared. */
  lemma AccumulateCommitRoundTrip(s: BodyState, v1: Vec3, v2: Vec3, dt: real)
    requires s.pending == Cleared
    ensures ApplyAccumulatedChanges(AccumulateVelocity(AccumulateVelocity(s, v1), v2), dt).motion.velocity
         == Add(s.motion.velocity, Add(v1, v2))
    ensures ApplyAccumulatedChanges(AccumulateVelocity(AccumulateVelocity(s, v1), v2), dt).pending
         == Cleared
  {
    VelocityContributionsCommute(s, v1, v2);
    AddZero(Add(v1, v2));
    ScaleZero(dt);
    AddZero(Add(s.motion.velocity, Add(v1, v2)));
  }

  /** Two accelerations contributed before one commit: only the second one
      is integrated. */
  lemma CommitUsesLastAcceleration(s: BodyState, a1: Vec3, a2: Vec3, dt: real)
    ensures ApplyAccumulatedChanges(AccumulateAcceleration(AccumulateAcceleration(s, a1), a2), dt).motion.velocity
         == Add(Add(s.motion.velocity, s.pending.velocity), Scale(dt, a2))
  {}

  /** Two angular accelerations contributed before one commit: unlike the
      linear ones, both are integrated. */
  lemma CommitSumsAngularAccelerations(s: BodyState, alpha1: Vec3, alpha2: Vec3, dt: real)
    requires s.pending.angularAcceleration == Zero
    ensures ApplyAccumulatedChanges(
              AccumulateAngularAcceleration(AccumulateAngularAcceleration(s, alpha1), alpha2), dt)
              .motion.angularVelocity
         == Add(Add(s.motion.angularVelocity, s.pending.angularVelocity), Scale(dt, Add(alpha1, alpha2)))
  {}

  /** Committing before integrating matters: when a velocity contribution is
      pending and time passes, integrating first leaves the body somewhere
      else than the commit-then-integrate order does. */
  lemma StepOrderMatters(s: BodyState, dt: real)
    requires s.pending.velocity != Zero && s.pending.acceleration == Zero && dt != 0.0
    ensures Update(ApplyAccumulatedChanges(s, dt), dt).motion.baseCenter
         != ApplyAccumulatedChanges(Update(s, dt), dt).motion.baseCenter
  {
    var p := s.pending.velocity;
    var first := Update(ApplyAccumulatedChanges(s, dt), dt).motion.baseCenter;
    var second := ApplyAccumulatedChanges(Update(s, dt), dt).motion.baseCenter;
    ScaleZero(dt);
    AddZero(Add(s.motion.velocity, p));
    assert Sub(first, second) == Scale(dt, p);
    if p.x != 0.0 {
      MulNonZero(dt, p.x);
    } else if p.y != 0.0 {
      MulNonZero(dt, p.y);
    } else {
      assert p.z != 0.0;
      MulNonZero(dt, p.z);
    }
  }

  /** The end-to-end scenario: a resting body that receives the
      velocity (1, 0, 0), commits and is then integrated for one second ends
      up moving at (1, 0, 0), one unit along x from where it started. */
  lemma EndToEndScenario(s: BodyState, dt: real)
    requires s.motion.velocity == Zero && s.pending == Cleared
    ensures ApplyAccumulatedChanges(AccumulateVelocity(s, Vec3(1.0, 0.0, 0.0)), dt).motion.velocity
         == Vec3(1.0, 0.0, 0.0)
    ensures Update(ApplyAccumulatedChanges(AccumulateVelocity(s, Vec3(1.0, 0.0, 0.0)), dt), 1.0).motion.baseCenter
         == Add(s.motion.baseCenter, Vec3(1.0, 0.0, 0.0))
  {
    ScaleZero(dt);
  }
}
