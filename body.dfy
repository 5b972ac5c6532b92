/** The rigid body of a spinning top assembled from a Layer, a Disc and a
    Driver: the constants derived once at construction, the spin-axis and
    contact-point queries, the contact test between two bodies, and the
    mutators of the accumulate/commit/integrate step. */
module Beyblade {
  import opened Vectors
  import opened Wrappers
  import opened BeybladeParts
  import opened Kinetics

  /* ---------------------------------------------------------------------
     Drag terms, derived once from the parts. */

  /** 0.5 * Cd * A summed over the parts, with shape factor 0.9: the Layer and
      the Disc are cylinders seen from the side (frontal area 2 h r) and the
      Driver one seen end-on (area h r). */
  function LinearDragTerm(layer: Layer, disc: Disc, driver: Driver): (d: real)
    ensures (layer.height >= 0.0 && layer.radius >= 0.0 && disc.height >= 0.0 && disc.radius >= 0.0
             && driver.height >= 0.0 && driver.radius >= 0.0) ==> d >= 0.0
  {
    var linearLayerCA := 0.9 * 2.0 * layer.height * layer.radius;
    var linearDiscCA := 0.9 * 2.0 * disc.height * disc.radius;
    var linearDriverCA := 0.9 * driver.height * driver.radius;
    MulNonNeg(0.9 * 2.0 * layer.height, layer.radius);
    MulNonNeg(0.9 * 2.0 * disc.height, disc.radius);
    MulNonNeg(0.9 * driver.height, driver.radius);
    0.5 * (linearLayerCA + linearDiscCA + linearDriverCA)
  }

  /** 0.5 * c * h * r^2 summed over the parts, c being each part's rotational
      drag coefficient. */
  function AngularDragTerm(layer: Layer, disc: Disc, driver: Driver): (d: real)
    ensures (layer.rotationalDragCoefficient >= 0.0 && layer.height >= 0.0 && layer.radius >= 0.0
             && disc.rotationalDragCoefficient >= 0.0 && disc.height >= 0.0 && disc.radius >= 0.0
             && driver.rotationalDragCoefficient >= 0.0 && driver.height >= 0.0 && driver.radius >= 0.0)
            ==> d >= 0.0
  {
    var angularLayerCAr2 := PartAngularDrag(layer.rotationalDragCoefficient, layer.height, layer.radius);
    var angularDiscCAr2 := PartAngularDrag(disc.rotationalDragCoefficient, disc.height, disc.radius);
    var angularDriverCAr2 := PartAngularDrag(driver.rotationalDragCoefficient, driver.height, driver.radius);
    0.5 * (angularLayerCAr2 + angularDiscCAr2 + angularDriverCAr2)
  }

  /** c * h * r * r for one part. */
  function PartAngularDrag(c: real, h: real, r: real): (d: real)
    ensures c >= 0.0 && h >= 0.0 && r >= 0.0 ==> d >= 0.0
  {
    MulNonNeg(c, h);
    MulNonNeg(c * h, r);
    MulNonNeg(c * h * r, r);
    c * h * r * r
  }

  /* An independent statement of both terms as a sum over a list of the
     parts' cross-sections. */

  datatype Facing = Side | EndOn

  datatype Section = Section(height: real, radius: real, rotationalDragCoefficient: real, facing: Facing)

  function Sections(layer: Layer, disc: Disc, driver: Driver): seq<Section>
  {
    [Section(layer.height, layer.radius, layer.rotationalDragCoefficient, Side),
     Section(disc.height, disc.radius, disc.rotationalDragCoefficient, Side),
     Section(driver.height, driver.radius, driver.rotationalDragCoefficient, EndOn)]
  }

  /** The frontal area of a cylinder of the section's size, as seen from the
      direction it faces. */
  function FrontalArea(s: Section): real
  {
    match s.facing
    case Side => 2.0 * s.height * s.radius
    case EndOn => s.height * s.radius
  }

  /** Sum of 0.5 * Cd * A with Cd = 0.9. */
  function HalfDragAreaSum(ss: seq<Section>): real
  {
    if ss == [] then 0.0 else 0.5 * 0.9 * FrontalArea(ss[0]) + HalfDragAreaSum(ss[1..])
  }

  /** Sum of 0.5 * c * h * r^2. */
  function HalfRotationalDragSum(ss: seq<Section>): real
  {
    if ss == [] then 0.0
    else 0.5 * PartAngularDrag(ss[0].rotationalDragCoefficient, ss[0].height, ss[0].radius)
         + HalfRotationalDragSum(ss[1..])
  }

  /** The linear drag term is the per-part sum of 0.5 * Cd * A. */
  lemma LinearDragIsPerPartSum(layer: Layer, disc: Disc, driver: Driver)
    ensures LinearDragTerm(layer, disc, driver) == HalfDragAreaSum(Sections(layer, disc, driver))
  {
    var ss := Sections(layer, disc, driver);
    assert ss[1..][1..][1..] == [];
    assert HalfDragAreaSum(ss[1..][1..]) == 0.5 * 0.9 * FrontalArea(ss[2]);
    assert HalfDragAreaSum(ss[1..]) == 0.5 * 0.9 * FrontalArea(ss[1]) + 0.5 * 0.9 * FrontalArea(ss[2]);
    assert 0.9 * 2.0 * layer.height * layer.radius == 0.9 * (2.0 * layer.height * layer.radius);
    assert 0.9 * 2.0 * disc.height * disc.radius == 0.9 * (2.0 * disc.height * disc.radius);
    assert 0.9 * driver.height * driver.radius == 0.9 * (driver.height * driver.radius);
  }

  /** The angular drag term is the per-part sum of 0.5 * c * h * r^2. */
  lemma AngularDragIsPerPartSum(layer: Layer, disc: Disc, driver: Driver)
    ensures AngularDragTerm(layer, disc, driver) == HalfRotationalDragSum(Sections(layer, disc, driver))
  {
    var ss := Sections(layer, disc, driver);
    assert ss[1..][1..][1..] == [];
    assert HalfRotationalDragSum(ss[1..][1..])
        == 0.5 * PartAngularDrag(driver.rotationalDragCoefficient, driver.height, driver.radius);
    assert HalfRotationalDragSum(ss[1..])
        == 0.5 * PartAngularDrag(disc.rotationalDragCoefficient, disc.height, disc.radius)
           + 0.5 * PartAngularDrag(driver.rotationalDragCoefficient, driver.height, driver.radius);
  }

  /** The default parts make a body of 60 g with a positive moment of
      inertia and positive drag terms. */
  lemma DefaultBodyConstants()
    ensures DefaultLayer().mass + DefaultDisc().mass + DefaultDriver().mass == 0.06
    ensures DefaultLayer().momentOfInertia + DefaultDisc().momentOfInertia
            + DefaultDriver().momentOfInertia > 0.0
    ensures LinearDragTerm(DefaultLayer(), DefaultDisc(), DefaultDriver()) > 0.0
    ensures AngularDragTerm(DefaultLayer(), DefaultDisc(), DefaultDriver()) > 0.0
  {}

  /* ---------------------------------------------------------------------
     The body. */

  class BeybladeBody {
    const layerRadius: real
    const layerHeight: real
    const discRadius: real
    const discHeight: real
    const driverRadius: real
    const driverHeight: real
    const recoilDistribution: RandomDistribution
    const coefficientOfRestitution: real
    const coefficientOfFriction: real
    const mass: real
    const momentOfInertia: real
    const linearDragTerm: real
    const angularDragTerm: real

    /* The kinetic state. It is ghost because the queries and mutators that
       read it go through the ghost square root (see module Vectors). */
    ghost var baseCenter: Vec3
    ghost var velocity: Vec3
    ghost var acceleration: Vec3
    ghost var angularVelocity: Vec3
    ghost var accumulatedVelocity: Vec3
    ghost var accumulatedAngularVelocity: Vec3
    ghost var accumulatedAcceleration: Vec3
    ghost var accumulatedAngularAcceleration: Vec3

    /** The state the step functions of module Kinetics act on. */
    ghost function State(): BodyState
      reads this
    {
      BodyState(
        Motion(baseCenter, velocity, angularVelocity),
        Accumulators(accumulatedVelocity, accumulatedAngularVelocity,
                     accumulatedAcceleration, accumulatedAngularAcceleration))
    }

    /** The constants of a body built from the given parts. */
    ghost predicate BuiltFrom(layer: Layer, disc: Disc, driver: Driver)
    {
      && layerRadius == layer.radius && layerHeight == layer.height
      && discRadius == disc.radius && discHeight == disc.height
      && driverRadius == driver.radius && driverHeight == driver.height
      && recoilDistribution == layer.recoilDistribution
      && coefficientOfRestitution == 0.8 && coefficientOfFriction == 0.2
      && mass == layer.mass + disc.mass + driver.mass
      && momentOfInertia == layer.momentOfInertia + disc.momentOfInertia + driver.momentOfInertia
      && linearDragTerm == LinearDragTerm(layer, disc, driver)
      && angularDragTerm == AngularDragTerm(layer, disc, driver)
    }

    /** A body from three parts. Mass and moment of inertia are the sums over
        the parts; restitution and friction are fixed at 0.8 and 0.2 whatever
        the Layer and the Driver say. The body starts still, at the origin,
        with empty accumulators. */
    constructor (layer: Layer, disc: Disc, driver: Driver)
      ensures BuiltFrom(layer, disc, driver)
      ensures State() == BodyState(Motion(Zero, Zero, Zero), Cleared)
      ensures acceleration == Zero
    {
      layerRadius := layer.radius;
      layerHeight := layer.height;
      discRadius := disc.radius;
      discHeight := disc.height;
      driverRadius := driver.radius;
      driverHeight := driver.height;
      recoilDistribution := layer.recoilDistribution;
      coefficientOfRestitution := 0.8;
      coefficientOfFriction := 0.2;
      mass := layer.mass + disc.mass + driver.mass;
      momentOfInertia := layer.momentOfInertia + disc.momentOfInertia + driver.momentOfInertia;
      linearDragTerm := LinearDragTerm(layer, disc, driver);
      angularDragTerm := AngularDragTerm(layer, disc, driver);
      baseCenter := Zero;
      velocity := Zero;
      acceleration := Zero;
      angularVelocity := Zero;
      accumulatedVelocity := Zero;
      accumulatedAngularVelocity := Zero;
      accumulatedAcceleration := Zero;
      accumulatedAngularAcceleration := Zero;
    }

    /** The body built from the default parts (see DefaultBodyConstants). */
    static method Default() returns (b: BeybladeBody)
      ensures fresh(b)
      ensures b.BuiltFrom(DefaultLayer(), DefaultDisc(), DefaultDriver())
      ensures b.State() == BodyState(Motion(Zero, Zero, Zero), Cleared)
      ensures b.acceleration == Zero
    {
      b := new BeybladeBody(DefaultLayer(), DefaultDisc(), DefaultDriver());
    }

    /* -------------------------------------------------------------------
       Spin-axis queries. */

    /** The unit spin axis, turned so that it points upwards (or lies flat). */
    ghost function GetNormal(): (n: Vec3)
      reads this
      requires angularVelocity != Zero
      ensures n.y >= 0.0
      ensures angularVelocity.y >= 0.0 ==> n == Normalize(angularVelocity)
      ensures angularVelocity.y < 0.0 ==> n == Neg(Normalize(angularVelocity))
      ensures HasSqrt(Dot(angularVelocity, angularVelocity)) ==> Dot(n, n) == 1.0
    {
      var normalizedAngularVelocity := Normalize(angularVelocity);
      NormalizeSign(angularVelocity);
      if normalizedAngularVelocity.y < 0.0 then
        Neg(normalizedAngularVelocity)
      else
        normalizedAngularVelocity
    }

    /** The tip of the driver: the base center moved down the spin axis, away
        from the upward normal, by the height of the disc and the driver. */
    ghost function GetBottomPosition(): (p: Vec3)
      reads this
      requires angularVelocity != Zero
      ensures p == Sub(baseCenter, Scale(discHeight + driverHeight, GetNormal()))
    {
      var h := discHeight + driverHeight;
      var n := Normalize(angularVelocity);
      assert GetNormal() == if angularVelocity.y < 0.0 then Neg(n) else n;
      assert Scale(h, Neg(n)) == Neg(Scale(h, n));
      var unitDown := if angularVelocity.y < 0.0 then Normalize(angularVelocity) else Neg(Normalize(angularVelocity));
      var tiltedDisplacement := Scale(discHeight + driverHeight, unitDown);
      Add(baseCenter, tiltedDisplacement)
    }

    /* -------------------------------------------------------------------
       Mutators. */

    /** setInitialLaunch. */
    method SetInitialLaunch(initialCenter: Vec3, initialVelocity: Vec3, initialAngularVelocity: Vec3)
      modifies this`baseCenter, this`velocity, this`angularVelocity
      ensures State() == Kinetics.SetInitialLaunch(old(State()), initialCenter, initialVelocity, initialAngularVelocity)
    {
      baseCenter := initialCenter;
      velocity := initialVelocity;
      angularVelocity := initialAngularVelocity;
    }

    method AccumulateVelocity(addedVelocity: Vec3)
      modifies this`accumulatedVelocity
      ensures State() == Kinetics.AccumulateVelocity(old(State()), addedVelocity)
    {
      accumulatedVelocity := Add(accumulatedVelocity, addedVelocity);
    }

    method AccumulateAngularVelocity(addedAngularVelocity: Vec3)
      modifies this`accumulatedAngularVelocity
      ensures State() == Kinetics.AccumulateAngularVelocity(old(State()), addedAngularVelocity)
    {
      accumulatedAngularVelocity := Add(accumulatedAngularVelocity, addedAngularVelocity);
    }

    method AccumulateAcceleration(addedAcceleration: Vec3)
      modifies this`accumulatedAcceleration
      ensures State() == Kinetics.AccumulateAcceleration(old(State()), addedAcceleration)
    {
      accumulatedAcceleration := addedAcceleration;
    }

    method AccumulateAngularAcceleration(addedAngularAcceleration: Vec3)
      modifies this`accumulatedAngularAcceleration
      ensures State() == Kinetics.AccumulateAngularAcceleration(old(State()), addedAngularAcceleration)
    {
      accumulatedAngularAcceleration := Add(accumulatedAngularAcceleration, addedAngularAcceleration);
    }

    /** Changes the spin rate by an angular impulse of the given magnitude.
        The state it tests is ghost, so it updates the accumulator itself
        rather than through AccumulateAngularVelocity. */
    method AccumulateAngularImpulseMagnitude(magnitude: real)
      requires Length(angularVelocity) < FloatEpsilon || momentOfInertia != 0.0
      modifies this`accumulatedAngularVelocity
      ensures State() == Kinetics.AccumulateAngularImpulseMagnitude(old(State()), magnitude, momentOfInertia)
    {
      if Length(angularVelocity) < FloatEpsilon {
        accumulatedAngularVelocity := Add(accumulatedAngularVelocity, Vec3(magnitude, 0.0, 0.0));
      } else {
        ghost var deltaAngularImpulse := Scale(magnitude, Normalize(angularVelocity));
        ghost var deltaAngularVelocity := DivScalar(deltaAngularImpulse, momentOfInertia);
        accumulatedAngularVelocity := Add(accumulatedAngularVelocity, deltaAngularVelocity);
      }
    }

    /** Changes the speed by an impulse of the given magnitude. */
    method AccumulateImpulseMagnitude(magnitude: real)
      requires Length(velocity) < FloatEpsilon || mass != 0.0
      modifies this`accumulatedVelocity
      ensures State() == Kinetics.AccumulateImpulseMagnitude(old(State()), magnitude, mass)
    {
      if Length(velocity) < FloatEpsilon {
        accumulatedVelocity := Add(accumulatedVelocity, Vec3(magnitude, 0.0, 0.0));
      } else {
        ghost var deltaImpulse := Scale(magnitude, Normalize(velocity));
        ghost var deltaVelocity := DivScalar(deltaImpulse, mass);
        accumulatedVelocity := Add(accumulatedVelocity, deltaVelocity);
      }
    }

    /** The commit of a tick. */
    method ApplyAccumulatedChanges(deltaTime: real)
      modifies this`velocity, this`angularVelocity, this`accumulatedVelocity,
               this`accumulatedAngularVelocity, this`accumulatedAcceleration,
               this`accumulatedAngularAcceleration
      ensures State() == Kinetics.ApplyAccumulatedChanges(old(State()), deltaTime)
    {
      velocity := Add(velocity, accumulatedVelocity);
      angularVelocity := Add(angularVelocity, accumulatedAngularVelocity);
      velocity := Add(velocity, Scale(deltaTime, accumulatedAcceleration));
      angularVelocity := Add(angularVelocity, Scale(deltaTime, accumulatedAngularAcceleration));
      accumulatedVelocity := Zero;
      accumulatedAngularVelocity := Zero;
      accumulatedAcceleration := Zero;
      accumulatedAngularAcceleration := Zero;
    }

    /** The position integration of a tick. */
    method Update(deltaTime: real)
      modifies this`baseCenter
      ensures State() == Kinetics.Update(old(State()), deltaTime)
    {
      baseCenter := Add(baseCenter, Scale(deltaTime, velocity));
    }

    /* -------------------------------------------------------------------
       Contact between two bodies. */

    /** The contact test. Absent arguments are an error. A pair whose lower
        layer ends below the higher body's center is not in contact; otherwise
        the pair is in contact exactly when the layers' discs overlap in the
        horizontal plane, and the result is then the overlap depth
        sqrt(R^2 - d^2), R being the sum of the layer radii and d the
        horizontal distance between the centers. Neither body is changed. */
    static ghost function DistanceOverlap(a: BeybladeBody?, b: BeybladeBody?): (r: Result<Option<real>>)
      reads a, b
      ensures r.Failure? <==> (a == null || b == null)
      ensures r.Success? && r.value.Some? ==>
                a != null && b != null
                && (a.layerRadius + b.layerRadius) * (a.layerRadius + b.layerRadius)
                   > PlanarDistanceSquared(a.baseCenter, b.baseCenter)
                && r.value.value > 0.0
    {
      if a == null || b == null then
        Failure(InvalidArgument("Null pointer created in Beyblade::inContact"))
      else
        var aCenter := a.baseCenter;
        var bCenter := b.baseCenter;
        var lowerBey := if aCenter.y < bCenter.y then a else b;
        var higherBey := if lowerBey == a then b else a;
        if lowerBey.baseCenter.y + lowerBey.layerHeight < higherBey.baseCenter.y then
          Success(None)
        else
          var squaredDistance := PlanarDistanceSquared(aCenter, bCenter);
          var radiiSum := a.layerRadius + b.layerRadius;
          var overlapDistance := radiiSum * radiiSum - squaredDistance;
          if overlapDistance > 0.0 then Success(Some(Sqrt(overlapDistance)))
          else Success(None)
    }
  }

  /** The squared distance between two points in the horizontal (x, z)
      plane. */
  function PlanarDistanceSquared(p: Vec3, q: Vec3): real
  {
    var diffX := p.x - q.x;
    var diffZ := p.z - q.z;
    diffX * diffX + diffZ * diffZ
  }

  lemma PlanarDistanceSymmetric(p: Vec3, q: Vec3)
    ensures PlanarDistanceSquared(p, q) == PlanarDistanceSquared(q, p)
  {
    assert (p.x - q.x) * (p.x - q.x) == (q.x - p.x) * (q.x - p.x);
    assert (p.z - q.z) * (p.z - q.z) == (q.z - p.z) * (q.z - p.z);
  }

  /* ---------------------------------------------------------------------
     Properties of the queries. */

  /** Reversing the sense of spin leaves the upward normal unchanged, unless
      the spin axis lies flat. */
  lemma NormalIgnoresSpinSense(b1: BeybladeBody, b2: BeybladeBody)
    requires b2.angularVelocity != Zero && b2.angularVelocity.y != 0.0
    requires b1.angularVelocity == Neg(b2.angularVelocity)
    ensures b1.angularVelocity != Zero
    ensures b1.GetNormal() == b2.GetNormal()
  {
    NormalizeNeg(b2.angularVelocity);
  }

  /** Neither body's center lies above the top of the other's layer. */
  ghost predicate LayersMeet(a: BeybladeBody, b: BeybladeBody)
    reads a, b
  {
    b.baseCenter.y <= a.baseCenter.y + a.layerHeight && a.baseCenter.y <= b.baseCenter.y + b.layerHeight
  }

  /** The pairs the contact test turns away on height alone: the body taken
      as the lower one (the first only when its center is strictly lower)
      has a layer that ends below the other body's center. Whatever the
      heights, including negative ones. */
  ghost predicate VerticallyRejected(a: BeybladeBody, b: BeybladeBody)
    reads a, b
  {
    || (a.baseCenter.y < b.baseCenter.y && a.baseCenter.y + a.layerHeight < b.baseCenter.y)
    || (a.baseCenter.y >= b.baseCenter.y && b.baseCenter.y + b.layerHeight < a.baseCenter.y)
  }

  /** Layers that meet are never turned away; for layers of non-negative
      height, being turned away is exactly not meeting. */
  lemma LayersMeetNotRejected(a: BeybladeBody, b: BeybladeBody)
    ensures LayersMeet(a, b) ==> !VerticallyRejected(a, b)
    ensures a.layerHeight >= 0.0 && b.layerHeight >= 0.0 ==> (VerticallyRejected(a, b) <==> !LayersMeet(a, b))
  {}

  /** When the lower body's layer ends below the higher body's center there
      is no contact, wherever the two are horizontally. */
  lemma VerticallyApartNoContact(a: BeybladeBody, b: BeybladeBody)
    requires a.baseCenter.y < b.baseCenter.y && a.baseCenter.y + a.layerHeight < b.baseCenter.y
    ensures BeybladeBody.DistanceOverlap(a, b) == Success(None)
    ensures BeybladeBody.DistanceOverlap(b, a) == Success(None)
  {}

  /** For any two bodies the test succeeds; a pair turned away on height is
      not in contact, and any other pair is in contact exactly when the
      layers' discs overlap horizontally. */
  lemma ContactIffDiscsOverlap(a: BeybladeBody, b: BeybladeBody)
    ensures BeybladeBody.DistanceOverlap(a, b).Success?
    ensures VerticallyRejected(a, b) ==> BeybladeBody.DistanceOverlap(a, b) == Success(None)
    ensures !VerticallyRejected(a, b) ==>
              (BeybladeBody.DistanceOverlap(a, b).value.Some?
               <==> (a.layerRadius + b.layerRadius) * (a.layerRadius + b.layerRadius)
                    > PlanarDistanceSquared(a.baseCenter, b.baseCenter))
  {}

  /** Bodies further apart horizontally than the sum of their layer radii are
      not in contact. */
  lemma FarApartNoContact(a: BeybladeBody, b: BeybladeBody)
    requires PlanarDistanceSquared(a.baseCenter, b.baseCenter)
             >= (a.layerRadius + b.layerRadius) * (a.layerRadius + b.layerRadius)
    ensures BeybladeBody.DistanceOverlap(a, b) == Success(None)
  {}

  /** The depth reported is the other leg of the right triangle whose
      hypotenuse is the sum of the radii and whose first leg is the
      horizontal distance between the centers. */
  lemma OverlapDepthIsComplement(a: BeybladeBody, b: BeybladeBody)
    requires BeybladeBody.DistanceOverlap(a, b).Success?
    requires BeybladeBody.DistanceOverlap(a, b).value.Some?
    requires HasSqrt((a.layerRadius + b.layerRadius) * (a.layerRadius + b.layerRadius)
                     - PlanarDistanceSquared(a.baseCenter, b.baseCenter))
    ensures var d := BeybladeBody.DistanceOverlap(a, b).value.value;
            d * d + PlanarDistanceSquared(a.baseCenter, b.baseCenter)
            == (a.layerRadius + b.layerRadius) * (a.layerRadius + b.layerRadius)
  {}

  /** Bodies with coincident horizontal position that are not turned away on
      height are in contact, with depth the sum of their radii. */
  lemma CoincidentCentersFullDepth(a: BeybladeBody, b: BeybladeBody)
    requires a.baseCenter.x == b.baseCenter.x && a.baseCenter.z == b.baseCenter.z
    requires !VerticallyRejected(a, b)
    requires a.layerRadius + b.layerRadius > 0.0
    ensures BeybladeBody.DistanceOverlap(a, b) == Success(Some(a.layerRadius + b.layerRadius))
  {
    var radiiSum := a.layerRadius + b.layerRadius;
    assert PlanarDistanceSquared(a.baseCenter, b.baseCenter) == 0.0;
    MulPos(radiiSum, radiiSum);
    assert radiiSum * radiiSum == Product(radiiSum, radiiSum);
    ContactIffDiscsOverlap(a, b);
    assert IsRootOf(radiiSum, radiiSum * radiiSum - PlanarDistanceSquared(a.baseCenter, b.baseCenter));
    OverlapDepthIsComplement(a, b);
    var d := BeybladeBody.DistanceOverlap(a, b).value.value;
    RootUnique(d, radiiSum, radiiSum * radiiSum);
  }

  /** The test does not depend on the order of its arguments when both layer
      heights are non-negative. */
  lemma DistanceOverlapSymmetric(a: BeybladeBody?, b: BeybladeBody?)
    requires a != null ==> a.layerHeight >= 0.0
    requires b != null ==> b.layerHeight >= 0.0
    ensures BeybladeBody.DistanceOverlap(a, b) == BeybladeBody.DistanceOverlap(b, a)
  {
    if a != null && b != null {
      PlanarDistanceSymmetric(a.baseCenter, b.baseCenter);
      assert (a.layerRadius + b.layerRadius) * (a.layerRadius + b.layerRadius)
          == (b.layerRadius + a.layerRadius) * (b.layerRadius + a.layerRadius);
    }
  }

  /** The end-to-end scenario: a body at rest with empty accumulators (the
      default body, of mass 0.06, when just built) receives the velocity
      (1, 0, 0), commits, and is integrated for one second. It then moves at
      (1, 0, 0) and has moved by exactly that much; the commit's time step
      plays no part, and neither does the mass. */
  method EndToEndScenario(b: BeybladeBody, dt: real)
    requires b.velocity == Zero && b.State().pending == Cleared
    modifies b
    ensures b.velocity == Vec3(1.0, 0.0, 0.0)
    ensures b.baseCenter == Add(old(b.baseCenter), Vec3(1.0, 0.0, 0.0))
    ensures b.State().pending == Cleared
  {
    b.AccumulateVelocity(Vec3(1.0, 0.0, 0.0));
    b.ApplyAccumulatedChanges(dt);
    b.Update(1.0);
  }
}
