/** The three part descriptors a spinning top is assembled from: the Layer
    (the top section, which takes the collisions), the Disc (the middle
    section, mostly weight) and the Driver (the bottom tip, which touches the
    stadium). Lengths are in metres, masses in kilograms. */
module BeybladeParts {
  import opened Vectors

  /** The parameters of the recoil distribution a Layer points to. Sampling
      from it is random and is not part of this model. */
  datatype RandomDistribution = RandomDistribution(mean: real, standardDeviation: real)

  datatype Layer = Layer(
    radius: real,
    height: real,
    mass: real,
    momentOfInertia: real,
    rotationalDragCoefficient: real,
    recoilDistribution: RandomDistribution,
    coefficientOfRestitution: real)

  /** The full Disc constructor: the datatype constructor, with the
      parameters in the order of the C++ constructor. */
  datatype Disc = Disc(
    radius: real,
    height: real,
    mass: real,
    momentOfInertia: real,
    rotationalDragCoefficient: real)

  /** The full Driver constructor: the datatype constructor, with the
      parameters in the order of the C++ constructor. */
  datatype Driver = Driver(
    radius: real,
    height: real,
    mass: real,
    momentOfInertia: real,
    rotationalDragCoefficient: real,
    coefficientOfFriction: real)

  /** The documented range of a Layer's rotational drag coefficient (drag
      coefficient times the average radius extending outwards). */
  predicate InDocumentedDragRange(c: real) { 0.001 <= c <= 0.015 }

  /** The full Layer constructor. Its parameter list follows the C++ one,
      which also takes a velocity and an acceleration that it never stores. */
  function NewLayer(radius: real, height: real,
                    recoilDistribution: RandomDistribution, coefficientOfRestitution: real,
                    rotationalDragCoefficient: real, mass: real,
                    velocity: Vec3, acceleration: Vec3, momentOfInertia: real): (l: Layer)
    ensures l.radius == radius && l.height == height && l.mass == mass
    ensures l.momentOfInertia == momentOfInertia
    ensures l.rotationalDragCoefficient == rotationalDragCoefficient
    ensures l.recoilDistribution == recoilDistribution
    ensures l.coefficientOfRestitution == coefficientOfRestitution
  {
    Layer(radius, height, mass, momentOfInertia, rotationalDragCoefficient,
          recoilDistribution, coefficientOfRestitution)
  }

  /** The velocity and acceleration handed to the full Layer constructor
      have no effect on the Layer it builds. */
  lemma NewLayerIgnoresMotion(radius: real, height: real,
                              recoilDistribution: RandomDistribution, coefficientOfRestitution: real,
                              rotationalDragCoefficient: real, mass: real,
                              v1: Vec3, a1: Vec3, v2: Vec3, a2: Vec3, momentOfInertia: real)
    ensures NewLayer(radius, height, recoilDistribution, coefficientOfRestitution,
                     rotationalDragCoefficient, mass, v1, a1, momentOfInertia)
         == NewLayer(radius, height, recoilDistribution, coefficientOfRestitution,
                     rotationalDragCoefficient, mass, v2, a2, momentOfInertia)
  {}

  /** The default Layer: a solid cylinder of radius 25 mm, height 10 mm and
      30 g, with restitution 0.8 and recoil drawn around 1 with spread 0.25. */
  function DefaultLayer(): (l: Layer)
    ensures l.radius > 0.0 && l.height > 0.0 && l.mass > 0.0
    ensures l.momentOfInertia == 0.5 * l.mass * l.radius * l.radius
    ensures l.momentOfInertia > 0.0
    ensures InDocumentedDragRange(l.rotationalDragCoefficient)
    ensures l.coefficientOfRestitution == 0.8
    ensures l.recoilDistribution == RandomDistribution(1.0, 0.25)
  {
    Layer(0.025, 0.01, 0.03, 0.5 * 0.03 * 0.025 * 0.025, 0.7 * 0.005,
          RandomDistribution(1.0, 0.25), 0.8)
  }

  /** The default Disc: radius 18 mm, height 10 mm, 25 g, with a moment of
      inertia of 0.7 m r^2. */
  function DefaultDisc(): (d: Disc)
    ensures d.radius > 0.0 && d.height > 0.0 && d.mass > 0.0
    ensures d.momentOfInertia == 0.7 * d.mass * d.radius * d.radius
    ensures d.momentOfInertia > 0.0
    ensures d.rotationalDragCoefficient == 0.1 * 0.005
  {
    Disc(0.018, 0.01, 0.025, 0.7 * 0.025 * 0.018 * 0.018, 0.1 * 0.005)
  }

  /** The default Driver: radius 4 mm, height 15 mm, 5 g, friction 0.2. Its
      moment of inertia is the product 0.5 * 0.005 * 0.004 * 0.0015 as
      written, which is not the solid-cylinder value 0.5 m r^2. */
  function DefaultDriver(): (d: Driver)
    ensures d.radius > 0.0 && d.height > 0.0 && d.mass > 0.0
    ensures d.momentOfInertia == 0.5 * d.mass * d.radius * 0.0015
    ensures d.momentOfInertia > 0.0
    ensures d.rotationalDragCoefficient == 0.1 * 0.005
    ensures d.coefficientOfFriction == 0.2
  {
    Driver(0.004, 0.015, 0.005, 0.5 * 0.005 * 0.004 * 0.0015, 0.1 * 0.005, 0.2)
  }

  /** All numeric fields of a part are strictly positive. */
  predicate LayerPositive(l: Layer)
  {
    l.radius > 0.0 && l.height > 0.0 && l.mass > 0.0 && l.momentOfInertia > 0.0
    && l.rotationalDragCoefficient > 0.0 && l.coefficientOfRestitution > 0.0
  }

  predicate DiscPositive(d: Disc)
  {
    d.radius > 0.0 && d.height > 0.0 && d.mass > 0.0 && d.momentOfInertia > 0.0
    && d.rotationalDragCoefficient > 0.0
  }

  predicate DriverPositive(d: Driver)
  {
    d.radius > 0.0 && d.height > 0.0 && d.mass > 0.0 && d.momentOfInertia > 0.0
    && d.rotationalDragCoefficient > 0.0 && d.coefficientOfFriction > 0.0
  }

  /** Every numeric field of every default part is strictly positive. */
  lemma DefaultPartsPositive()
    ensures LayerPositive(DefaultLayer())
    ensures DiscPositive(DefaultDisc())
    ensures DriverPositive(DefaultDriver())
  {}
}
