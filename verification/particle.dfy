/**
 * Grains of the silo (class `Particle`) and the two lip pseudo-particles
 * (class `FixedBaseParticle`, a subclass of `Particle`).
 *
 * The subclass is modelled by the constant `kind`: a particle created by the
 * `FixedBase` constructor has kind `FixedBase`, and `UpdateSpeed` dispatches on
 * it exactly as the overriding `updateSpeed` does. The static counter
 * `globalId` is an `IdCounter` object passed to the constructor that uses it.
 */
module Particles {
  import opened Vectors

  /** The explicit id every lip pseudo-particle is created with. */
  const FixedBaseId: int := 10000

  datatype Kind = GrainKind | FixedBaseKind

  /** A value copy of what the force law reads from a particle. */
  datatype Body = Body(x: real, y: real, vx: real, vy: real, r: real) {
    function Pos(): Vec { Vec(x, y) }
    function Speed(): Vec { Vec(vx, vy) }
  }

  /** The static `globalId` of `Particle`. */
  class IdCounter {
    var next: int

    constructor ()
      ensures next == 0
    {
      next := 0;
    }
  }

  /** Surface gap of two disks: centre distance minus both radii
      (`getDistance`, with `Math.sqrt` passed in as `sqrt`). */
  function Gap(p: Body, q: Body, sqrt: real -> real): real {
    sqrt((q.x - p.x) * (q.x - p.x) + (q.y - p.y) * (q.y - p.y)) - p.r - q.r
  }

  lemma GapSymmetric(p: Body, q: Body, sqrt: real -> real)
    ensures Gap(p, q, sqrt) == Gap(q, p, sqrt)
  {
    assert (q.x - p.x) * (q.x - p.x) == (p.x - q.x) * (p.x - q.x);
    assert (q.y - p.y) * (q.y - p.y) == (p.y - q.y) * (p.y - q.y);
  }

  class Particle {
    const id: int
    const radius: real
    const kind: Kind
    var x: real
    var y: real
    var speedx: real
    var speedy: real
    var contactForce: Vec
    /** Debug list of the particles met in the last force pass. */
    var neighbors: seq<Particle>

    /** `Particle(x, y, radius)`: takes its id from the global counter, which
        then moves on by one; both speeds start at zero. */
    constructor (x: real, y: real, radius: real, counter: IdCounter)
      modifies counter
      ensures id == old(counter.next) && counter.next == old(counter.next) + 1
      ensures this.x == x && this.y == y && this.radius == radius && kind == GrainKind
      ensures speedx == 0.0 && speedy == 0.0
      ensures contactForce == Zero && neighbors == []
    {
      id := counter.next;
      this.x := x;
      this.y := y;
      this.radius := radius;
      kind := GrainKind;
      speedx, speedy := 0.0, 0.0;
      contactForce := Zero;
      neighbors := [];
      new;
      counter.next := counter.next + 1;
    }

    /** `Particle(x, y, radius, id)`: the explicit id, no counter involved. */
    constructor WithId(x: real, y: real, radius: real, id: int)
      ensures this.id == id && this.x == x && this.y == y && this.radius == radius
      ensures kind == GrainKind && speedx == 0.0 && speedy == 0.0
      ensures contactForce == Zero && neighbors == []
    {
      this.id := id;
      this.x := x;
      this.y := y;
      this.radius := radius;
      kind := GrainKind;
      speedx, speedy := 0.0, 0.0;
      contactForce := Zero;
      neighbors := [];
    }

    /** `FixedBaseParticle(x, y)`: radius 0 and the fixed id 10000, through the
        explicit-id constructor, so no counter is touched. */
    constructor FixedBase(x: real, y: real)
      ensures id == FixedBaseId && radius == 0.0 && kind == FixedBaseKind
      ensures this.x == x && this.y == y && speedx == 0.0 && speedy == 0.0
      ensures contactForce == Zero && neighbors == []
    {
      id := FixedBaseId;
      this.x := x;
      this.y := y;
      radius := 0.0;
      kind := FixedBaseKind;
      speedx, speedy := 0.0, 0.0;
      contactForce := Zero;
      neighbors := [];
    }

    function GetPos(): (r: Vec)
      reads this`x, this`y
      ensures r.x == x && r.y == y
    {
      Vec(x, y)
    }

    function GetSpeed(): (r: Vec)
      reads this`speedx, this`speedy
      ensures r.x == speedx && r.y == speedy
    {
      Vec(speedx, speedy)
    }

    function AsBody(): Body
      reads this`x, this`y, this`speedx, this`speedy
    {
      Body(x, y, speedx, speedy, radius)
    }

    /** `getDistance(p)`: the surface gap to `p`. */
    function GetDistance(p: Particle, sqrt: real -> real): real
      reads this`x, this`y, this`speedx, this`speedy, p`x, p`y, p`speedx, p`speedy
    {
      Gap(AsBody(), p.AsBody(), sqrt)
    }

    /** `updatePos(double[])`: only x and y change. */
    method UpdatePos(newPos: Vec)
      modifies this`x, this`y
      ensures x == newPos.x && y == newPos.y
    {
      x := newPos.x;
      y := newPos.y;
    }

    /** `updateSpeed(double[])`; for a lip particle the override copies only
        the vertical component. */
    method UpdateSpeed(newSpeed: Vec)
      modifies this`speedx, this`speedy
      ensures speedy == newSpeed.y
      ensures speedx == if kind == FixedBaseKind then old(speedx) else newSpeed.x
    {
      if kind == FixedBaseKind {
        speedy := newSpeed.y;
      } else {
        speedx := newSpeed.x;
        speedy := newSpeed.y;
      }
    }

    /** `FixedBaseParticle.updatePos(double y)`: moves a lip particle
        vertically, x stays. */
    method UpdateBaseY(newY: real)
      requires kind == FixedBaseKind
      modifies this`y
      ensures y == newY
    {
      y := newY;
    }

    /** `resetContactForce`: zero force and an empty neighbour list. */
    method ResetContactForce()
      modifies this`contactForce, this`neighbors
      ensures contactForce == Zero && neighbors == []
    {
      neighbors := [];
      contactForce := Zero;
    }

    /** `addNeighbor`: appends exactly one entry. */
    method AddNeighbor(p: Particle)
      modifies this`neighbors
      ensures neighbors == old(neighbors) + [p]
    {
      neighbors := neighbors + [p];
    }

    /** `equals`: two particles are equal when their ids are. */
    predicate Equals(other: Particle) {
      id == other.id
    }

    /** `hashCode`: the id itself. */
    function HashCode(): int {
      id
    }
  }

  /** The distance is the same measured from either particle. */
  lemma GetDistanceSymmetric(p: Particle, q: Particle, sqrt: real -> real)
    ensures p.GetDistance(q, sqrt) == q.GetDistance(p, sqrt)
  {
    GapSymmetric(p.AsBody(), q.AsBody(), sqrt);
  }

  /** Equality and hash depend only on the id: `Equals` is an equivalence, and
      equal particles hash alike. */
  lemma EqualsIsIdEquivalence(p: Particle, q: Particle, o: Particle)
    ensures p.Equals(p)
    ensures p.Equals(q) <==> q.Equals(p)
    ensures p.Equals(q) && q.Equals(o) ==> p.Equals(o)
    ensures p.Equals(q) <==> p.id == q.id
    ensures p.Equals(q) ==> p.HashCode() == q.HashCode()
  {
  }
}
