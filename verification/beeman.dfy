/**
 * The integrator of src/main/java/engine/Beeman.java: a Beeman-style
 * predictor-corrector over the silo, run as an iterator of snapshots.
 *
 * Each step moves the floor (`updateBase`), takes the force matrix, predicts
 * every grain's position and velocity from it and from the previous step's
 * matrix, takes the force matrix again at the predicted state, and corrects
 * the velocity starting from the damped pre-step velocity. The random draws
 * of `updateBase` are a parameter of `Next`.
 */
module BeemanIntegrator {
  import opened Vectors
  import opened Particles
  import opened SiloEngine

  /** The damping factor applied to the pre-step velocity. */
  const Damping: real := 0.9625

  /** The predicted coordinate: `pos + v dt + 2 dts F / (3m) - dts Fprev / (6m)`. */
  function PredictedPos(pos: real, speed: real, force: real, prevForce: real,
                        dt: real, dts: real, mass: real): real
    requires mass != 0.0
  {
    pos + speed * dt + 2.0 * dts * (force / (3.0 * mass)) - dts * prevForce / (6.0 * mass)
  }

  /** The predicted velocity component: `v + 3 dt F / (2m) - dt Fprev / (2m)`. */
  function PredictedSpeed(speed: real, force: real, prevForce: real, dt: real, mass: real): real
    requires mass != 0.0
  {
    speed + 3.0 * dt * force / (2.0 * mass) - dt * prevForce / (2.0 * mass)
  }

  /** The corrected velocity component from the start velocity `speed`:
      `speed + dt Fnext / (3m) + 5 dt F / (6m) - dt Fprev / (6m)`. */
  function CorrectedSpeed(speed: real, nextForce: real, force: real, prevForce: real,
                          dt: real, mass: real): real
    requires mass != 0.0
  {
    speed + dt * nextForce / (3.0 * mass) + 5.0 * dt * force / (6.0 * mass) - dt * prevForce / (6.0 * mass)
  }

  function PredictPos(pos: Vec, speed: Vec, force: Vec, prevForce: Vec,
                      dt: real, dts: real, mass: real): Vec
    requires mass != 0.0
  {
    Vec(PredictedPos(pos.x, speed.x, force.x, prevForce.x, dt, dts, mass),
        PredictedPos(pos.y, speed.y, force.y, prevForce.y, dt, dts, mass))
  }

  function PredictSpeed(speed: Vec, force: Vec, prevForce: Vec, dt: real, mass: real): Vec
    requires mass != 0.0
  {
    Vec(PredictedSpeed(speed.x, force.x, prevForce.x, dt, mass),
        PredictedSpeed(speed.y, force.y, prevForce.y, dt, mass))
  }

  function CorrectSpeed(speed: Vec, nextForce: Vec, force: Vec, prevForce: Vec,
                        dt: real, mass: real): Vec
    requires mass != 0.0
  {
    Vec(CorrectedSpeed(speed.x, nextForce.x, force.x, prevForce.x, dt, mass),
        CorrectedSpeed(speed.y, nextForce.y, force.y, prevForce.y, dt, mass))
  }

  /** A body after `updateSpeed(v)` on a particle of kind `kind`: a lip
      particle keeps its horizontal speed. */
  function WithSpeed(b: Body, kind: Kind, v: Vec): Body {
    Body(b.x, b.y, if kind == FixedBaseKind then b.vx else v.x, v.y, b.r)
  }

  /** A body after the predictor: `updatePos` to the predicted position,
      then `updateSpeed` to the predicted velocity. */
  function Predicted(b: Body, kind: Kind, force: Vec, prevForce: Vec,
                     dt: real, dts: real, mass: real): Body
    requires mass != 0.0
  {
    var p := PredictPos(b.Pos(), b.Speed(), force, prevForce, dt, dts, mass);
    WithSpeed(Body(p.x, p.y, b.vx, b.vy, b.r), kind, PredictSpeed(b.Speed(), force, prevForce, dt, mass))
  }

  /** One whole step for a grain that starts it as `b`: predicted, then its
      velocity corrected from the damped start velocity. */
  function Step(b: Body, kind: Kind, force: Vec, prevForce: Vec, nextForce: Vec,
                dt: real, dts: real, mass: real): Body
    requires mass != 0.0
  {
    WithSpeed(Predicted(b, kind, force, prevForce, dt, dts, mass), kind,
              CorrectSpeed(Scale(Damping, b.Speed()), nextForce, force, prevForce, dt, mass))
  }

  /** Under a force that stays `f` over three samples, with `dts = dt * dt`,
      the predictor and the corrector agree with uniformly accelerated
      motion: `x + v dt + dt^2 f / (2m)` and `v + dt f / m`. */
  lemma ConstantForceIsUniformAcceleration(pos: real, speed: real, f: real,
                                           dt: real, dts: real, mass: real)
    requires mass != 0.0 && dts == dt * dt
    ensures PredictedPos(pos, speed, f, f, dt, dts, mass) == pos + speed * dt + dts * f / (2.0 * mass)
    ensures PredictedSpeed(speed, f, f, dt, mass) == speed + dt * f / mass
    ensures CorrectedSpeed(speed, f, f, f, dt, mass) == speed + dt * f / mass
  {
    ConstantForcePredictedPos(pos, speed, f, dt, dts, mass);
    ConstantForcePredictedSpeed(speed, f, dt, mass);
    ConstantForceCorrectedSpeed(speed, f, dt, mass);
  }

  /** The position half: `2/3 - 1/6 = 1/2` of `dts f / m`. */
  lemma ConstantForcePredictedPos(pos: real, speed: real, f: real, dt: real, dts: real, mass: real)
    requires mass != 0.0
    ensures PredictedPos(pos, speed, f, f, dt, dts, mass) == pos + speed * dt + dts * f / (2.0 * mass)
  {
    var a := dts * f / mass;
    assert 2.0 * dts * (f / (3.0 * mass)) == 2.0 * a / 3.0;
    assert dts * f / (6.0 * mass) == a / 6.0;
    assert dts * f / (2.0 * mass) == a / 2.0;
  }

  /** The predicted velocity: `3/2 - 1/2 = 1` of `dt f / m`. */
  lemma ConstantForcePredictedSpeed(speed: real, f: real, dt: real, mass: real)
    requires mass != 0.0
    ensures PredictedSpeed(speed, f, f, dt, mass) == speed + dt * f / mass
  {
    var a := dt * f / mass;
    assert 3.0 * dt * f / (2.0 * mass) == 3.0 * a / 2.0;
    assert dt * f / (2.0 * mass) == a / 2.0;
  }

  /** The corrected velocity: `1/3 + 5/6 - 1/6 = 1` of `dt f / m`. */
  lemma ConstantForceCorrectedSpeed(speed: real, f: real, dt: real, mass: real)
    requires mass != 0.0
    ensures CorrectedSpeed(speed, f, f, f, dt, mass) == speed + dt * f / mass
  {
    var a := dt * f / mass;
    assert dt * f / (3.0 * mass) == a / 3.0;
    assert 5.0 * dt * f / (6.0 * mass) == 5.0 * a / 6.0;
    assert dt * f / (6.0 * mass) == a / 6.0;
  }

  /** With no force in any of the three samples a grain drifts with its
      velocity, and the step leaves it with the damped velocity. */
  lemma ForceFreeStep(b: Body, dt: real, dts: real, mass: real)
    requires mass != 0.0
    ensures Step(b, GrainKind, Zero, Zero, Zero, dt, dts, mass)
         == Body(b.x + b.vx * dt, b.y + b.vy * dt, Damping * b.vx, Damping * b.vy, b.r)
  {
  }

  /** The body `bs[k]` of each grain `gs[k]` after the predictor, with the
      rows of `F` (this step) and `P` (the last step) at the grain's id. */
  function PredictAll(bs: seq<Body>, gs: seq<Particle>, F: seq<Vec>, P: seq<Vec>,
                      dt: real, dts: real, mass: real): seq<Body>
    requires mass != 0.0 && |bs| == |gs| == |F| == |P| && IdsIndex(gs)
  {
    seq(|bs|, k requires 0 <= k < |bs| => Predicted(bs[k], gs[k].kind, F[gs[k].id], P[gs[k].id], dt, dts, mass))
  }

  /** The body `bs[k]` of each grain `gs[k]` after the corrector, which
      starts from the recorded velocity `S` and uses the rows of the
      predicted state (`Nx`), this step (`F`) and the last step (`P`). */
  function CorrectAll(bs: seq<Body>, gs: seq<Particle>, S: seq<Vec>, Nx: seq<Vec>, F: seq<Vec>, P: seq<Vec>,
                      dt: real, mass: real): seq<Body>
    requires mass != 0.0 && |bs| == |gs| == |S| == |Nx| == |F| == |P| && IdsIndex(gs)
  {
    seq(|bs|, k requires 0 <= k < |bs| =>
      WithSpeed(bs[k], gs[k].kind, CorrectSpeed(S[gs[k].id], Nx[gs[k].id], F[gs[k].id], P[gs[k].id], dt, mass)))
  }

  /** Every grain after one whole `Step` with its rows of the three matrices. */
  function StepAll(bs: seq<Body>, gs: seq<Particle>, F: seq<Vec>, P: seq<Vec>, Nx: seq<Vec>,
                   dt: real, dts: real, mass: real): seq<Body>
    requires mass != 0.0 && |bs| == |gs| == |F| == |P| == |Nx| && IdsIndex(gs)
  {
    seq(|bs|, k requires 0 <= k < |bs| => Step(bs[k], gs[k].kind, F[gs[k].id], P[gs[k].id], Nx[gs[k].id], dt, dts, mass))
  }

  /** The predictor followed by the corrector is one `Step` per grain, when
      the corrector starts from the damped velocities recorded before the
      predictor moved the grains. */
  lemma PredictThenCorrect(bs: seq<Body>, gs: seq<Particle>, S: seq<Vec>, F: seq<Vec>, P: seq<Vec>, Nx: seq<Vec>,
                           dt: real, dts: real, mass: real)
    requires mass != 0.0 && |bs| == |gs| == |S| == |F| == |P| == |Nx| && IdsIndex(gs)
    requires forall k :: 0 <= k < |gs| ==> S[gs[k].id] == Scale(Damping, bs[k].Speed())
    ensures CorrectAll(PredictAll(bs, gs, F, P, dt, dts, mass), gs, S, Nx, F, P, dt, mass)
         == StepAll(bs, gs, F, P, Nx, dt, dts, mass)
  {
    var lhs := CorrectAll(PredictAll(bs, gs, F, P, dt, dts, mass), gs, S, Nx, F, P, dt, mass);
    var rhs := StepAll(bs, gs, F, P, Nx, dt, dts, mass);
    forall k | 0 <= k < |bs|
      ensures lhs[k] == rhs[k]
    {
      assert S[gs[k].id] == Scale(Damping, bs[k].Speed());
    }
  }

  /** What a step hands back: the new time, the live grain list and the
      flow counted so far. */
  datatype Time = Time(time: real, grains: seq<Particle>, totalFlow: int)

  /** What the constructor of the iterator computes: the first force
      matrix of the silo as it is, and a zero speed per grain. */
  method Start(silo: Silo) returns (fm: seq<Vec>, zs: array<Vec>)
    requires Ready(silo)
    modifies silo`grid, silo.grains`contactForce, silo.grains`neighbors
    ensures Ready(silo) && fresh(zs) && zs.Length == |silo.grains|
    ensures silo.IsForceMatrix(fm) && fm == silo.MatrixOf(Bodies(silo.grains))
    ensures forall k :: 0 <= k < zs.Length ==> zs[k] == Zero
  {
    zs := new Vec[|silo.grains|](_ => Zero);
    fm := silo.ForceMatrix();
  }

  /** What the integrator needs of the silo: valid, with grains whose
      distinct ids index the force matrix. */
  ghost predicate Ready(silo: Silo)
    reads silo
  {
    silo.Valid() && DistinctIdsOf(silo.grains) && IdsIndex(silo.grains)
  }

  /** The outer class `Beeman`: the silo and the step constants. */
  class Beeman {
    const silo: Silo
    const maxTime: real
    const dt: real
    const dts: real
    const mass: real

    constructor (dt: real, maxTime: real, silo: Silo, mass: real)
      ensures this.dt == dt && this.maxTime == maxTime && this.silo == silo && this.mass == mass
      ensures dts == dt * dt
    {
      this.maxTime := maxTime;
      this.dt := dt;
      dts := dt * dt;
      this.silo := silo;
      this.mass := mass;
    }

    /** `beemanEstimation`: a fresh iterator over this silo. */
    method BeemanEstimation() returns (it: BeemanIterator)
      requires Ready(silo) && mass != 0.0
      modifies silo`grid, silo.grains`contactForce, silo.grains`neighbors
      ensures fresh(it) && it.Valid() && it.engine == this && it.silo == silo && it.time == 0.0
    {
      it := new BeemanIterator(this);
    }
  }

  /** The inner class `BeemanIterator`. */
  class BeemanIterator {
    const engine: Beeman
    /** The silo of the outer `Beeman`. */
    const silo: Silo
    var time: real
    /** The damped velocity of each grain at the start of the step, by id. */
    const currentSpeed: array<Vec>
    /** The force matrix of the updated state of the last step. */
    var prevForceMatrix: seq<Vec>

    /** The silo is ready and the recorded speeds have one slot per grain. */
    ghost predicate Prepared()
      reads silo
    {
      silo == engine.silo && Ready(silo) && engine.mass != 0.0 && currentSpeed.Length == |silo.grains|
    }

    ghost predicate Valid()
      reads this, silo
    {
      Prepared() && |prevForceMatrix| == |silo.grains|
    }

    /** `BeemanIterator()`: time zero, the speeds zero, and the first force
        matrix of the silo as it is. */
    constructor (engine: Beeman)
      requires Ready(engine.silo) && engine.mass != 0.0
      modifies engine.silo`grid, engine.silo.grains`contactForce, engine.silo.grains`neighbors
      ensures Valid() && this.engine == engine && silo == engine.silo && time == 0.0
      ensures fresh(currentSpeed)
      ensures silo.IsForceMatrix(prevForceMatrix) && prevForceMatrix == silo.MatrixOf(Bodies(silo.grains))
      ensures forall k :: 0 <= k < currentSpeed.Length ==> currentSpeed[k] == Zero
    {
      var fm, zs := Start(engine.silo);
      currentSpeed := zs;
      this.engine := engine;
      silo := engine.silo;
      time := 0.0;
      prevForceMatrix := fm;
    }

    /** `next`: the floor moves and fallen grains are recycled, then every
        grain takes one Beeman step with the matrix of the updated state,
        the matrix of the last step and the matrix of the predicted state;
        the matrix of the updated state becomes the previous one. `draws`
        are the `nextDouble()` pairs `updateBase` draws, one per grain. */
    method Next(draws: seq<Draw>) returns (t: Time, ghost nextForces: seq<Vec>)
      requires Valid() && |draws| == |silo.grains|
      modifies this`time, this`prevForceMatrix, currentSpeed
      modifies silo`currentTime, silo`ys, silo`totalFlow, silo`grid
      modifies silo.leftBoundaryParticle`y, silo.rightBoundaryParticle`y
      modifies silo.grains`x, silo.grains`y, silo.grains`speedx, silo.grains`speedy
      modifies silo.grains`contactForce, silo.grains`neighbors
      ensures Valid() && time == old(time) + engine.dt
      ensures |nextForces| == |silo.grains|
      ensures silo.currentTime == old(silo.currentTime) + silo.dt
      ensures silo.totalFlow
           == old(silo.totalFlow) + CountFallen(old(Bodies(silo.grains)), silo.ys, silo.height)
      ensures Bodies(silo.grains)
           == StepAll(UpdatedAll(old(Bodies(silo.grains)), draws, silo.ys, silo.width, silo.height),
                      silo.grains, prevForceMatrix, old(prevForceMatrix), nextForces,
                      engine.dt, engine.dts, engine.mass)
      ensures prevForceMatrix
           == silo.MatrixOf(UpdatedAll(old(Bodies(silo.grains)), draws, silo.ys, silo.width, silo.height))
      ensures nextForces
           == silo.MatrixOf(PredictAll(UpdatedAll(old(Bodies(silo.grains)), draws, silo.ys, silo.width, silo.height),
                                       silo.grains, prevForceMatrix, old(prevForceMatrix),
                                       engine.dt, engine.dts, engine.mass))
      ensures t == Time(time, silo.grains, silo.totalFlow)
    {
      var prev, clock := prevForceMatrix, time;
      ghost var gs := silo.grains;
      ghost var start := Bodies(gs);
      var forceMatrix;
      forceMatrix, nextForces := Step(draws, prev, gs);
      ghost var updated := UpdatedAll(start, draws, silo.ys, silo.width, silo.height);
      assert Bodies(gs) == StepAll(updated, gs, forceMatrix, prev, nextForces, engine.dt, engine.dts, engine.mass);
      time, prevForceMatrix := clock + engine.dt, forceMatrix;
      t := Time(time, silo.grains, silo.totalFlow);
    }

    /** What `next` does to the silo: `updateBase`, the force matrix of the
        updated state, the predictor, the force matrix of the predicted
        state and the corrector, with `prev` the matrix of the last step and
        `gs` the grain list. */
    method Step(draws: seq<Draw>, prev: seq<Vec>, ghost gs: seq<Particle>)
      returns (forceMatrix: seq<Vec>, nextForceMatrix: seq<Vec>)
      requires Prepared() && gs == silo.grains && |draws| == |gs| && |prev| == |gs|
      modifies currentSpeed
      modifies silo`currentTime, silo`ys, silo`totalFlow, silo`grid
      modifies silo.leftBoundaryParticle`y, silo.rightBoundaryParticle`y
      modifies silo.grains`x, silo.grains`y, silo.grains`speedx, silo.grains`speedy
      modifies silo.grains`contactForce, silo.grains`neighbors
      ensures Prepared() && |forceMatrix| == |gs| && |nextForceMatrix| == |gs|
      ensures silo.currentTime == old(silo.currentTime) + silo.dt
      ensures silo.totalFlow
           == old(silo.totalFlow) + CountFallen(old(Bodies(gs)), silo.ys, silo.height)
      ensures Bodies(gs)
           == StepAll(UpdatedAll(old(Bodies(gs)), draws, silo.ys, silo.width, silo.height),
                      gs, forceMatrix, prev, nextForceMatrix, engine.dt, engine.dts, engine.mass)
      ensures forceMatrix == silo.MatrixOf(UpdatedAll(old(Bodies(gs)), draws, silo.ys, silo.width, silo.height))
      ensures nextForceMatrix
           == silo.MatrixOf(PredictAll(UpdatedAll(old(Bodies(gs)), draws, silo.ys, silo.width, silo.height),
                                       gs, forceMatrix, prev, engine.dt, engine.dts, engine.mass))
    {
      forceMatrix := UpdatedForces(draws, gs);
      ghost var updated := Bodies(gs);
      assert updated == UpdatedAll(old(Bodies(gs)), draws, silo.ys, silo.width, silo.height);
      assert silo.leftBoundaryParticle !in gs && silo.rightBoundaryParticle !in gs;
      nextForceMatrix := Advance(forceMatrix, prev, gs);
    }

    /** The first part of `next`: `updateBase`, then the force matrix of
        the updated state. */
    method UpdatedForces(draws: seq<Draw>, ghost gs: seq<Particle>) returns (forceMatrix: seq<Vec>)
      requires Prepared() && gs == silo.grains && |draws| == |gs|
      modifies silo`currentTime, silo`ys, silo`totalFlow, silo`grid
      modifies silo.leftBoundaryParticle`y, silo.rightBoundaryParticle`y
      modifies silo.grains`x, silo.grains`y, silo.grains`speedx, silo.grains`speedy
      modifies silo.grains`contactForce, silo.grains`neighbors
      ensures Prepared()
      ensures silo.currentTime == old(silo.currentTime) + silo.dt
      ensures silo.totalFlow
           == old(silo.totalFlow) + CountFallen(old(Bodies(gs)), silo.ys, silo.height)
      ensures Bodies(gs) == UpdatedAll(old(Bodies(gs)), draws, silo.ys, silo.width, silo.height)
      ensures silo.IsForceMatrix(forceMatrix) && forceMatrix == silo.MatrixOf(Bodies(gs))
    {
      ghost var start := Bodies(silo.grains);
      silo.UpdateBase(draws);
      ghost var updated := Bodies(silo.grains);
      assert updated == UpdatedAll(start, draws, silo.ys, silo.width, silo.height);
      forceMatrix := silo.ForceMatrix();
    }

    /** The rest of `next`: the predictor with `forceMatrix` and the
        previous matrix `prev`, the force matrix of the predicted state, and
        the corrector; `gs` is the grain list. */
    method Advance(forceMatrix: seq<Vec>, prev: seq<Vec>, ghost gs: seq<Particle>) returns (nextForceMatrix: seq<Vec>)
      requires Prepared() && gs == silo.grains
      requires |forceMatrix| == |silo.grains| && |prev| == |silo.grains|
      modifies currentSpeed, silo`grid
      modifies silo.grains`x, silo.grains`y, silo.grains`speedx, silo.grains`speedy
      modifies silo.grains`contactForce, silo.grains`neighbors
      ensures Prepared() && |nextForceMatrix| == |gs|
      ensures silo.ys == old(silo.ys) && silo.totalFlow == old(silo.totalFlow)
      ensures silo.currentTime == old(silo.currentTime)
      ensures Bodies(gs)
           == StepAll(old(Bodies(gs)), gs, forceMatrix, prev, nextForceMatrix, engine.dt, engine.dts, engine.mass)
      ensures nextForceMatrix == silo.MatrixOf(PredictAll(old(Bodies(gs)), gs, forceMatrix, prev,
                                                          engine.dt, engine.dts, engine.mass))
    {
      assert silo.leftBoundaryParticle !in gs && silo.rightBoundaryParticle !in gs;
      nextForceMatrix := PredictedForces(forceMatrix, prev, gs);
      ghost var S := currentSpeed[..];
      Correct(forceMatrix, nextForceMatrix, prev, gs, S);
      PredictThenCorrect(old(Bodies(gs)), gs, S, forceMatrix, prev, nextForceMatrix,
                         engine.dt, engine.dts, engine.mass);
    }

    /** The predictor of `next`, then the force matrix of the predicted
        state. */
    method PredictedForces(forceMatrix: seq<Vec>, prev: seq<Vec>, ghost gs: seq<Particle>)
      returns (nextForceMatrix: seq<Vec>)
      requires Prepared() && gs == silo.grains
      requires |forceMatrix| == |silo.grains| && |prev| == |silo.grains|
      modifies currentSpeed, silo`grid
      modifies silo.grains`x, silo.grains`y, silo.grains`speedx, silo.grains`speedy
      modifies silo.grains`contactForce, silo.grains`neighbors
      ensures Prepared()
      ensures silo.ys == old(silo.ys) && silo.totalFlow == old(silo.totalFlow)
      ensures silo.currentTime == old(silo.currentTime)
      ensures Bodies(gs) == PredictAll(old(Bodies(gs)), gs, forceMatrix, prev, engine.dt, engine.dts, engine.mass)
      ensures forall k :: 0 <= k < |gs| ==> currentSpeed[gs[k].id] == Scale(Damping, old(Bodies(gs))[k].Speed())
      ensures nextForceMatrix == silo.MatrixOf(Bodies(gs))
    {
      Predict(forceMatrix, prev, gs);
      nextForceMatrix := silo.ForceMatrix();
    }

    /** `hasNext`: whether the clock has not passed `maxTime`. */
    predicate HasNext()
      reads this
    {
      time <= engine.maxTime
    }

    /** The predictor loop of `next`: each grain records its damped velocity
        and moves to the predicted position and velocity, with the matrices
        `forceMatrix` and `prev`; `gs` is the grain list. */
    method Predict(forceMatrix: seq<Vec>, prev: seq<Vec>, ghost gs: seq<Particle>)
      requires Prepared() && gs == silo.grains
      requires |forceMatrix| == |silo.grains| && |prev| == |silo.grains|
      modifies currentSpeed
      modifies silo.grains`x, silo.grains`y, silo.grains`speedx, silo.grains`speedy
      ensures silo.ys == old(silo.ys) && silo.totalFlow == old(silo.totalFlow)
      ensures silo.currentTime == old(silo.currentTime)
      ensures Bodies(gs)
           == PredictAll(old(Bodies(gs)), gs, forceMatrix, prev, engine.dt, engine.dts, engine.mass)
      ensures forall k :: 0 <= k < |gs| ==> currentSpeed[gs[k].id] == Scale(Damping, old(Bodies(gs))[k].Speed())
    {
      var grains := silo.grains;
      ghost var bs := Bodies(grains);
      var k := 0;
      while k < |grains|
        invariant 0 <= k <= |grains|
        invariant forall j :: 0 <= j < k ==>
          grains[j].AsBody() == Predicted(bs[j], grains[j].kind, forceMatrix[grains[j].id], prev[grains[j].id],
                                          engine.dt, engine.dts, engine.mass)
          && currentSpeed[grains[j].id] == Scale(Damping, bs[j].Speed())
        invariant forall j :: k <= j < |grains| ==> grains[j].AsBody() == bs[j]
      {
        var p := grains[k];
        forall j | 0 <= j < |grains| && j != k
          ensures grains[j] != p && grains[j].id != p.id
        {
          if j < k {
            DistinctIdAt(grains, j, k);
          } else {
            DistinctIdAt(grains, k, j);
          }
        }
        var forceArray := forceMatrix[p.id];
        var posArray := p.GetPos();
        var speedArray := p.GetSpeed();
        currentSpeed[p.id] := Scale(Damping, speedArray);
        var prevForce := prev[p.id];
        var newPos := PredictPos(posArray, speedArray, forceArray, prevForce, engine.dt, engine.dts, engine.mass);
        var newSpeed := PredictSpeed(speedArray, forceArray, prevForce, engine.dt, engine.mass);
        p.UpdatePos(newPos);
        p.UpdateSpeed(newSpeed);
        k := k + 1;
      }
      ghost var now := Bodies(grains);
      assert now == PredictAll(bs, grains, forceMatrix, prev, engine.dt, engine.dts, engine.mass);
    }

    /** The corrector loop of `next`: each grain's velocity becomes the
        corrected one, starting from its recorded damped velocity, with the
        matrices `nextForceMatrix`, `forceMatrix` and `prev`; `gs` is the
        grain list and `S` the recorded velocities. */
    method Correct(forceMatrix: seq<Vec>, nextForceMatrix: seq<Vec>, prev: seq<Vec>, ghost gs: seq<Particle>,
                   ghost S: seq<Vec>)
      requires Prepared() && gs == silo.grains && S == currentSpeed[..]
      requires |forceMatrix| == |silo.grains| && |nextForceMatrix| == |silo.grains|
      requires |prev| == |silo.grains|
      modifies silo.grains`speedx, silo.grains`speedy
      ensures silo.ys == old(silo.ys) && silo.totalFlow == old(silo.totalFlow)
      ensures silo.currentTime == old(silo.currentTime)
      ensures Bodies(gs)
           == CorrectAll(old(Bodies(gs)), gs, S, nextForceMatrix, forceMatrix, prev, engine.dt, engine.mass)
    {
      var grains := silo.grains;
      ghost var bs := Bodies(grains);
      var k := 0;
      while k < |grains|
        invariant 0 <= k <= |grains|
        invariant forall j :: 0 <= j < k ==>
          grains[j].AsBody() == WithSpeed(bs[j], grains[j].kind,
                                          CorrectSpeed(S[grains[j].id], nextForceMatrix[grains[j].id],
                                                       forceMatrix[grains[j].id], prev[grains[j].id],
                                                       engine.dt, engine.mass))
        invariant forall j :: k <= j < |grains| ==> grains[j].AsBody() == bs[j]
      {
        var p := grains[k];
        forall j | 0 <= j < |grains| && j != k
          ensures grains[j] != p
        {
          if j < k {
            DistinctIdAt(grains, j, k);
          } else {
            DistinctIdAt(grains, k, j);
          }
        }
        var newSpeed := CorrectSpeed(currentSpeed[p.id], nextForceMatrix[p.id], forceMatrix[p.id],
                                     prev[p.id], engine.dt, engine.mass);
        p.UpdateSpeed(newSpeed);
        k := k + 1;
      }
      ghost var now := Bodies(grains);
      assert now == CorrectAll(bs, grains, S, nextForceMatrix, forceMatrix, prev, engine.dt, engine.mass);
    }
  }
}
