/**
 * The earlier integrator of engine/Beeman.java. Its predictor is the one of
 * the later revision, but it records no velocity before the predictor.
 * Instead the constructor takes one Euler step back from the initial state
 * (`prevSpeed`), and every corrector starts from those back-stepped
 * velocities. Nothing updates them after the constructor. A step hands
 * back the time and the grains, without a flow count.
 */
module BeemanEarly {
  import opened Vectors
  import opened Particles
  import opened SiloEngine
  import BI = BeemanIntegrator

  /** The velocity one Euler step before `speed` under `force`:
      `speed - dt F / m` per component. */
  function BackStep(speed: Vec, force: Vec, dt: real, mass: real): (r: Vec)
    requires mass != 0.0
    ensures r.x + dt * force.x / mass == speed.x && r.y + dt * force.y / mass == speed.y
  {
    Vec(speed.x - dt * force.x / mass, speed.y - dt * force.y / mass)
  }

  /** One whole step of a grain that starts it as `b`, whose corrector
      starts from the velocity `start`. */
  function StepFrom(b: Body, kind: Kind, start: Vec, force: Vec, prevForce: Vec, nextForce: Vec,
                    dt: real, dts: real, mass: real): Body
    requires mass != 0.0
  {
    BI.WithSpeed(BI.Predicted(b, kind, force, prevForce, dt, dts, mass), kind,
                 BI.CorrectSpeed(start, nextForce, force, prevForce, dt, mass))
  }

  /** The velocity after `StepFrom` is the corrected one, for a grain. */
  lemma StepFromSpeed(b: Body, start: Vec, force: Vec, prevForce: Vec, nextForce: Vec,
                      dt: real, dts: real, mass: real)
    requires mass != 0.0
    ensures StepFrom(b, GrainKind, start, force, prevForce, nextForce, dt, dts, mass).Speed()
         == BI.CorrectSpeed(start, nextForce, force, prevForce, dt, mass)
  {
  }

  /** The corrector under a force that stays `f`, per component. */
  lemma ConstantForceCorrectSpeed(v: Vec, f: Vec, dt: real, mass: real)
    requires mass != 0.0
    ensures BI.CorrectSpeed(v, f, f, f, dt, mass) == Vec(v.x + dt * f.x / mass, v.y + dt * f.y / mass)
  {
    BI.ConstantForceCorrectedSpeed(v.x, f.x, dt, mass);
    BI.ConstantForceCorrectedSpeed(v.y, f.y, dt, mass);
  }

  /** Every grain after one step of this integrator: the corrector of grain
      `gs[k]` starts from the row of `S` at its id. */
  function EarlyStepAll(bs: seq<Body>, gs: seq<Particle>, S: seq<Vec>, F: seq<Vec>, P: seq<Vec>, Nx: seq<Vec>,
                        dt: real, dts: real, mass: real): seq<Body>
    requires mass != 0.0 && |bs| == |gs| == |S| == |F| == |P| == |Nx| && IdsIndex(gs)
  {
    seq(|bs|, k requires 0 <= k < |bs| =>
      StepFrom(bs[k], gs[k].kind, S[gs[k].id], F[gs[k].id], P[gs[k].id], Nx[gs[k].id], dt, dts, mass))
  }

  /** The predictor followed by a corrector from the velocities `S` is one
      `StepFrom` per grain. */
  lemma PredictThenCorrectFrom(bs: seq<Body>, gs: seq<Particle>, S: seq<Vec>, F: seq<Vec>, P: seq<Vec>,
                               Nx: seq<Vec>, dt: real, dts: real, mass: real)
    requires mass != 0.0 && |bs| == |gs| == |S| == |F| == |P| == |Nx| && IdsIndex(gs)
    ensures BI.CorrectAll(BI.PredictAll(bs, gs, F, P, dt, dts, mass), gs, S, Nx, F, P, dt, mass)
         == EarlyStepAll(bs, gs, S, F, P, Nx, dt, dts, mass)
  {
    var lhs := BI.CorrectAll(BI.PredictAll(bs, gs, F, P, dt, dts, mass), gs, S, Nx, F, P, dt, mass);
    var rhs := EarlyStepAll(bs, gs, S, F, P, Nx, dt, dts, mass);
    forall k | 0 <= k < |bs|
      ensures lhs[k] == rhs[k]
    {
    }
  }

  /** As written: under a force `f` that stays the same from the first
      matrix on, the corrector from the back-stepped velocity lands on the
      initial velocity `v0` again. With `StepFromSpeed`, whatever velocity
      the grain has at the start of a step, it ends the step with `v0`: a
      grain never speeds up under a constant force. */
  lemma EarlyConstantForceKeepsInitialSpeed(v0: Vec, f: Vec, dt: real, mass: real)
    requires mass != 0.0
    ensures BI.CorrectSpeed(BackStep(v0, f, dt, mass), f, f, f, dt, mass) == v0
  {
    ConstantForceCorrectSpeed(BackStep(v0, f, dt, mass), f, dt, mass);
  }

  /** As written, over the whole silo: when every grain's rows of the
      three matrices are its row of `C` and its corrector starts from the
      back-step of `V` under `C`, as the constructor leaves it, every grain
      ends the step with its velocity of `V`. */
  lemma EarlyStepPinsSpeeds(bs: seq<Body>, gs: seq<Particle>, S: seq<Vec>, C: seq<Vec>, V: seq<Vec>,
                            dt: real, dts: real, mass: real)
    requires mass != 0.0 && |bs| == |gs| == |S| == |C| == |V| && IdsIndex(gs)
    requires forall k :: 0 <= k < |gs| ==> S[gs[k].id] == BackStep(V[gs[k].id], C[gs[k].id], dt, mass)
    ensures forall k :: 0 <= k < |gs| && gs[k].kind == GrainKind ==>
      EarlyStepAll(bs, gs, S, C, C, C, dt, dts, mass)[k].Speed() == V[gs[k].id]
  {
    forall k | 0 <= k < |gs| && gs[k].kind == GrainKind
      ensures EarlyStepAll(bs, gs, S, C, C, C, dt, dts, mass)[k].Speed() == V[gs[k].id]
    {
      var i := gs[k].id;
      StepFromSpeed(bs[k], S[i], C[i], C[i], C[i], dt, dts, mass);
      EarlyConstantForceKeepsInitialSpeed(V[i], C[i], dt, mass);
    }
  }

  /** The discrepancy on one input: a grain at rest under a constant
      downward force keeps velocity zero after the step as written, where
      the corrector from the start velocity gives it the velocity `dt f`. */
  lemma EarlyRestingGrainStaysAtRest(b: Body, dt: real, dts: real)
    requires b.vx == 0.0 && b.vy == 0.0 && dt > 0.0 && dts == dt * dt
    ensures StepFrom(b, GrainKind, BackStep(Zero, Vec(0.0, -9.8), dt, 1.0),
                     Vec(0.0, -9.8), Vec(0.0, -9.8), Vec(0.0, -9.8), dt, dts, 1.0).vy == 0.0
    ensures StepFromStart(b, GrainKind, Vec(0.0, -9.8), Vec(0.0, -9.8), Vec(0.0, -9.8), dt, dts, 1.0).vy
         == -9.8 * dt < 0.0
  {
    StepFromSpeed(b, BackStep(Zero, Vec(0.0, -9.8), dt, 1.0), Vec(0.0, -9.8), Vec(0.0, -9.8), Vec(0.0, -9.8),
                  dt, dts, 1.0);
    EarlyConstantForceKeepsInitialSpeed(Zero, Vec(0.0, -9.8), dt, 1.0);
    StepFromStartIsUniformAcceleration(b, Vec(0.0, -9.8), dt, dts, 1.0);
  }

  /** Corrected: the corrector starts from the velocity the grain has at
      the start of the step, and under a constant force the step is
      uniformly accelerated motion. */
  function StepFromStart(b: Body, kind: Kind, force: Vec, prevForce: Vec, nextForce: Vec,
                         dt: real, dts: real, mass: real): Body
    requires mass != 0.0
  {
    StepFrom(b, kind, b.Speed(), force, prevForce, nextForce, dt, dts, mass)
  }

  lemma StepFromStartIsUniformAcceleration(b: Body, f: Vec, dt: real, dts: real, mass: real)
    requires mass != 0.0
    ensures StepFromStart(b, GrainKind, f, f, f, dt, dts, mass).Speed()
         == Vec(b.vx + dt * f.x / mass, b.vy + dt * f.y / mass)
  {
    StepFromSpeed(b, b.Speed(), f, f, f, dt, dts, mass);
    ConstantForceCorrectSpeed(b.Speed(), f, dt, mass);
  }

  /** The initial loop of the constructor: for each grain of `gs`, the
      velocity one Euler step back under its row of `fm`, at its id. */
  method BackSteps(gs: seq<Particle>, fm: seq<Vec>, dt: real, mass: real) returns (ps: array<Vec>)
    requires mass != 0.0 && DistinctIdsOf(gs) && IdsIndex(gs) && |fm| == |gs|
    ensures fresh(ps) && ps.Length == |gs|
    ensures forall k :: 0 <= k < |gs| ==> ps[gs[k].id] == BackStep(gs[k].GetSpeed(), fm[gs[k].id], dt, mass)
  {
    ps := new Vec[|gs|](_ => Zero);
    var k := 0;
    while k < |gs|
      invariant 0 <= k <= |gs|
      invariant forall j :: 0 <= j < k ==> ps[gs[j].id] == BackStep(gs[j].GetSpeed(), fm[gs[j].id], dt, mass)
    {
      var p := gs[k];
      forall j | 0 <= j < k
        ensures gs[j].id != p.id
      {
        DistinctIdAt(gs, j, k);
      }
      var speedArray := p.GetSpeed();
      ps[p.id] := BackStep(speedArray, fm[p.id], dt, mass);
      k := k + 1;
    }
  }

  /** What a step of this revision hands back: the new time and the grains. */
  datatype Time = Time(time: real, grains: seq<Particle>)

  /** What the constructor of the iterator computes: the first force
      matrix of the silo as it is, and the velocities stepped back under it. */
  /** `fm` is the force matrix of the silo as it is, and `ps` holds for
      each grain the velocity one Euler step back under its row of `fm`. */
  ghost predicate Started(silo: Silo, fm: seq<Vec>, ps: array<Vec>, dt: real, mass: real)
    reads silo, silo.grains, silo.leftBoundaryParticle, silo.rightBoundaryParticle, ps
  {
    BI.Ready(silo) && mass != 0.0 && ps.Length == |silo.grains|
    && silo.IsForceMatrix(fm) && fm == silo.MatrixOf(Bodies(silo.grains))
    && forall k :: 0 <= k < |silo.grains| ==>
      ps[silo.grains[k].id] == BackStep(silo.grains[k].GetSpeed(), fm[silo.grains[k].id], dt, mass)
  }

  method Start(silo: Silo, dt: real, mass: real) returns (fm: seq<Vec>, ps: array<Vec>)
    requires BI.Ready(silo) && mass != 0.0
    modifies silo`grid, silo.grains`contactForce, silo.grains`neighbors
    ensures fresh(ps) && Started(silo, fm, ps, dt, mass)
  {
    fm := silo.ForceMatrix();
    ps := BackSteps(silo.grains, fm, dt, mass);
  }

  /** The outer class `Beeman` of this revision. */
  class Beeman {
    const silo: Silo
    const maxTime: real
    const dt: real
    const dts: real
    const mass: real

    constructor (dt: real, maxTime: real, silo: Silo, mass: real)
      ensures this.dt == dt && this.maxTime == maxTime && this.silo == silo && this.mass == mass
      ensures dts == dt * dt
    {
      this.maxTime := maxTime;
      this.dt := dt;
      dts := dt * dt;
      this.silo := silo;
      this.mass := mass;
    }

    /** `beemanEstimation`: a fresh iterator over this silo. */
    method BeemanEstimation() returns (it: BeemanIterator)
      requires BI.Ready(silo) && mass != 0.0
      modifies silo`grid, silo.grains`contactForce, silo.grains`neighbors
      ensures fresh(it) && it.Valid() && it.engine == this && it.silo == silo && it.time == 0.0
    {
      it := new BeemanIterator(this);
    }
  }

  /** The inner class `BeemanIterator` of this revision. */
  class BeemanIterator {
    const engine: Beeman
    /** The silo of the outer `Beeman`. */
    const silo: Silo
    var time: real
    /** The velocity of each grain one Euler step before the start, by id. */
    const prevSpeed: array<Vec>
    /** The force matrix of the updated state of the last step. */
    var prevForceMatrix: seq<Vec>

    /** The silo is ready and the back-stepped speeds have one slot per grain. */
    ghost predicate Prepared()
      reads silo
    {
      silo == engine.silo && BI.Ready(silo) && engine.mass != 0.0 && prevSpeed.Length == |silo.grains|
    }

    ghost predicate Valid()
      reads this, silo
    {
      Prepared() && |prevForceMatrix| == |silo.grains|
    }

    /** `BeemanIterator()`: time zero, the first force matrix of the silo
        as it is, and for each grain the velocity one Euler step back under
        its row of that matrix. */
    constructor (engine: Beeman)
      requires BI.Ready(engine.silo) && engine.mass != 0.0
      modifies engine.silo`grid, engine.silo.grains`contactForce, engine.silo.grains`neighbors
      ensures Valid() && this.engine == engine && silo == engine.silo && time == 0.0
      ensures fresh(prevSpeed) && Started(silo, prevForceMatrix, prevSpeed, engine.dt, engine.mass)
    {
      var fm, ps := Start(engine.silo, engine.dt, engine.mass);
      this.engine := engine;
      silo := engine.silo;
      time := 0.0;
      prevSpeed := ps;
      prevForceMatrix := fm;
    }

    /** `hasNext`: whether the clock has not passed `maxTime`. */
    predicate HasNext()
      reads this
    {
      time <= engine.maxTime
    }

    /** `next`: the floor moves and fallen grains are recycled, then every
        grain is predicted with the matrix of the updated state and the
        matrix of the last step, and its velocity is corrected from its
        back-stepped velocity with those and the matrix of the predicted
        state; the matrix of the updated state becomes the previous one.
        `draws` are the `nextDouble()` pairs `updateBase` draws, one per grain. */
    method Next(draws: seq<Draw>) returns (t: Time, ghost nextForces: seq<Vec>)
      requires Valid() && |draws| == |silo.grains|
      modifies this`time, this`prevForceMatrix
      modifies silo`currentTime, silo`ys, silo`totalFlow, silo`grid
      modifies silo.leftBoundaryParticle`y, silo.rightBoundaryParticle`y
      modifies silo.grains`x, silo.grains`y, silo.grains`speedx, silo.grains`speedy
      modifies silo.grains`contactForce, silo.grains`neighbors
      ensures Valid() && time == old(time) + engine.dt
      ensures |nextForces| == |silo.grains|
      ensures silo.currentTime == old(silo.currentTime) + silo.dt
      ensures silo.totalFlow
           == old(silo.totalFlow) + CountFallen(old(Bodies(silo.grains)), silo.ys, silo.height)
      ensures Bodies(silo.grains)
           == EarlyStepAll(UpdatedAll(old(Bodies(silo.grains)), draws, silo.ys, silo.width, silo.height),
                           silo.grains, prevSpeed[..], prevForceMatrix, old(prevForceMatrix), nextForces,
                           engine.dt, engine.dts, engine.mass)
      ensures prevForceMatrix
           == silo.MatrixOf(UpdatedAll(old(Bodies(silo.grains)), draws, silo.ys, silo.width, silo.height))
      ensures nextForces
           == silo.MatrixOf(BI.PredictAll(UpdatedAll(old(Bodies(silo.grains)), draws, silo.ys, silo.width, silo.height),
                                          silo.grains, prevForceMatrix, old(prevForceMatrix),
                                          engine.dt, engine.dts, engine.mass))
      ensures t == Time(time, silo.grains)
    {
      var prev, clock := prevForceMatrix, time;
      ghost var gs := silo.grains;
      var forceMatrix;
      forceMatrix, nextForces := Step(draws, prev, gs);
      time, prevForceMatrix := clock + engine.dt, forceMatrix;
      t := Time(time, silo.grains);
    }

    /** What `next` does to the silo, with `prev` the matrix of the last
        step and `gs` the grain list. */
    method Step(draws: seq<Draw>, prev: seq<Vec>, ghost gs: seq<Particle>)
      returns (forceMatrix: seq<Vec>, nextForceMatrix: seq<Vec>)
      requires Prepared() && gs == silo.grains && |draws| == |gs| && |prev| == |gs|
      modifies silo`currentTime, silo`ys, silo`totalFlow, silo`grid
      modifies silo.leftBoundaryParticle`y, silo.rightBoundaryParticle`y
      modifies silo.grains`x, silo.grains`y, silo.grains`speedx, silo.grains`speedy
      modifies silo.grains`contactForce, silo.grains`neighbors
      ensures Prepared() && |forceMatrix| == |gs| && |nextForceMatrix| == |gs|
      ensures silo.currentTime == old(silo.currentTime) + silo.dt
      ensures silo.totalFlow
           == old(silo.totalFlow) + CountFallen(old(Bodies(gs)), silo.ys, silo.height)
      ensures Bodies(gs)
           == EarlyStepAll(UpdatedAll(old(Bodies(gs)), draws, silo.ys, silo.width, silo.height),
                           gs, prevSpeed[..], forceMatrix, prev, nextForceMatrix,
                           engine.dt, engine.dts, engine.mass)
      ensures forceMatrix == silo.MatrixOf(UpdatedAll(old(Bodies(gs)), draws, silo.ys, silo.width, silo.height))
      ensures nextForceMatrix
           == silo.MatrixOf(BI.PredictAll(UpdatedAll(old(Bodies(gs)), draws, silo.ys, silo.width, silo.height),
                                          gs, forceMatrix, prev, engine.dt, engine.dts, engine.mass))
    {
      forceMatrix := UpdatedForces(draws, gs);
      ghost var updated := Bodies(gs);
      assert updated == UpdatedAll(old(Bodies(gs)), draws, silo.ys, silo.width, silo.height);
      assert silo.leftBoundaryParticle !in gs && silo.rightBoundaryParticle !in gs;
      nextForceMatrix := Advance(forceMatrix, prev, gs);
    }

    /** The first part of `next`: `updateBase`, then the force matrix of
        the updated state. */
    method UpdatedForces(draws: seq<Draw>, ghost gs: seq<Particle>) returns (forceMatrix: seq<Vec>)
      requires Prepared() && gs == silo.grains && |draws| == |gs|
      modifies silo`currentTime, silo`ys, silo`totalFlow, silo`grid
      modifies silo.leftBoundaryParticle`y, silo.rightBoundaryParticle`y
      modifies silo.grains`x, silo.grains`y, silo.grains`speedx, silo.grains`speedy
      modifies silo.grains`contactForce, silo.grains`neighbors
      ensures Prepared()
      ensures silo.currentTime == old(silo.currentTime) + silo.dt
      ensures silo.totalFlow
           == old(silo.totalFlow) + CountFallen(old(Bodies(gs)), silo.ys, silo.height)
      ensures Bodies(gs) == UpdatedAll(old(Bodies(gs)), draws, silo.ys, silo.width, silo.height)
      ensures silo.IsForceMatrix(forceMatrix) && forceMatrix == silo.MatrixOf(Bodies(gs))
    {
      ghost var start := Bodies(silo.grains);
      silo.UpdateBase(draws);
      ghost var updated := Bodies(silo.grains);
      assert updated == UpdatedAll(start, draws, silo.ys, silo.width, silo.height);
      forceMatrix := silo.ForceMatrix();
    }

    /** The rest of `next`: the predictor with `forceMatrix` and `prev`,
        the force matrix of the predicted state, and the corrector from the
        back-stepped velocities. */
    method Advance(forceMatrix: seq<Vec>, prev: seq<Vec>, ghost gs: seq<Particle>) returns (nextForceMatrix: seq<Vec>)
      requires Prepared() && gs == silo.grains
      requires |forceMatrix| == |silo.grains| && |prev| == |silo.grains|
      modifies silo`grid
      modifies silo.grains`x, silo.grains`y, silo.grains`speedx, silo.grains`speedy
      modifies silo.grains`contactForce, silo.grains`neighbors
      ensures Prepared() && |nextForceMatrix| == |gs|
      ensures silo.ys == old(silo.ys) && silo.totalFlow == old(silo.totalFlow)
      ensures silo.currentTime == old(silo.currentTime)
      ensures Bodies(gs)
           == EarlyStepAll(old(Bodies(gs)), gs, prevSpeed[..], forceMatrix, prev, nextForceMatrix,
                           engine.dt, engine.dts, engine.mass)
      ensures nextForceMatrix == silo.MatrixOf(BI.PredictAll(old(Bodies(gs)), gs, forceMatrix, prev,
                                                             engine.dt, engine.dts, engine.mass))
    {
      assert silo.leftBoundaryParticle !in gs && silo.rightBoundaryParticle !in gs;
      nextForceMatrix := PredictedForces(forceMatrix, prev, gs);
      Correct(forceMatrix, nextForceMatrix, prev, gs);
      PredictThenCorrectFrom(old(Bodies(gs)), gs, prevSpeed[..], forceMatrix, prev, nextForceMatrix,
                             engine.dt, engine.dts, engine.mass);
    }

    /** The predictor of `next`, then the force matrix of the predicted
        state. */
    method PredictedForces(forceMatrix: seq<Vec>, prev: seq<Vec>, ghost gs: seq<Particle>)
      returns (nextForceMatrix: seq<Vec>)
      requires Prepared() && gs == silo.grains
      requires |forceMatrix| == |silo.grains| && |prev| == |silo.grains|
      modifies silo`grid
      modifies silo.grains`x, silo.grains`y, silo.grains`speedx, silo.grains`speedy
      modifies silo.grains`contactForce, silo.grains`neighbors
      ensures Prepared()
      ensures silo.ys == old(silo.ys) && silo.totalFlow == old(silo.totalFlow)
      ensures silo.currentTime == old(silo.currentTime)
      ensures Bodies(gs) == BI.PredictAll(old(Bodies(gs)), gs, forceMatrix, prev, engine.dt, engine.dts, engine.mass)
      ensures nextForceMatrix == silo.MatrixOf(Bodies(gs))
    {
      Predict(forceMatrix, prev, gs);
      nextForceMatrix := silo.ForceMatrix();
    }

    /** The predictor loop of `next`: each grain moves to the predicted
        position and velocity, with the matrices `forceMatrix` and `prev`. */
    method Predict(forceMatrix: seq<Vec>, prev: seq<Vec>, ghost gs: seq<Particle>)
      requires Prepared() && gs == silo.grains
      requires |forceMatrix| == |silo.grains| && |prev| == |silo.grains|
      modifies silo.grains`x, silo.grains`y, silo.grains`speedx, silo.grains`speedy
      ensures silo.ys == old(silo.ys) && silo.totalFlow == old(silo.totalFlow)
      ensures silo.currentTime == old(silo.currentTime)
      ensures Bodies(gs)
           == BI.PredictAll(old(Bodies(gs)), gs, forceMatrix, prev, engine.dt, engine.dts, engine.mass)
    {
      var grains := silo.grains;
      ghost var bs := Bodies(grains);
      var k := 0;
      while k < |grains|
        invariant 0 <= k <= |grains|
        invariant forall j :: 0 <= j < k ==>
          grains[j].AsBody() == BI.Predicted(bs[j], grains[j].kind, forceMatrix[grains[j].id], prev[grains[j].id],
                                             engine.dt, engine.dts, engine.mass)
        invariant forall j :: k <= j < |grains| ==> grains[j].AsBody() == bs[j]
      {
        var p := grains[k];
        forall j | 0 <= j < |grains| && j != k
          ensures grains[j] != p
        {
          if j < k {
            DistinctIdAt(grains, j, k);
          } else {
            DistinctIdAt(grains, k, j);
          }
        }
        var forceArray := forceMatrix[p.id];
        var posArray := p.GetPos();
        var speedArray := p.GetSpeed();
        var prevForce := prev[p.id];
        var newPos := BI.PredictPos(posArray, speedArray, forceArray, prevForce, engine.dt, engine.dts, engine.mass);
        var newSpeed := BI.PredictSpeed(speedArray, forceArray, prevForce, engine.dt, engine.mass);
        p.UpdatePos(newPos);
        p.UpdateSpeed(newSpeed);
        k := k + 1;
      }
      ghost var now := Bodies(grains);
      assert now == BI.PredictAll(bs, grains, forceMatrix, prev, engine.dt, engine.dts, engine.mass);
    }

    /** The corrector loop of `next`: each grain's velocity becomes the
        corrected one, starting from its back-stepped velocity, with the
        matrices `nextForceMatrix`, `forceMatrix` and `prev`. */
    method Correct(forceMatrix: seq<Vec>, nextForceMatrix: seq<Vec>, prev: seq<Vec>, ghost gs: seq<Particle>)
      requires Prepared() && gs == silo.grains
      requires |forceMatrix| == |silo.grains| && |nextForceMatrix| == |silo.grains|
      requires |prev| == |silo.grains|
      modifies silo.grains`speedx, silo.grains`speedy
      ensures silo.ys == old(silo.ys) && silo.totalFlow == old(silo.totalFlow)
      ensures silo.currentTime == old(silo.currentTime)
      ensures Bodies(gs)
           == BI.CorrectAll(old(Bodies(gs)), gs, prevSpeed[..], nextForceMatrix, forceMatrix, prev,
                            engine.dt, engine.mass)
    {
      var grains := silo.grains;
      ghost var bs, S := Bodies(grains), prevSpeed[..];
      var k := 0;
      while k < |grains|
        invariant 0 <= k <= |grains|
        invariant forall j :: 0 <= j < k ==>
          grains[j].AsBody() == BI.WithSpeed(bs[j], grains[j].kind,
                                             BI.CorrectSpeed(S[grains[j].id], nextForceMatrix[grains[j].id],
                                                             forceMatrix[grains[j].id], prev[grains[j].id],
                                                             engine.dt, engine.mass))
        invariant forall j :: k <= j < |grains| ==> grains[j].AsBody() == bs[j]
      {
        var p := grains[k];
        forall j | 0 <= j < |grains| && j != k
          ensures grains[j] != p
        {
          if j < k {
            DistinctIdAt(grains, j, k);
          } else {
            DistinctIdAt(grains, k, j);
          }
        }
        var newSpeed := BI.CorrectSpeed(prevSpeed[p.id], nextForceMatrix[p.id], forceMatrix[p.id],
                                        prev[p.id], engine.dt, engine.mass);
        p.UpdateSpeed(newSpeed);
        k := k + 1;
      }
      ghost var now := Bodies(grains);
      assert now == BI.CorrectAll(bs, grains, S, nextForceMatrix, forceMatrix, prev, engine.dt, engine.mass);
    }
  }
}
