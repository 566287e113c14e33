/**
 * The contact law of the silo: a linear spring-dashpot normal force with
 * Coulomb-capped kinetic friction (`getFnet`), its use between two disks
 * (`getParticleInteractionForce`) and against a wall, and the sums over
 * particle pairs that the cell-index pass accumulates.
 *
 * `Math.sqrt` is the parameter `sqrt`; nothing about it is assumed.
 */
module Contact {
  import opened Vectors
  import opened WallVersor
  import opened Particles

  /** Damping coefficient `gamma` of the silo. */
  const Gamma: real := 0.1
  /** Friction coefficient `mu` of the silo. */
  const Mu: real := 0.5

  /** `Math.signum` on exact reals. */
  function Signum(v: real): (s: real)
    ensures s == -1.0 || s == 0.0 || s == 1.0
    ensures (s > 0.0 <==> v > 0.0) && (s < 0.0 <==> v < 0.0)
  {
    if v > 0.0 then 1.0 else if v < 0.0 then -1.0 else 0.0
  }

  /** `getFnet(xi, dv, en, et)`: normal spring-dashpot force plus friction
      of magnitude `mu * |fn|` against the sign of the tangential speed. */
  function Fnet(kn: real, xi: real, dv: Vec, en: Vec, et: Vec, sqrt: real -> real): Vec {
    var fn := Scale(NormalCoeff(kn, xi, dv, en), en);
    var ft := Scale(FrictionCoeff(fn, dv, et, sqrt), et);
    Add(fn, ft)
  }

  /** `fnCoeff = -kn * xi - (dv . en) * gamma`. */
  function NormalCoeff(kn: real, xi: real, dv: Vec, en: Vec): real {
    -kn * xi - Dot(dv, en) * Gamma
  }

  /** `ftCoeff = -mu * |fn| * signum(et . dv)`. */
  function FrictionCoeff(fn: Vec, dv: Vec, et: Vec, sqrt: real -> real): real {
    -Mu * sqrt(fn.x * fn.x + fn.y * fn.y) * Signum(Dot(et, dv))
  }

  lemma DotFlip(a: Vec, b: Vec)
    ensures Dot(Neg(a), Neg(b)) == Dot(a, b)
  {
    assert (-a.x) * (-b.x) == a.x * b.x;
    assert (-a.y) * (-b.y) == a.y * b.y;
  }

  lemma ScaleFlip(k: real, a: Vec)
    ensures Scale(k, Neg(a)) == Neg(Scale(k, a))
  {
    assert k * -a.x == -(k * a.x);
    assert k * -a.y == -(k * a.y);
  }

  lemma FrictionCoeffFlip(fn: Vec, dv: Vec, et: Vec, sqrt: real -> real)
    ensures FrictionCoeff(Neg(fn), Neg(dv), Neg(et), sqrt) == FrictionCoeff(fn, dv, et, sqrt)
  {
    DotFlip(fn, fn);
    DotFlip(et, dv);
    assert Neg(fn).x * Neg(fn).x + Neg(fn).y * Neg(fn).y == Dot(Neg(fn), Neg(fn));
    assert fn.x * fn.x + fn.y * fn.y == Dot(fn, fn);
  }

  /** Flipping the relative speed, the normal and the tangent together flips
      the force: the two dot products and `|fn|` are unchanged. */
  lemma FnetFlip(kn: real, xi: real, dv: Vec, en: Vec, et: Vec, sqrt: real -> real)
    ensures Fnet(kn, xi, Neg(dv), Neg(en), Neg(et), sqrt) == Neg(Fnet(kn, xi, dv, en, et, sqrt))
  {
    DotFlip(dv, en);
    var c := NormalCoeff(kn, xi, dv, en);
    assert NormalCoeff(kn, xi, Neg(dv), Neg(en)) == c;
    var fn := Scale(c, en);
    ScaleFlip(c, en);
    FrictionCoeffFlip(fn, dv, et, sqrt);
    var t := FrictionCoeff(fn, dv, et, sqrt);
    ScaleFlip(t, et);
  }

  /** A body at rest against a wall: no friction, only `-kn * xi` along the
      normal. */
  lemma FnetAtRest(kn: real, xi: real, en: Vec, et: Vec, sqrt: real -> real)
    ensures Fnet(kn, xi, Zero, en, et, sqrt) == Scale(-kn * xi, en)
  {
    assert Dot(Zero, en) == 0.0 && Dot(et, Zero) == 0.0;
    assert NormalCoeff(kn, xi, Zero, en) == -kn * xi;
    assert FrictionCoeff(Scale(-kn * xi, en), Zero, et, sqrt) == 0.0;
  }

  /** `getParticleInteractionForce(p, q)`: the force on `p` from `q`. Zero
      unless the disks overlap (`xi = r1 + r2 - dr > 0`). */
  function InteractionForce(p: Body, q: Body, kn: real, sqrt: real -> real): Vec {
    var d := Sub(q.Pos(), p.Pos());
    var dr := sqrt(Dot(d, d));
    var xi := p.r + q.r - dr;
    if xi > 0.0 && dr != 0.0 then
      var en := Unit(d, dr);
      Fnet(kn, xi, Sub(q.Speed(), p.Speed()), en, Perp(en), sqrt)
    else
      Zero
  }

  /** `en = (dx / dr, dy / dr)`. */
  function Unit(d: Vec, dr: real): Vec
    requires dr != 0.0
  {
    Vec(d.x / dr, d.y / dr)
  }

  lemma UnitFlip(d: Vec, dr: real)
    requires dr != 0.0
    ensures Unit(Neg(d), dr) == Neg(Unit(d, dr))
  {
    assert -d.x / dr == -(d.x / dr);
    assert -d.y / dr == -(d.y / dr);
  }

  lemma SubFlip(a: Vec, b: Vec)
    ensures Sub(b, a) == Neg(Sub(a, b))
  {
  }

  /** Overlap of two disks, as the force law measures it. */
  function Overlap(p: Body, q: Body, sqrt: real -> real): real {
    var d := Sub(q.Pos(), p.Pos());
    p.r + q.r - sqrt(Dot(d, d))
  }

  lemma NoOverlapNoForce(p: Body, q: Body, kn: real, sqrt: real -> real)
    requires Overlap(p, q, sqrt) <= 0.0
    ensures InteractionForce(p, q, kn, sqrt) == Zero
  {
  }

  /** Newton's third law for the pair force. */
  lemma InteractionAntisymmetric(p: Body, q: Body, kn: real, sqrt: real -> real)
    ensures InteractionForce(q, p, kn, sqrt) == Neg(InteractionForce(p, q, kn, sqrt))
  {
    var d := Sub(q.Pos(), p.Pos());
    SubFlip(q.Pos(), p.Pos());
    DotFlip(d, d);
    var dr := sqrt(Dot(d, d));
    var xi := p.r + q.r - dr;
    assert q.r + p.r - dr == xi;
    if xi > 0.0 && dr != 0.0 {
      var en := Unit(d, dr);
      var dv := Sub(q.Speed(), p.Speed());
      UnitFlip(d, dr);
      SubFlip(q.Speed(), p.Speed());
      assert Perp(Neg(en)) == Neg(Perp(en));
      FnetFlip(kn, xi, dv, en, Perp(en), sqrt);
    }
  }

  /** What one visit of the cell-index pass contributes to `p` for its
      neighbour `q` under the pair law `t`: the pair force when
      `q.getDistance(p) <= neighborRadius`, nothing otherwise. */
  function Gated(t: (Body, Body) -> Vec, nr: real, sqrt: real -> real): (Body, Body) -> Vec {
    (p: Body, q: Body) => if Gap(q, p, sqrt) <= nr then t(p, q) else Zero
  }

  ghost predicate Antisymmetric(t: (Body, Body) -> Vec) {
    forall p: Body, q: Body :: t(q, p) == Neg(t(p, q))
  }

  /** The distance test is symmetric, so gating keeps Newton's third law. */
  lemma GatedAntisymmetric(t: (Body, Body) -> Vec, nr: real, sqrt: real -> real)
    requires Antisymmetric(t)
    ensures Antisymmetric(Gated(t, nr, sqrt))
  {
    forall p: Body, q: Body
      ensures Gated(t, nr, sqrt)(q, p) == Neg(Gated(t, nr, sqrt)(p, q))
    {
      GapSymmetric(p, q, sqrt);
      var g := Gap(q, p, sqrt);
      assert Gap(p, q, sqrt) == g;
      assert t(q, p) == Neg(t(p, q));
      assert Gated(t, nr, sqrt)(p, q) == if g <= nr then t(p, q) else Zero;
      assert Gated(t, nr, sqrt)(q, p) == if g <= nr then t(q, p) else Zero;
    }
  }

  /** A body exerts no force on itself under an antisymmetric law. */
  lemma SelfForceIsZero(t: (Body, Body) -> Vec, p: Body)
    requires Antisymmetric(t)
    ensures t(p, p) == Zero
  {
    assert t(p, p) == Neg(t(p, p));
  }

  /** The force on `p` from each of `cs`, summed in order. */
  function RowSum(t: (Body, Body) -> Vec, p: Body, cs: seq<Body>): Vec
    decreases |cs|
  {
    if cs == [] then Zero else Add(RowSum(t, p, cs[..|cs| - 1]), t(p, cs[|cs| - 1]))
  }

  /** The force on `q` from each of `ps`, summed. */
  function ColSum(t: (Body, Body) -> Vec, ps: seq<Body>, q: Body): Vec
    decreases |ps|
  {
    if ps == [] then Zero else Add(ColSum(t, ps[..|ps| - 1], q), t(ps[|ps| - 1], q))
  }

  /** The forces on each of `ps` from every one of `cs`, summed. */
  function PairSum(t: (Body, Body) -> Vec, ps: seq<Body>, cs: seq<Body>): Vec
    decreases |ps|
  {
    if ps == [] then Zero else Add(PairSum(t, ps[..|ps| - 1], cs), RowSum(t, ps[|ps| - 1], cs))
  }

  lemma {:induction false} RowSumAppend(t: (Body, Body) -> Vec, p: Body, a: seq<Body>, b: seq<Body>)
    ensures RowSum(t, p, a + b) == Add(RowSum(t, p, a), RowSum(t, p, b))
    decreases |b|
  {
    if b == [] {
      assert a + b == a;
    } else {
      assert (a + b)[..|a + b| - 1] == a + b[..|b| - 1];
      RowSumAppend(t, p, a, b[..|b| - 1]);
    }
  }

  /** A row over `a`, then `q`, then `b` splits into its three parts. */
  lemma RowSumAround(t: (Body, Body) -> Vec, p: Body, a: seq<Body>, q: Body, b: seq<Body>)
    ensures RowSum(t, p, a + ([q] + b)) == Add(Add(RowSum(t, p, a), t(p, q)), RowSum(t, p, b))
  {
    assert a + ([q] + b) == (a + [q]) + b;
    RowSumAppend(t, p, a + [q], b);
    RowSumAppend(t, p, a, [q]);
    assert [q][..0] == [];
  }

  /** Leaving `p` itself out of its own row does not change the sum. */
  lemma RowSumWithoutSelf(t: (Body, Body) -> Vec, cs: seq<Body>, j: nat)
    requires Antisymmetric(t)
    requires j < |cs|
    ensures RowSum(t, cs[j], cs[..j] + cs[j + 1..]) == RowSum(t, cs[j], cs)
  {
    var p, a, b := cs[j], cs[..j], cs[j + 1..];
    assert cs[j..] == [p] + b;
    assert cs == a + cs[j..];
    RowSumAround(t, p, a, p, b);
    RowSumAppend(t, p, a, b);
    assert t(p, p) == Zero by {
      assert t(p, p) == Neg(t(p, p));
    }
    AddZero(RowSum(t, p, a));
  }

  lemma {:induction false} ColSumIsNegatedRow(t: (Body, Body) -> Vec, ps: seq<Body>, q: Body)
    requires Antisymmetric(t)
    ensures ColSum(t, ps, q) == Neg(RowSum(t, q, ps))
    decreases |ps|
  {
    if ps != [] {
      ColSumIsNegatedRow(t, ps[..|ps| - 1], q);
      assert t(ps[|ps| - 1], q) == Neg(t(q, ps[|ps| - 1]));
    }
  }

  lemma {:induction false} PairSumSnoc(t: (Body, Body) -> Vec, ps: seq<Body>, cs: seq<Body>, c: Body)
    ensures PairSum(t, ps, cs + [c]) == Add(PairSum(t, ps, cs), ColSum(t, ps, c))
    decreases |ps|
  {
    if ps != [] {
      PairSumSnoc(t, ps[..|ps| - 1], cs, c);
      assert (cs + [c])[..|cs + [c]| - 1] == cs;
    }
  }

  /** Over all ordered pairs of one collection of bodies an antisymmetric
      pair force cancels: the net internal force is zero. */
  lemma {:induction false} PairSumSelfIsZero(t: (Body, Body) -> Vec, cs: seq<Body>)
    requires Antisymmetric(t)
    ensures PairSum(t, cs, cs) == Zero
    decreases |cs|
  {
    if cs != [] {
      var init, c := cs[..|cs| - 1], cs[|cs| - 1];
      assert cs == init + [c];
      PairSumSelfIsZero(t, init);
      PairSumSnoc(t, init, init, c);
      ColSumIsNegatedRow(t, init, c);
      assert t(c, c) == Neg(t(c, c));
      assert RowSum(t, c, cs) == Add(RowSum(t, c, init), t(c, c));
    }
  }

  /** The rows of the first `j` bodies of `cs`, each taken over `cs`
      without that body itself: what visiting a cell from each of its
      particles in turn adds up to. */
  function RowsWithoutSelf(t: (Body, Body) -> Vec, cs: seq<Body>, j: nat): Vec
    requires j <= |cs|
  {
    if j == 0 then Zero
    else Add(RowsWithoutSelf(t, cs, j - 1), RowSum(t, cs[j - 1], cs[..j - 1] + cs[j..]))
  }
  /** One more row: the pair forces on `cs[j]` from all the others. */
  lemma RowsWithoutSelfNext(t: (Body, Body) -> Vec, cs: seq<Body>, j: nat)
    requires j < |cs|
    ensures RowsWithoutSelf(t, cs, j + 1) == Add(RowsWithoutSelf(t, cs, j), RowSum(t, cs[j], cs[..j] + cs[j + 1..]))
  {
  }


  lemma {:induction false} RowsWithoutSelfIsPairSum(t: (Body, Body) -> Vec, cs: seq<Body>, j: nat)
    requires Antisymmetric(t) && j <= |cs|
    ensures RowsWithoutSelf(t, cs, j) == PairSum(t, cs[..j], cs)
    decreases j
  {
    if j > 0 {
      RowsWithoutSelfIsPairSum(t, cs, j - 1);
      RowSumWithoutSelf(t, cs, j - 1);
      assert cs[..j][..j - 1] == cs[..j - 1];
    }
  }

  /** Visiting every particle of a cell against all the others of that cell
      adds nothing to the total force. */
  lemma SameCellRowsCancel(t: (Body, Body) -> Vec, cs: seq<Body>)
    requires Antisymmetric(t)
    ensures RowsWithoutSelf(t, cs, |cs|) == Zero
  {
    RowsWithoutSelfIsPairSum(t, cs, |cs|);
    assert cs[..|cs|] == cs;
    PairSumSelfIsZero(t, cs);
  }

  lemma RowSumSnoc(t: (Body, Body) -> Vec, p: Body, bs: seq<Body>, b: Body)
    ensures RowSum(t, p, bs + [b]) == Add(RowSum(t, p, bs), t(p, b))
  {
    assert (bs + [b])[..|bs|] == bs;
  }

  /** The force law itself, as a pair function. */
  function Law(kn: real, sqrt: real -> real): (Body, Body) -> Vec {
    (p: Body, q: Body) => InteractionForce(p, q, kn, sqrt)
  }

  lemma LawIsAntisymmetric(kn: real, sqrt: real -> real)
    ensures Antisymmetric(Law(kn, sqrt))
  {
    forall p: Body, q: Body
      ensures Law(kn, sqrt)(q, p) == Neg(Law(kn, sqrt)(p, q))
    {
      InteractionAntisymmetric(p, q, kn, sqrt);
    }
  }

  /** The force from a wall on a body that overlaps it by `-xi`, moving with
      `speed` (the wall itself at rest). */
  function WallForce(w: Wall, xi: real, speed: Vec, kn: real, sqrt: real -> real): Vec {
    Fnet(kn, xi, speed, En(w), Et(w), sqrt)
  }

  lemma StiffnessTimesOverlap(kn: real, xi: real)
    requires xi < 0.0 && kn > 0.0
    ensures -kn * xi > 0.0
  {
    assert kn * -xi > 0.0;
  }

  /** A body at rest that overlaps a wall (negative `xi`, positive `kn`) is
      pushed along that wall's normal, which points into the domain, with
      the positive magnitude `-kn * xi`. */
  lemma WallPushesInward(w: Wall, xi: real, kn: real, sqrt: real -> real)
    requires xi < 0.0 && kn > 0.0
    ensures WallForce(w, xi, Zero, kn, sqrt) == Scale(-kn * xi, En(w))
    ensures -kn * xi > 0.0
  {
    StiffnessTimesOverlap(kn, xi);
    FnetAtRest(kn, xi, En(w), Et(w), sqrt);
  }

  /** The left wall pushes a body at rest towards +x only. */
  lemma LeftWallAtRest(xi: real, speed: Vec, kn: real, sqrt: real -> real)
    requires xi < 0.0 && kn > 0.0 && speed == Zero
    ensures WallForce(Left, xi, speed, kn, sqrt).x > 0.0
    ensures WallForce(Left, xi, speed, kn, sqrt).y == 0.0
  {
    WallPushesInward(Left, xi, kn, sqrt);
    var k := -kn * xi;
    assert WallForce(Left, xi, Zero, kn, sqrt) == Scale(k, En(Left));
    assert En(Left) == Vec(1.0, 0.0);
    assert Scale(k, Vec(1.0, 0.0)) == Vec(k * 1.0, k * 0.0);
  }

  /** The right wall pushes a body at rest towards -x only. */
  lemma RightWallAtRest(xi: real, speed: Vec, kn: real, sqrt: real -> real)
    requires xi < 0.0 && kn > 0.0 && speed == Zero
    ensures WallForce(Right, xi, speed, kn, sqrt).x < 0.0
    ensures WallForce(Right, xi, speed, kn, sqrt).y == 0.0
  {
    WallPushesInward(Right, xi, kn, sqrt);
    var k := -kn * xi;
    assert WallForce(Right, xi, Zero, kn, sqrt) == Scale(k, En(Right));
    assert En(Right) == Vec(-1.0, 0.0);
    assert Scale(k, Vec(-1.0, 0.0)) == Vec(k * -1.0, k * 0.0);
  }

  /** The floor pushes a body at rest towards +y only. */
  lemma FloorAtRest(xi: real, speed: Vec, kn: real, sqrt: real -> real)
    requires xi < 0.0 && kn > 0.0 && speed == Zero
    ensures WallForce(Down, xi, speed, kn, sqrt).y > 0.0
    ensures WallForce(Down, xi, speed, kn, sqrt).x == 0.0
  {
    WallPushesInward(Down, xi, kn, sqrt);
    var k := -kn * xi;
    assert WallForce(Down, xi, Zero, kn, sqrt) == Scale(k, En(Down));
    assert En(Down) == Vec(0.0, 1.0);
    assert Scale(k, Vec(0.0, 1.0)) == Vec(k * 0.0, k * 1.0);
  }
}
