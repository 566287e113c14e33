/**
 * Counting what the cell-index pass of the silo records. Each turn of one
 * of its inner loops is a visit: the grain `p` looks at the particle `q`.
 * A visit of the stencil loop is mutual, since a pair within reach makes
 * each of the two record the other; a visit of the own-cell loop records
 * `q` for `p` only. `Hits` counts how often a run of visits records `q`
 * for `g`.
 */
module PairCount {
  import opened Particles

  /** One turn of an inner loop of the pass: `p` looks at `q`. */
  datatype Visit = Visit(p: Particle, q: Particle, mutual: bool)

  /** The visits of `p` to the particles of `s`, in order. */
  function Visits(p: Particle, s: seq<Particle>, mutual: bool): (r: seq<Visit>)
    ensures |r| == |s|
    ensures forall k :: 0 <= k < |s| ==> r[k] == Visit(p, s[k], mutual)
    decreases |s|
  {
    if s == [] then [] else Visits(p, s[..|s| - 1], mutual) + [Visit(p, s[|s| - 1], mutual)]
  }

  /** The visits to a prefix of `s` one longer add the visit to its last
      particle. */
  lemma VisitsPrefix(p: Particle, s: seq<Particle>, k: int, mutual: bool)
    requires 0 <= k < |s|
    ensures Visits(p, s[..k + 1], mutual) == Visits(p, s[..k], mutual) + [Visit(p, s[k], mutual)]
  {
    assert s[..k + 1][..k] == s[..k];
  }

  /** Whether the visit `v`, when the pair is within reach, makes `g`
      record `q`. */
  predicate Records(v: Visit, g: Particle, q: Particle) {
    (v.p == g && v.q == q) || (v.mutual && v.q == g && v.p == q)
  }

  /** How many of the visits `vs` make `g` record `q`. */
  function Hits(g: Particle, q: Particle, vs: seq<Visit>): (n: nat)
    ensures n <= |vs|
    decreases |vs|
  {
    if vs == [] then 0 else Hits(g, q, vs[..|vs| - 1]) + (if Records(vs[|vs| - 1], g, q) then 1 else 0)
  }

  lemma HitsSnoc(vs: seq<Visit>, v: Visit)
    ensures forall g, q :: Hits(g, q, vs + [v]) == Hits(g, q, vs) + (if Records(v, g, q) then 1 else 0)
  {
    assert (vs + [v])[..|vs|] == vs;
  }

  lemma {:induction false} HitsAppend(g: Particle, q: Particle, a: seq<Visit>, b: seq<Visit>)
    ensures Hits(g, q, a + b) == Hits(g, q, a) + Hits(g, q, b)
    decreases |b|
  {
    if b == [] {
      assert a + b == a;
    } else {
      assert (a + b)[..|a + b| - 1] == a + b[..|b| - 1];
      HitsAppend(g, q, a, b[..|b| - 1]);
    }
  }

  /** The visits of `p` to `s` make `g` record `q` once for each copy of
      `q` in `s` when `p` is `g`, and, when they are mutual and `p` is `q`,
      once for each copy of `g` in `s`. */
  lemma {:induction false} HitsOfVisits(g: Particle, q: Particle, p: Particle, s: seq<Particle>, mutual: bool)
    ensures Hits(g, q, Visits(p, s, mutual))
         == (if p == g then multiset(s)[q] else 0) + (if mutual && p == q && p != g then multiset(s)[g] else 0)
    decreases |s|
  {
    if s != [] {
      var init, last := s[..|s| - 1], s[|s| - 1];
      HitsOfVisits(g, q, p, init, mutual);
      assert s == init + [last];
      assert Visits(p, s, mutual)[..|s| - 1] == Visits(p, init, mutual);
    }
  }
}
