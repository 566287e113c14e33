/**
 * The silo (class `Silo` of engine/Silo.java): a box of `width x height`
 * with a floor at height `ys` that oscillates as `amplitude * sin(t * f)`,
 * an opening of width `opening` in the middle of the floor bounded by two
 * lip pseudo-particles, the grains, and the cell-index grid used to find
 * the pairs of grains that touch.
 *
 * `Math.sqrt` and `Math.sin` are the constants `sqrt` and `sin`, fixed when
 * the silo is built; the clock-seeded random draws of `updateBase` are a
 * parameter.
 */
module SiloEngine {
  import opened Vectors
  import opened WallVersor
  import opened Particles
  import opened Contact
  import opened CellGrid
  import opened PairCount

  /** The constant body force per grain, `{0, -9.8 / 1000}`. */
  const Gravity: Vec := Vec(0.0, -9.8 / 1000.0)

  /** How close to a side wall a recycled grain may be put back. */
  const RecycleMargin: real := 0.011

  /** A grain has fallen out of the silo once it is a tenth of the height
      below the floor. */
  predicate Fallen(y: real, ys: real, height: real) {
    y - ys <= -height / 10.0
  }

  /** The height a fallen grain is put back at, for the draw `u`. */
  function RecycledY(u: real): (y: real)
    ensures 0.0 <= u < 1.0 ==> 0.4 <= y < 0.7
  {
    u * 0.3 + 0.4
  }

  /** The horizontal position a fallen grain is put back at: `newX` moved
      into `[0.011, width - 0.011]`. */
  function ClampX(newX: real, width: real): (x: real)
    ensures width >= 2.0 * RecycleMargin ==> RecycleMargin <= x <= width - RecycleMargin
    ensures RecycleMargin <= newX <= width - RecycleMargin ==> x == newX
  {
    if newX < RecycleMargin then RecycleMargin
    else if newX > width - RecycleMargin then width - RecycleMargin
    else newX
  }

  /** The two `nextDouble()` values `updateBase` may use for one grain: `uy`
      from the `Random` it builds for the height and `ux` from the one it
      builds for the horizontal position. Each is seeded with its own
      reading of the clock, so the two may differ. */
  datatype Draw = Draw(uy: real, ux: real)

  /** A grain as `updateBase` leaves it, for the draw `d`: a fallen grain is
      put back at rest at `(ClampX(d.ux * width), RecycledY(d.uy))`, any
      other grain is left as it was. */
  function AfterUpdate(b: Body, d: Draw, ys: real, width: real, height: real): Body {
    if Fallen(b.y, ys, height) then Body(ClampX(d.ux * width, width), RecycledY(d.uy), 0.0, 0.0, b.r)
    else b
  }

  /** Every body `bs[k]` after `AfterUpdate` with the draw `draws[k]`. */
  function UpdatedAll(bs: seq<Body>, draws: seq<Draw>, ys: real, width: real, height: real): seq<Body>
    requires |draws| == |bs|
  {
    seq(|bs|, k requires 0 <= k < |bs| => AfterUpdate(bs[k], draws[k], ys, width, height))
  }

  /** The number of grains of `bs` that have fallen. */
  function CountFallen(bs: seq<Body>, ys: real, height: real): (n: int)
    ensures 0 <= n <= |bs|
    decreases |bs|
  {
    if bs == [] then 0
    else CountFallen(bs[..|bs| - 1], ys, height) + (if Fallen(bs[|bs| - 1].y, ys, height) then 1 else 0)
  }

  /** Counting one more grain adds one exactly when that grain has fallen. */
  lemma CountFallenPrefix(bs: seq<Body>, k: int, ys: real, height: real)
    requires 0 <= k < |bs|
    ensures CountFallen(bs[..k + 1], ys, height)
         == CountFallen(bs[..k], ys, height) + (if Fallen(bs[k].y, ys, height) then 1 else 0)
  {
    assert bs[..k + 1][..k] == bs[..k];
  }

  /** No particle occurs twice in `s`: each is new to those before it. */
  predicate Unique(s: seq<Particle>)
    decreases |s|
  {
    |s| == 0 || (Unique(s[..|s| - 1]) && s[|s| - 1] !in s[..|s| - 1])
  }

  /** Two positions of a list without repeats hold different particles. */
  lemma {:induction false} UniqueAt(s: seq<Particle>, a: int, b: int)
    requires Unique(s) && 0 <= a < b < |s|
    ensures s[a] != s[b]
    decreases |s|
  {
    var init := s[..|s| - 1];
    if b < |s| - 1 {
      UniqueAt(init, a, b);
      assert s[a] == init[a] && s[b] == init[b];
    } else {
      assert s[a] == init[a];
    }
  }

  lemma UniquePairs(s: seq<Particle>)
    requires Unique(s)
    ensures forall a, b :: 0 <= a < b < |s| ==> s[a] != s[b]
  {
    forall a, b | 0 <= a < b < |s|
      ensures s[a] != s[b]
    {
      UniqueAt(s, a, b);
    }
  }

  /** A particle new to `s` keeps it free of repeats. */
  lemma UniqueSnoc(s: seq<Particle>, p: Particle)
    requires Unique(s) && p !in s
    ensures Unique(s + [p])
  {
    assert (s + [p])[..|s|] == s;
  }

  /** No two particles of `s` share an id: each id is new to those before
      it. Ids are constants, so this reads nothing and survives every
      update of positions and forces. */
  predicate DistinctIdsOf(s: seq<Particle>)
    decreases |s|
  {
    |s| == 0 || (DistinctIdsOf(s[..|s| - 1]) && forall k :: 0 <= k < |s| - 1 ==> s[k].id != s[|s| - 1].id)
  }

  lemma {:induction false} DistinctIdAt(s: seq<Particle>, a: int, b: int)
    requires DistinctIdsOf(s) && 0 <= a < b < |s|
    ensures s[a].id != s[b].id
    decreases |s|
  {
    var init := s[..|s| - 1];
    if b < |s| - 1 {
      DistinctIdAt(init, a, b);
      assert s[a] == init[a] && s[b] == init[b];
    }
  }

  lemma DistinctIdPairs(s: seq<Particle>)
    requires DistinctIdsOf(s)
    ensures forall a, b :: 0 <= a < b < |s| ==> s[a].id != s[b].id
  {
    forall a, b | 0 <= a < b < |s|
      ensures s[a].id != s[b].id
    {
      DistinctIdAt(s, a, b);
    }
  }

  /** A particle occurs once in a list without repeats, or not at all. */
  lemma {:induction false} UniqueCount(s: seq<Particle>, p: Particle)
    requires Unique(s)
    ensures multiset(s)[p] == if p in s then 1 else 0
    decreases |s|
  {
    if s != [] {
      var init := s[..|s| - 1];
      UniqueCount(init, p);
      assert s == init + [s[|s| - 1]];
    }
  }

  /** Particles with distinct ids are distinct particles. */
  lemma {:induction false} DistinctIdsUnique(s: seq<Particle>)
    requires DistinctIdsOf(s)
    ensures Unique(s)
    decreases |s|
  {
    if s != [] {
      var init, last := s[..|s| - 1], s[|s| - 1];
      DistinctIdsUnique(init);
      forall j | 0 <= j < |init|
        ensures init[j] != last
      {
        assert s[j].id != last.id;
      }
    }
  }

  /** Two different particles of a list with distinct ids differ in id. */
  lemma DistinctIdsDiffer(s: seq<Particle>, p: Particle, q: Particle)
    requires DistinctIdsOf(s) && p in s && q in s && p != q
    ensures p.id != q.id
  {
    var a :| 0 <= a < |s| && s[a] == p;
    var b :| 0 <= b < |s| && s[b] == q;
    if a < b {
      DistinctIdAt(s, a, b);
    } else {
      DistinctIdAt(s, b, a);
    }
  }

  /** Every id of `s` indexes a row of an `|s|`-row force matrix. */
  predicate IdsIndex(s: seq<Particle>) {
    forall k :: 0 <= k < |s| ==> 0 <= s[k].id < |s|
  }

  /** The ids of a list of particles, in order. */
  function IdsOf(s: seq<Particle>): (r: seq<int>)
    ensures |r| == |s| && forall k :: 0 <= k < |s| ==> r[k] == s[k].id
  {
    seq(|s|, k requires 0 <= k < |s| => s[k].id)
  }

  /** `m` with `rows[k]` written at index `ids[k]`, for `k` in order; an
      index outside `m` writes nothing. */
  function Scatter(m: seq<Vec>, ids: seq<int>, rows: seq<Vec>): (r: seq<Vec>)
    requires |ids| == |rows|
    ensures |r| == |m|
    decreases |ids|
  {
    if ids == [] then m
    else
      var k := |ids| - 1;
      var before := Scatter(m, ids[..k], rows[..k]);
      if 0 <= ids[k] < |before| then before[ids[k] := rows[k]] else before
  }

  /** With distinct ids that all index `m`, each row lands at its own id,
      and every other entry of `m` is kept. */
  lemma {:induction false} ScatterAt(m: seq<Vec>, ids: seq<int>, rows: seq<Vec>)
    requires |ids| == |rows|
    requires forall k :: 0 <= k < |ids| ==> 0 <= ids[k] < |m|
    requires forall a, b :: 0 <= a < b < |ids| ==> ids[a] != ids[b]
    ensures forall k :: 0 <= k < |ids| ==> Scatter(m, ids, rows)[ids[k]] == rows[k]
    ensures forall i :: 0 <= i < |m| && i !in ids ==> Scatter(m, ids, rows)[i] == m[i]
    decreases |ids|
  {
    if ids != [] {
      var k := |ids| - 1;
      ScatterAt(m, ids[..k], rows[..k]);
      assert forall j :: 0 <= j < k ==> ids[..k][j] == ids[j] && rows[..k][j] == rows[j];
      assert forall i :: i in ids <==> i in ids[..k] || i == ids[k];
    }
  }

  /** The bodies of a list of particles, read from the heap. */
  ghost function Bodies(s: seq<Particle>): (r: seq<Body>)
    reads s`x, s`y, s`speedx, s`speedy
    ensures |r| == |s| && forall k {:trigger r[k]} :: 0 <= k < |s| ==> r[k] == s[k].AsBody()
    decreases |s|
  {
    if s == [] then [] else Bodies(s[..|s| - 1]) + [s[|s| - 1].AsBody()]
  }

  /** The contact forces of a list of particles. */
  ghost function Contacts(s: seq<Particle>): (r: seq<Vec>)
    reads s`contactForce
    ensures |r| == |s| && forall k {:trigger r[k]} :: 0 <= k < |s| ==> r[k] == s[k].contactForce
    decreases |s|
  {
    if s == [] then [] else Contacts(s[..|s| - 1]) + [s[|s| - 1].contactForce]
  }

  /** One more particle of `s` adds its body to the end. */
  lemma BodiesSnoc(s: seq<Particle>, b: int)
    requires 0 <= b < |s|
    ensures Bodies(s[..b + 1]) == Bodies(s[..b]) + [s[b].AsBody()]
  {
    assert s[..b + 1][..b] == s[..b];
  }

  /** `remove(p)` on a copy of a cell: the first entry equal to `p`, that
      is with the same id, is dropped; with none the list is kept whole. */
  function RemoveFirstId(s: seq<Particle>, id: int): seq<Particle>
    decreases |s|
  {
    if s == [] then []
    else if s[0].id == id then s[1..]
    else [s[0]] + RemoveFirstId(s[1..], id)
  }

  /** When the first entry with the id sits at `k`, exactly that entry goes. */
  lemma {:induction false} RemoveFirstIdAt(s: seq<Particle>, k: int)
    requires 0 <= k < |s|
    requires forall j :: 0 <= j < k ==> s[j].id != s[k].id
    ensures RemoveFirstId(s, s[k].id) == s[..k] + s[k + 1..]
    decreases k
  {
    if k > 0 {
      RemoveFirstIdAt(s[1..], k - 1);
      assert s[1..][..k - 1] == s[1..k] && s[1..][k..] == s[k + 1..];
      assert [s[0]] + s[1..k] == s[..k];
    }
  }

  /** Without an entry of that id the list is unchanged. */
  lemma {:induction false} RemoveFirstIdAbsent(s: seq<Particle>, id: int)
    requires forall j :: 0 <= j < |s| ==> s[j].id != id
    ensures RemoveFirstId(s, id) == s
    decreases |s|
  {
    if s != [] {
      RemoveFirstIdAbsent(s[1..], id);
    }
  }

  lemma AppendAssoc<T>(a: seq<T>, b: seq<T>, c: seq<T>)
    ensures (a + b) + c == a + (b + c)
  {
  }

  lemma AppendNil<T>(a: seq<T>)
    ensures a + [] == a
  {
  }

  /** The particles of the cells `cells` of `grid`, cell after cell, as
      `addAll` collects them; a cell off the grid adds nothing. */
  function Gather(grid: seq<seq<Particle>>, cells: seq<int>): seq<Particle>
    decreases |cells|
  {
    if cells == [] then []
    else
      var c := cells[|cells| - 1];
      Gather(grid, cells[..|cells| - 1]) + (if 0 <= c < |grid| then grid[c] else [])
  }

  /** The bodies of `s`, looked up in `pos`. */
  function Lookup(s: seq<Particle>, pos: map<Particle, Body>): (r: seq<Body>)
    requires forall q :: q in s ==> q in pos
    ensures |r| == |s| && forall k :: 0 <= k < |s| ==> r[k] == pos[s[k]]
    decreases |s|
  {
    if s == [] then [] else Lookup(s[..|s| - 1], pos) + [pos[s[|s| - 1]]]
  }

  /** Leaving out the `j`-th particle leaves out its body. */
  lemma LookupWithout(s: seq<Particle>, j: int, pos: map<Particle, Body>)
    requires forall q :: q in s ==> q in pos
    requires 0 <= j < |s|
    ensures Lookup(s[..j] + s[j + 1..], pos) == Lookup(s, pos)[..j] + Lookup(s, pos)[j + 1..]
  {
  }

  lemma LookupAppend(a: seq<Particle>, b: seq<Particle>, pos: map<Particle, Body>)
    requires forall q :: q in a ==> q in pos
    requires forall q :: q in b ==> q in pos
    ensures Lookup(a + b, pos) == Lookup(a, pos) + Lookup(b, pos)
  {
  }

  /** Taking out the entry at `k` takes one copy of it out of the multiset. */
  lemma MultisetWithout(s: seq<Particle>, k: int)
    requires 0 <= k < |s|
    ensures multiset(s[..k] + s[k + 1..]) == multiset(s) - multiset{s[k]}
  {
    assert s == s[..k] + [s[k]] + s[k + 1..];
  }

  lemma LookupAround(before: seq<Particle>, x: Particle, after: seq<Particle>, pos: map<Particle, Body>)
    requires forall q :: q in before ==> q in pos
    requires forall q :: q in after ==> q in pos
    requires x in pos
    ensures Lookup(before + ([x] + after), pos) == Lookup(before, pos) + ([pos[x]] + Lookup(after, pos))
    ensures Lookup(before + after, pos) == Lookup(before, pos) + Lookup(after, pos)
  {
    LookupAppend(before, [x] + after, pos);
    LookupAppend([x], after, pos);
    LookupAppend(before, after, pos);
  }

  /** The row over a list with `f` somewhere in it is the row without `f`
      plus the force from `f`. */
  lemma RowSumAroundMoved(t: (Body, Body) -> Vec, p: Body, bs: seq<Body>, f: Body, cs: seq<Body>)
    ensures RowSum(t, p, bs + ([f] + cs)) == Add(RowSum(t, p, bs + cs), t(p, f))
  {
    RowSumAround(t, p, bs, f, cs);
    RowSumAppend(t, p, bs, cs);
  }

  /** The force summed over a list of particles does not depend on the
      order of the list. */
  lemma {:induction false} RowSumLookupPerm(t: (Body, Body) -> Vec, p: Body, a: seq<Particle>, b: seq<Particle>,
                                            pos: map<Particle, Body>)
    requires forall q :: q in a ==> q in pos
    requires forall q :: q in b ==> q in pos
    requires multiset(a) == multiset(b)
    ensures RowSum(t, p, Lookup(a, pos)) == RowSum(t, p, Lookup(b, pos))
    decreases |a|
  {
    if a == [] {
      assert |multiset(b)| == 0;
    } else {
      var init, x := a[..|a| - 1], a[|a| - 1];
      MultisetWithout(a, |a| - 1);
      assert a[..|a| - 1] + a[|a|..] == init;
      assert x in multiset(b);
      var k :| 0 <= k < |b| && b[k] == x;
      var before, after := b[..k], b[k + 1..];
      MultisetWithout(b, k);
      assert b == before + ([x] + after);
      RowSumLookupPerm(t, p, init, before + after, pos);
      LookupAround(before, x, after, pos);
      RowSumAroundMoved(t, p, Lookup(before, pos), pos[x], Lookup(after, pos));
      RowSumSnoc(t, p, Lookup(init, pos), pos[x]);
    }
  }

  lemma LookupSnoc(s: seq<Particle>, q: Particle, pos: map<Particle, Body>)
    requires forall p :: p in s ==> p in pos
    requires q in pos
    ensures Lookup(s + [q], pos) == Lookup(s, pos) + [pos[q]]
  {
    assert (s + [q])[..|s|] == s;
  }

  /** Visiting one more particle of `s` appends that visit to the record. */
  lemma VisitsStep(done: seq<Visit>, p: Particle, s: seq<Particle>, k: int, mutual: bool)
    requires 0 <= k < |s|
    ensures done + Visits(p, s[..k + 1], mutual) == (done + Visits(p, s[..k], mutual)) + [Visit(p, s[k], mutual)]
  {
    VisitsPrefix(p, s, k, mutual);
    AppendAssoc(done, Visits(p, s[..k], mutual), [Visit(p, s[k], mutual)]);
  }

  /** Adding the force of `s[k]` on `b` to a row over `s[..k]` gives the row
      over `s[..k + 1]`. */
  lemma RowStep(t: (Body, Body) -> Vec, base: Vec, b: Body, s: seq<Particle>, k: int, pos: map<Particle, Body>)
    requires 0 <= k < |s| && forall q :: q in s ==> q in pos
    ensures Add(Add(base, RowSum(t, b, Lookup(s[..k], pos))), t(b, pos[s[k]]))
         == Add(base, RowSum(t, b, Lookup(s[..k + 1], pos)))
  {
    assert s[..k + 1] == s[..k] + [s[k]];
    LookupSnoc(s[..k], s[k], pos);
    RowSumSnoc(t, b, Lookup(s[..k], pos), pos[s[k]]);
    AddAssoc(base, RowSum(t, b, Lookup(s[..k], pos)), t(b, pos[s[k]]));
  }

  /** Two counts over a list one longer: each condition holds of the
      longer list when it holds of the shorter one or of the new element,
      never both. */
  lemma SplitCount(a: bool, a0: bool, pa: bool, b: bool, b0: bool, pb: bool, x: int, y: int)
    requires (a <==> a0 || pa) && !(a0 && pa)
    requires (b <==> b0 || pb) && !(b0 && pb)
    ensures (if a then x else 0) + (if b then y else 0)
         == ((if a0 then x else 0) + (if b0 then y else 0)) + ((if pa then x else 0) + (if pb then y else 0))
  {
  }

  /** A list whose particles differ pairwise in id has distinct ids. */
  lemma {:induction false} DistinctIdsOfPairs(s: seq<Particle>)
    requires forall a, b :: 0 <= a < b < |s| ==> s[a].id != s[b].id
    ensures DistinctIdsOf(s)
    decreases |s|
  {
    if s != [] {
      var init := s[..|s| - 1];
      forall a, b | 0 <= a < b < |init|
        ensures init[a].id != init[b].id
      {
        assert init[a] == s[a] && init[b] == s[b];
      }
      DistinctIdsOfPairs(init);
    }
  }

  /** A prefix one longer of a list without repeats adds a particle new
      to the shorter one. */
  lemma UniquePrefix(s: seq<Particle>, n: int)
    requires Unique(s) && 0 < n <= |s|
    ensures s[n - 1] !in s[..n - 1]
    ensures forall x :: x in s[..n] <==> x in s[..n - 1] || x == s[n - 1]
  {
    UniquePairs(s);
    assert s[..n] == s[..n - 1] + [s[n - 1]];
  }

  lemma MultisetsAgree(a: multiset<Particle>, b: multiset<Particle>)
    requires forall q :: a[q] == b[q]
    ensures a == b
  {
  }

  /** The particles of `s` that are in `k`, in order. */
  function Keep(s: seq<Particle>, k: set<Particle>): (r: seq<Particle>)
    ensures forall q :: q in r ==> q in s && q in k
    decreases |s|
  {
    if s == [] then []
    else Keep(s[..|s| - 1], k) + (if s[|s| - 1] in k then [s[|s| - 1]] else [])
  }

  /** Out of a list without repeats, `Keep` takes once each particle of
      `k` in it, and nothing else. */
  lemma {:induction false} KeepCount(s: seq<Particle>, k: set<Particle>, q: Particle)
    requires Unique(s)
    ensures multiset(Keep(s, k))[q] == if q in s && q in k then 1 else 0
    decreases |s|
  {
    if s != [] {
      var init, last := s[..|s| - 1], s[|s| - 1];
      KeepCount(init, k, q);
      assert s == init + [last];
    }
  }

  /** `sqrt` behaves as `Math.sqrt` on non-negative reals. */
  ghost predicate SquareRoot(sqrt: real -> real) {
    forall s :: s >= 0.0 ==> sqrt(s) >= 0.0 && sqrt(s) * sqrt(s) == s
  }

  /** A coordinate difference is no longer than the distance. */
  lemma LegBelowDistance(dx: real, dy: real, d: real)
    requires d >= 0.0 && d * d == dx * dx + dy * dy
    ensures -d <= dx <= d
  {
    var x := if dx >= 0.0 then dx else -dx;
    assert x * x == dx * dx;
    assert x * x <= d * d;
    if d + x > 0.0 {
      assert d - x == (d * d - x * x) / (d + x);
    }
  }


  /** Bodies of radius at most `R` within `nr` of each other are less
      than `nr + 2 R` apart along each axis. */
  lemma GapBoundsLegs(a: Body, b: Body, sqrt: real -> real, nr: real, R: real)
    requires SquareRoot(sqrt) && a.r <= R && b.r <= R && Gap(b, a, sqrt) <= nr
    ensures -(nr + 2.0 * R) <= a.x - b.x <= nr + 2.0 * R
    ensures -(nr + 2.0 * R) <= a.y - b.y <= nr + 2.0 * R
  {
    var d := Gap(b, a, sqrt) + b.r + a.r;
    assert d >= 0.0 && d * d == (a.x - b.x) * (a.x - b.x) + (a.y - b.y) * (a.y - b.y);
    LegBelowDistance(a.x - b.x, a.y - b.y, d);
    LegBelowDistance(a.y - b.y, a.x - b.x, d);
  }


  /** Two points whose coordinates differ by less than a cell length fall
      into the same or adjacent slots. */
  lemma CloseSlots(u: real, v: real, length: real)
    requires length > 0.0 && -length < v - u < length
    ensures -1 <= Slot(u, length) - Slot(v, length) <= 1
  {
    if u <= v {
      CloseCoordinatesAdjacentSlots(u, v, length);
    } else {
      CloseCoordinatesAdjacentSlots(v, u, length);
    }
  }

  /** The grid `gr` files every particle of `home` under the cell `home`
      gives it and nothing else, and no cell holds two ids alike. */
  ghost predicate Binned(gr: seq<seq<Particle>>, home: map<Particle, int>) {
    (forall c, p :: 0 <= c < |gr| && p in gr[c] ==> p in home && home[p] == c)
    && (forall p :: p in home ==> 0 <= home[p] < |gr| && p in gr[home[p]])
    && (forall c :: 0 <= c < |gr| ==> DistinctIdsOf(gr[c]))
  }

  /** A cell holds once each particle filed under it, and nothing else. */
  lemma BinnedCount(gr: seq<seq<Particle>>, home: map<Particle, int>, c: int, q: Particle)
    requires Binned(gr, home) && 0 <= c < |gr|
    ensures multiset(gr[c])[q] == if q in home && home[q] == c then 1 else 0
  {
    DistinctIdsUnique(gr[c]);
    UniqueCount(gr[c], q);
  }

  /** Gathering cells that are all different, from a grid holding `q` once
      in the cell `home` files it under, takes `q` once when that cell is
      among them, and not at all otherwise. */
  lemma {:induction false} GatherCount(gr: seq<seq<Particle>>, home: map<Particle, int>, cells: seq<int>, q: Particle)
    requires forall c :: 0 <= c < |gr| ==> multiset(gr[c])[q] == if q in home && home[q] == c then 1 else 0
    requires q in home ==> 0 <= home[q] < |gr|
    requires forall c :: multiset(cells)[c] <= 1
    ensures multiset(Gather(gr, cells))[q] == if q in home && home[q] in cells then 1 else 0
    decreases |cells|
  {
    if cells != [] {
      var init, last := cells[..|cells| - 1], cells[|cells| - 1];
      assert cells == init + [last];
      assert multiset(cells) == multiset(init) + multiset{last};
      forall c
        ensures multiset(init)[c] <= 1 && (c == last ==> multiset(init)[c] == 0)
      {
        assert multiset(cells)[c] == multiset(init)[c] + (if c == last then 1 else 0);
      }
      assert last !in init;
      GatherCount(gr, home, init, q);
      var more := if 0 <= last < |gr| then gr[last] else [];
      assert Gather(gr, cells) == Gather(gr, init) + more;
      assert multiset(Gather(gr, cells))[q] == multiset(Gather(gr, init))[q] + multiset(more)[q];
      assert multiset(more)[q] == if q in home && home[q] == last then 1 else 0;
      assert (q in home && home[q] in cells) <==> (q in home && (home[q] in init || home[q] == last));
    }
  }

  /** The copy of cell `c` without its grain `g` holds once each other
      particle filed under `c`, and nothing else. */
  lemma OwnCount(gr: seq<seq<Particle>>, home: map<Particle, int>, c: int, g: Particle, q: Particle)
    requires Binned(gr, home) && 0 <= c < |gr| && g in gr[c]
    ensures multiset(RemoveFirstId(gr[c], g.id))[q] == if q in home && home[q] == c && q != g then 1 else 0
  {
    var cell := gr[c];
    var j :| 0 <= j < |cell| && cell[j] == g;
    forall k | 0 <= k < j
      ensures cell[k].id != cell[j].id
    {
      DistinctIdAt(cell, k, j);
    }
    RemoveFirstIdAt(cell, j);
    MultisetWithout(cell, j);
    assert multiset(RemoveFirstId(cell, g.id)) == multiset(cell) - multiset{g};
    DistinctIdsUnique(cell);
    UniqueCount(cell, q);
    if q in home && home[q] == c {
      assert q in gr[home[q]];
    }
    assert q in cell ==> q in home && home[q] == c;
  }

  /** Left edge of the opening, `(width - opening) / 2`. */
  function LeftFloor(width: real, opening: real): real {
    (width - opening) / 2.0
  }

  /** Right edge of the opening, `width - (width - opening) / 2`. */
  function RightFloor(width: real, opening: real): real {
    width - (width - opening) / 2.0
  }

  /** The side wall a grain crosses, if any, with the overlap `xi` that
      `getForceMatrix` passes for it (negative while the grain overlaps):
      the left wall when the grain crosses `x = 0`, otherwise the right wall
      when it crosses `x = width`. */
  function SideContact(p: Body, width: real): Option<(Wall, real)> {
    if p.x - p.r < 0.0 then Some((Left, -(p.r - p.x)))
    else if p.x + p.r > width then Some((Right, -(p.r - (width - p.x))))
    else None
  }

  /** The side-wall term of `getForceMatrix`. */
  function SideWallForce(p: Body, width: real, kn: real, sqrt: real -> real): Vec {
    match SideContact(p, width)
    case None => Zero
    case Some((w, xi)) => WallForce(w, xi, p.Speed(), kn, sqrt)
  }

  /** What acts on a grain from below in `getForceMatrix`. */
  datatype Support =
    | Unsupported             // the grain does not straddle the floor level
    | Floor(xi: real)         // the floor, with the overlap `xi` (negative)
    | Lips                    // over the opening: the two lip particles

  /** The support of a grain for the floor at `ys`: a grain straddling the
      floor level meets the floor beside the opening and the lips over it. */
  function SupportOf(p: Body, width: real, opening: real, ys: real): Support {
    if p.y - p.r < ys && p.y + p.r > ys then
      if p.x < LeftFloor(width, opening) || p.x > RightFloor(width, opening) then Floor(-(p.r - (p.y - ys)))
      else Lips
    else Unsupported
  }

  /** The floor term of `getForceMatrix`. */
  function FloorForce(p: Body, width: real, opening: real, ys: real, kn: real,
                      left: Body, right: Body, sqrt: real -> real): Vec {
    match SupportOf(p, width, opening, ys)
    case Unsupported => Zero
    case Floor(xi) => WallForce(Down, xi, p.Speed(), kn, sqrt)
    case Lips => Add(InteractionForce(p, right, kn, sqrt), InteractionForce(p, left, kn, sqrt))
  }

  /** The row of the force matrix for a grain with contact force `contact`:
      gravity, contacts, side walls and floor. */
  function GrainForce(p: Body, contact: Vec, width: real, opening: real, ys: real, kn: real,
                      left: Body, right: Body, sqrt: real -> real): Vec {
    Add(Add(Add(Gravity, contact), SideWallForce(p, width, kn, sqrt)),
        FloorForce(p, width, opening, ys, kn, left, right, sqrt))
  }

  /** A grain clear of both side walls and not straddling the floor level
      feels gravity and its contacts only. */
  lemma FreeGrainForce(p: Body, contact: Vec, width: real, opening: real, ys: real, kn: real,
                       left: Body, right: Body, sqrt: real -> real)
    requires 0.0 <= p.x - p.r && p.x + p.r <= width
    requires p.y - p.r >= ys || p.y + p.r <= ys
    ensures GrainForce(p, contact, width, opening, ys, kn, left, right, sqrt) == Add(Gravity, contact)
  {
  }

  /** A grain at rest that crosses the left wall is pushed towards +x only,
      whether or not it also crosses the right wall. */
  lemma LeftWallPushesRight(p: Body, width: real, kn: real, sqrt: real -> real)
    requires p.x - p.r < 0.0 && kn > 0.0 && p.Speed() == Zero
    ensures SideWallForce(p, width, kn, sqrt).x > 0.0
    ensures SideWallForce(p, width, kn, sqrt).y == 0.0
  {
    var xi := -(p.r - p.x);
    assert SideContact(p, width) == Some((Left, xi));
    LeftWallAtRest(xi, p.Speed(), kn, sqrt);
    assert SideWallForce(p, width, kn, sqrt) == WallForce(Left, xi, p.Speed(), kn, sqrt);
  }

  /** A grain at rest inside the left wall that crosses the right wall is
      pushed towards -x only. */
  lemma RightWallPushesLeft(p: Body, width: real, kn: real, sqrt: real -> real)
    requires p.x - p.r >= 0.0 && p.x + p.r > width && kn > 0.0 && p.Speed() == Zero
    ensures SideWallForce(p, width, kn, sqrt).x < 0.0
    ensures SideWallForce(p, width, kn, sqrt).y == 0.0
  {
    var xi := -(p.r - (width - p.x));
    assert SideContact(p, width) == Some((Right, xi));
    RightWallAtRest(xi, p.Speed(), kn, sqrt);
    assert SideWallForce(p, width, kn, sqrt) == WallForce(Right, xi, p.Speed(), kn, sqrt);
  }

  /** A grain at rest straddling the floor level beside the opening is
      pushed up only. */
  lemma FloorPushesUp(p: Body, width: real, opening: real, ys: real, kn: real,
                      left: Body, right: Body, sqrt: real -> real)
    requires p.y - p.r < ys < p.y + p.r && kn > 0.0 && p.Speed() == Zero
    requires p.x < LeftFloor(width, opening) || p.x > RightFloor(width, opening)
    ensures FloorForce(p, width, opening, ys, kn, left, right, sqrt).y > 0.0
    ensures FloorForce(p, width, opening, ys, kn, left, right, sqrt).x == 0.0
  {
    var xi := -(p.r - (p.y - ys));
    assert SupportOf(p, width, opening, ys) == Floor(xi);
    FloorAtRest(xi, p.Speed(), kn, sqrt);
    assert FloorForce(p, width, opening, ys, kn, left, right, sqrt) == WallForce(Down, xi, p.Speed(), kn, sqrt);
  }

  /** Over the opening the floor exerts nothing: only the two lip particles
      act, and a grain that overlaps neither feels no floor force at all. */
  lemma OpeningHasNoFloor(p: Body, width: real, opening: real, ys: real, kn: real,
                          left: Body, right: Body, sqrt: real -> real)
    requires LeftFloor(width, opening) <= p.x <= RightFloor(width, opening)
    requires p.y - p.r < ys < p.y + p.r
    requires Overlap(p, left, sqrt) <= 0.0 && Overlap(p, right, sqrt) <= 0.0
    ensures SupportOf(p, width, opening, ys) == Lips
    ensures FloorForce(p, width, opening, ys, kn, left, right, sqrt) == Zero
  {
    NoOverlapNoForce(p, left, kn, sqrt);
    NoOverlapNoForce(p, right, kn, sqrt);
  }

  class Silo {
    const width: real
    const height: real
    const opening: real
    const frequency: real
    const amplitude: real
    const dt: real
    const kn: real
    const ky: real
    const neighborRadius: real
    /** Rows and columns of the grid. */
    const M: int
    const N: int
    const vCellLength: real
    const hCellLength: real
    const leftBoundaryParticle: Particle
    const rightBoundaryParticle: Particle
    const sqrt: real -> real
    const sin: real -> real
    /** `getParticleInteractionForce`: the pair force law of this silo. */
    const interaction: (Body, Body) -> Vec
    var ys: real
    var totalFlow: int
    var currentTime: real
    var grains: seq<Particle>
    /** Cell `col + N * row` holds the grains of that cell, in the order
        they were inserted. */
    var grid: seq<seq<Particle>>

    /** The grid dimensions and cell lengths fixed by the constructor. */
    predicate Geometry() {
      M >= 1 && N >= 1 && width > 0.0 && height > 0.0
      && hCellLength == width / N as real && vCellLength == height / M as real
      && hCellLength > 0.0 && vCellLength > 0.0
    }

    ghost predicate Valid()
      reads this
    {
      Geometry() && |grid| == M * N
      && leftBoundaryParticle.kind == FixedBaseKind && rightBoundaryParticle.kind == FixedBaseKind
      && leftBoundaryParticle != rightBoundaryParticle
      && leftBoundaryParticle !in grains && rightBoundaryParticle !in grains
      && Unique(grains)
      && Antisymmetric(interaction)
    }

    /** The height of the floor at time `t`. */
    function BaseHeight(t: real): real {
      amplitude * sin(t * frequency)
    }

    /** The cell `addParticleToGrid` puts a particle in, if any. */
    function CellOf(p: Particle): Option<int>
      requires Geometry()
      reads p`x, p`y
    {
      CellAt(p.x, p.y)
    }

    /** The cell of the point `(x, y)`, if it lies in the box. */
    function CellAt(x: real, y: real): Option<int>
      requires Geometry()
    {
      CellIndexOf(x, y, width, height, hCellLength, vCellLength, N)
    }

    /** The grid after `addParticleToGrid(p)`. */
    ghost function Inserted(g: seq<seq<Particle>>, p: Particle): seq<seq<Particle>>
      requires Geometry() && |g| == M * N
      reads p`x, p`y
    {
      match CellOf(p)
      case None => g
      case Some(c) =>
        CellIndexInRange(p.x, p.y, width, height, M, N);
        g[c := g[c] + [p]]
    }

    /** The grains of `gs` whose position lies in cell `c`, in order. */
    ghost function InCell(gs: seq<Particle>, c: int): seq<Particle>
      requires Geometry()
      reads gs`x, gs`y
      decreases |gs|
    {
      if gs == [] then []
      else InCell(gs[..|gs| - 1], c) + (if CellOf(gs[|gs| - 1]) == Some(c) then [gs[|gs| - 1]] else [])
    }

    /** Inserting `gs[k]` into a grid that holds the cells of the first `k`
        grains of `gs` gives the grid of the first `k + 1`. */
    lemma InsertedKeepsInCell(g: seq<seq<Particle>>, gs: seq<Particle>, k: int)
      requires Geometry() && |g| == M * N && 0 <= k < |gs|
      requires forall c :: 0 <= c < M * N ==> g[c] == InCell(gs[..k], c)
      ensures |Inserted(g, gs[k])| == M * N
      ensures forall c :: 0 <= c < M * N ==> Inserted(g, gs[k])[c] == InCell(gs[..k + 1], c)
    {
      var s, p := gs[..k], gs[k];
      assert gs[..k + 1] == s + [p];
      assert (s + [p])[..|s|] == s;
      if CellOf(p).Some? {
        CellIndexInRange(p.x, p.y, width, height, M, N);
      }
    }

    /** The grid as `resetGrid` leaves it. */
    ghost predicate Gridded()
      reads this, grains`x, grains`y
    {
      Geometry() && |grid| == M * N
      && forall c :: 0 <= c < M * N ==> grid[c] == InCell(grains, c)
    }

    /** `Silo(...)`: the grid has `ceil(extent / side - 1)` cells along each
        side, `side = neighborRadius + 2 * maxParRadius`, so that every cell
        is longer than `side`; the lips sit at the two edges of the opening. */
    constructor (width: real, height: real, opening: real, frequency: real, amplitude: real,
                 dt: real, kn: real, neighborRadius: real, maxParRadius: real,
                 sqrt: real -> real, sin: real -> real)
      requires neighborRadius + 2.0 * maxParRadius > 0.0
      requires height > neighborRadius + 2.0 * maxParRadius
      requires width > neighborRadius + 2.0 * maxParRadius
      ensures Valid()
      ensures this.width == width && this.height == height && this.opening == opening
      ensures this.frequency == frequency && this.amplitude == amplitude && this.dt == dt
      ensures this.kn == kn && ky == 2.0 * kn && this.neighborRadius == neighborRadius
      ensures this.sqrt == sqrt && this.sin == sin && interaction == Law(kn, sqrt)
      ensures M == CellCount(height, neighborRadius + 2.0 * maxParRadius)
      ensures N == CellCount(width, neighborRadius + 2.0 * maxParRadius)
      ensures vCellLength > neighborRadius + 2.0 * maxParRadius
      ensures hCellLength > neighborRadius + 2.0 * maxParRadius
      ensures fresh(leftBoundaryParticle) && fresh(rightBoundaryParticle)
      ensures leftBoundaryParticle.x == (width - opening) / 2.0 && leftBoundaryParticle.y == 0.0
      ensures rightBoundaryParticle.x == width - (width - opening) / 2.0 && rightBoundaryParticle.y == 0.0
      ensures leftBoundaryParticle.radius == 0.0 && rightBoundaryParticle.radius == 0.0
      ensures leftBoundaryParticle.GetSpeed() == Zero && rightBoundaryParticle.GetSpeed() == Zero
      ensures grains == [] && |grid| == M * N && forall c :: 0 <= c < M * N ==> grid[c] == []
      ensures ys == 0.0 && currentTime == 0.0 && totalFlow == 0
    {
      var side := neighborRadius + 2.0 * maxParRadius;
      this.width := width;
      this.height := height;
      this.opening := opening;
      this.frequency := frequency;
      this.dt := dt;
      ys := 0.0;
      currentTime := 0.0;
      this.amplitude := amplitude;
      this.kn := kn;
      ky := 2.0 * kn;
      leftBoundaryParticle := new Particle.FixedBase((width - opening) / 2.0, 0.0);
      rightBoundaryParticle := new Particle.FixedBase(width - (width - opening) / 2.0, 0.0);
      CellCountBounds(height, side);
      CellCountBounds(width, side);
      var m, n := CellCount(height, side), CellCount(width, side);
      M := m;
      N := n;
      this.neighborRadius := neighborRadius;
      vCellLength := height / m as real;
      hCellLength := width / n as real;
      this.sqrt := sqrt;
      this.sin := sin;
      interaction := Law(kn, sqrt);
      LawIsAntisymmetric(kn, sqrt);
      grains := [];
      totalFlow := 0;
      var cells: seq<seq<Particle>> := [];
      var i := 0;
      while i < m * n
        invariant 0 <= i <= m * n && |cells| == i
        invariant forall c :: 0 <= c < i ==> cells[c] == []
      {
        cells := cells + [[]];
        i := i + 1;
      }
      grid := cells;
    }

    /** `addParticleToGrid`: a particle inside the box joins the end of its
        cell; one outside is not put anywhere. */
    method AddParticleToGrid(p: Particle)
      requires Geometry() && |grid| == M * N
      modifies this`grid
      ensures |grid| == M * N
      ensures grid == Inserted(old(grid), p)
    {
      if p.x >= width || p.x < 0.0 || p.y >= height || p.y < 0.0 {
        return;
      }
      var i := (p.x / hCellLength).Floor + N * (p.y / vCellLength).Floor;
      CellIndexInRange(p.x, p.y, width, height, M, N);
      grid := grid[i := grid[i] + [p]];
    }

    /** `addParticle`: the grain joins the list whether or not it is inside
        the box, and joins the grid only when it is. */
    method AddParticle(p: Particle)
      requires Valid() && p !in grains
      requires p != leftBoundaryParticle && p != rightBoundaryParticle
      modifies this`grid, this`grains
      ensures Valid()
      ensures grains == old(grains) + [p]
      ensures grid == Inserted(old(grid), p)
    {
      AddParticleToGrid(p);
      UniqueSnoc(grains, p);
      grains := grains + [p];
    }

    /** `resetGrid`: every cell emptied, then every grain inserted again in
        list order; afterwards each cell holds exactly the grains whose
        position falls in it. */
    method ResetGrid()
      requires Valid()
      modifies this`grid
      ensures Valid() && Gridded()
    {
      ClearGrid();
      FillGrid();
    }

    /** The first loop of `resetGrid`: every cell emptied. */
    method ClearGrid()
      requires Geometry() && |grid| == M * N
      modifies this`grid
      ensures |grid| == M * N && forall c :: 0 <= c < M * N ==> grid[c] == []
    {
      var i := 0;
      while i < |grid|
        invariant 0 <= i <= |grid| == M * N
        invariant forall c :: 0 <= c < i ==> grid[c] == []
      {
        grid := grid[i := []];
        i := i + 1;
      }
    }

    /** The second loop of `resetGrid`: every grain inserted in list order
        into the empty grid. */
    method FillGrid()
      requires Geometry() && |grid| == M * N && forall c :: 0 <= c < M * N ==> grid[c] == []
      modifies this`grid
      ensures Gridded()
    {
      var gs := grains;
      var k := 0;
      while k < |gs|
        invariant 0 <= k <= |gs| && |grid| == M * N
        invariant forall c :: 0 <= c < M * N ==> grid[c] == InCell(gs[..k], c)
      {
        InsertedKeepsInCell(grid, gs, k);
        AddParticleToGrid(gs[k]);
        k := k + 1;
      }
      assert gs[..k] == gs;
    }

    /** One turn of the loop of `updateBase`: a grain that has fallen below
        the floor is put back at rest near the top. */
    method RecycleIfFallen(g: Particle, d: Draw) returns (fallen: bool)
      modifies g`x, g`y, g`speedx, g`speedy
      ensures fallen == Fallen(old(g.y), ys, height)
      ensures g.AsBody() == AfterUpdate(old(g.AsBody()), d, ys, width, height)
    {
      fallen := g.y - ys <= -height / 10.0;
      if fallen {
        g.y := d.uy * 0.3 + 0.4;
        var newX := d.ux * width;
        if newX < 0.011 {
          newX := 0.011;
        } else if newX > width - 0.011 {
          newX := width - 0.011;
        }
        g.x := newX;
        g.speedx := 0.0;
        g.speedy := 0.0;
      }
    }

    /** `updateBase`: the clock moves on by `dt`, the floor and both lips go
        to `ys = amplitude * sin(currentTime * frequency)`, and every grain
        that has fallen a tenth of the height below the new floor is put
        back near the top at rest, counted in `totalFlow`. `draws[k]` holds the
        two `nextDouble()` values drawn for grain `k`. */
    method UpdateBase(draws: seq<Draw>)
      requires Valid() && |draws| == |grains|
      modifies this`currentTime, this`ys, this`totalFlow
      modifies leftBoundaryParticle`y, rightBoundaryParticle`y
      modifies grains`x, grains`y, grains`speedx, grains`speedy
      ensures Valid()
      ensures currentTime == old(currentTime) + dt
      ensures ys == BaseHeight(currentTime)
      ensures leftBoundaryParticle.y == ys && rightBoundaryParticle.y == ys
      ensures forall k :: 0 <= k < |grains| ==>
        grains[k].AsBody() == AfterUpdate(old(grains[k].AsBody()), draws[k], ys, width, height)
      ensures totalFlow == old(totalFlow) + CountFallen(old(Bodies(grains)), ys, height)
    {
      MoveFloor();
      ghost var bs := Bodies(grains);
      assert bs == old(Bodies(grains));
      RecycleFallen(draws);
    }

    /** The start of `updateBase`: the clock advances one step and the floor
        with its two lips moves to the base height of the new time. */
    method MoveFloor()
      requires Valid()
      modifies this`currentTime, this`ys, leftBoundaryParticle`y, rightBoundaryParticle`y
      ensures Valid()
      ensures currentTime == old(currentTime) + dt
      ensures ys == BaseHeight(currentTime)
      ensures leftBoundaryParticle.y == ys && rightBoundaryParticle.y == ys
      ensures forall k :: 0 <= k < |grains| ==> grains[k].AsBody() == old(grains[k].AsBody())
    {
      currentTime := currentTime + dt;
      ys := BaseHeight(currentTime);
      leftBoundaryParticle.UpdateBaseY(ys);
      rightBoundaryParticle.UpdateBaseY(ys);
    }

    /** The loop of `updateBase` over the grains, for the floor at `ys`. */
    method RecycleFallen(draws: seq<Draw>)
      requires |draws| == |grains| && Unique(grains)
      modifies this`totalFlow, grains`x, grains`y, grains`speedx, grains`speedy
      ensures forall k :: 0 <= k < |grains| ==>
        grains[k].AsBody() == AfterUpdate(old(grains[k].AsBody()), draws[k], ys, width, height)
      ensures totalFlow == old(totalFlow) + CountFallen(old(Bodies(grains)), ys, height)
    {
      ghost var bs := Bodies(grains);
      var k := 0;
      while k < |grains|
        invariant 0 <= k <= |grains|
        invariant forall j :: 0 <= j < k ==>
          grains[j].AsBody() == AfterUpdate(bs[j], draws[j], ys, width, height)
        invariant forall j :: k <= j < |grains| ==> grains[j].AsBody() == bs[j]
        invariant totalFlow == old(totalFlow) + CountFallen(bs[..k], ys, height)
      {
        k := RecycleStep(bs, old(totalFlow), draws, k);
      }
      assert bs[..k] == bs;
    }

    /** Grain `k` of the loop of `updateBase`: recycled if it has fallen,
        and then counted in `totalFlow`; the grains before it are done and
        those after it untouched. */
    method RecycleStep(ghost bs: seq<Body>, ghost flow: int, draws: seq<Draw>, k: int) returns (next: int)
      requires |draws| == |grains| && |bs| == |grains| && Unique(grains) && 0 <= k < |grains|
      requires forall j :: 0 <= j < k ==>
        grains[j].AsBody() == AfterUpdate(bs[j], draws[j], ys, width, height)
      requires forall j :: k <= j < |grains| ==> grains[j].AsBody() == bs[j]
      requires totalFlow == flow + CountFallen(bs[..k], ys, height)
      modifies this`totalFlow, grains`x, grains`y, grains`speedx, grains`speedy
      ensures next == k + 1
      ensures forall j :: 0 <= j < next ==>
        grains[j].AsBody() == AfterUpdate(bs[j], draws[j], ys, width, height)
      ensures forall j :: next <= j < |grains| ==> grains[j].AsBody() == bs[j]
      ensures totalFlow == flow + CountFallen(bs[..next], ys, height)
    {
      var g := grains[k];
      CountFallenPrefix(bs, k, ys, height);
      forall j | 0 <= j < |grains| && j != k
        ensures grains[j] != g
      {
        if j < k { UniqueAt(grains, j, k); } else { UniqueAt(grains, k, j); }
      }
      assert g.AsBody() == bs[k];
      var fallen := RecycleIfFallen(g, draws[k]);
      if fallen {
        totalFlow := totalFlow + 1;
      }
      next := k + 1;
    }

    /** No two grains share an id (`equals` and `forceMatrix` go by id). */
    ghost predicate DistinctIds()
      reads this
    {
      DistinctIdsOf(grains)
    }

    lemma DistinctGrainsDistinctIds(p: Particle, q: Particle)
      requires DistinctIds() && p in grains && q in grains && p != q
      ensures p.id != q.id
    {
      var a :| 0 <= a < |grains| && grains[a] == p;
      var b :| 0 <= b < |grains| && grains[b] == q;
      if a < b {
        DistinctIdAt(grains, a, b);
      } else {
        DistinctIdAt(grains, b, a);
      }
    }

    /** What one visit of the pass adds for a pair: the pair force when the
        pair is within `neighborRadius`. */
    function PairLaw(): (Body, Body) -> Vec {
      Gated(interaction, neighborRadius, sqrt)
    }

    /** The sum of all contact forces. */
    ghost function NetContact(): Vec
      reads this, grains`contactForce
    {
      SumVec(Contacts(grains))
    }

    /** Where every grain is, looked up by particle. */
    ghost function BodyMap(): (m: map<Particle, Body>)
      reads this, grains`x, grains`y, grains`speedx, grains`speedy
      ensures forall g :: g in m ==> g in grains
      ensures forall g :: g in grains ==> g in m && m[g] == g.AsBody()
    {
      map g | g in grains :: g.AsBody()
    }

    /** `pos` holds the body of every grain as it is now. */
    ghost predicate Snapshot(pos: map<Particle, Body>)
      reads this, grains`x, grains`y, grains`speedx, grains`speedy
    {
      forall g :: g in grains ==> At(g, pos)
    }

    /** `pos` holds the body of `g` as it is now. */
    ghost predicate At(g: Particle, pos: map<Particle, Body>)
      reads g`x, g`y, g`speedx, g`speedy
    {
      g in pos && pos[g] == g.AsBody()
    }

    /** The point lies in the box `[0, width) x [0, height)`. */
    predicate InBox(b: Body) {
      0.0 <= b.x < width && 0.0 <= b.y < height
    }

    /** Two points of the box in the same or neighbouring grid columns and
        rows. */
    ghost predicate NearCells(a: Body, b: Body)
    {
      Geometry() && InBox(a) && InBox(b)
      && -1 <= Slot(a.x, hCellLength) - Slot(b.x, hCellLength) <= 1
      && -1 <= Slot(a.y, vCellLength) - Slot(b.y, vCellLength) <= 1
    }

    /** Points whose cells are adjacent are in neighbouring columns and rows. */
    lemma AdjacentCellsAreNear(a: Body, b: Body)
      requires Geometry()
      requires CellAt(a.x, a.y).Some? && CellAt(b.x, b.y).Some?
      requires Adjacent(CellAt(a.x, a.y).value, CellAt(b.x, b.y).value, N)
      ensures NearCells(a, b)
    {
      CellIndexInRange(a.x, a.y, width, height, M, N);
      CellIndexInRange(b.x, b.y, width, height, M, N);
    }

    /** Points of one cell are in the same column and row. */
    lemma SameCellIsNear(p: Particle, q: Particle, c: int)
      requires Geometry() && CellOf(p) == Some(c) && CellOf(q) == Some(c)
      ensures NearCells(p.AsBody(), q.AsBody())
    {
      CellIndexInRange(p.x, p.y, width, height, M, N);
      CellIndexInRange(q.x, q.y, width, height, M, N);
    }

    /** A snapshot of exactly the grains is the map of their bodies. */
    lemma SnapshotIsBodyMap(pos: map<Particle, Body>)
      requires Snapshot(pos) && forall g :: g in pos ==> g in grains
      ensures BodyMap() == pos
    {
    }

    /** Whether the pass may record that `g` met `q`, for the bodies `pos`:
        `q` has another id, lies within `neighborRadius` of `g`, and both sit
        in the same or neighbouring cells. */
    ghost predicate MayMeet(g: Particle, q: Particle, pos: map<Particle, Body>)
    {
      g in pos && q in pos && q.id != g.id && Gap(pos[q], pos[g], sqrt) <= neighborRadius
      && NearCells(pos[g], pos[q])
    }

    /** What the pass records for a grain: only grains it may meet. */
    ghost predicate Recorded(g: Particle, pos: map<Particle, Body>)
      reads g`neighbors
    {
      forall q :: q in g.neighbors ==> MayMeet(g, q, pos)
    }

    /** A grain's contact force is the force law summed over the grains it
        met, in the order it met them. */
    ghost predicate Explained(g: Particle, pos: map<Particle, Body>)
      reads g`contactForce, g`neighbors
    {
      g in pos && (forall q :: q in g.neighbors ==> q in pos)
      && g.contactForce == RowSum(interaction, pos[g], Lookup(g.neighbors, pos))
    }

    /** The invariant of the force pass: for every grain, what it met is
        `Recorded` and its contact force is `Explained` by it. */
    ghost predicate PassInv(pos: map<Particle, Body>)
      reads this, grains`contactForce, grains`neighbors
    {
      forall g :: g in grains ==> Recorded(g, pos) && Explained(g, pos)
    }

    /** Whether `q` lies within `neighborRadius` of `g`, for the bodies
        `pos`: the test a visit of `g` to `q` makes. */
    ghost predicate Touch(g: Particle, q: Particle, pos: map<Particle, Body>) {
      g in pos && q in pos && Gap(pos[q], pos[g], sqrt) <= neighborRadius
    }

    /** What the visit `v` makes `g` record, for the bodies `pos`: the
        particle it looks at, when `g` is the one looking, or the one
        looking, when the visit is mutual and looks at `g`; either only when
        the two are within reach. */
    ghost function Recorded1(g: Particle, v: Visit, pos: map<Particle, Body>): seq<Particle> {
      if v.p == g then (if Touch(g, v.q, pos) then [v.q] else [])
      else if v.mutual && v.q == g && Touch(g, v.p, pos) then [v.p]
      else []
    }

    /** What the visits `vs` make `g` record, in order. */
    ghost function Recs(g: Particle, vs: seq<Visit>, pos: map<Particle, Body>): seq<Particle>
      decreases |vs|
    {
      if vs == [] then [] else Recs(g, vs[..|vs| - 1], pos) + Recorded1(g, vs[|vs| - 1], pos)
    }

    lemma RecsSnoc(vs: seq<Visit>, v: Visit, pos: map<Particle, Body>)
      ensures forall g :: Recs(g, vs + [v], pos) == Recs(g, vs, pos) + Recorded1(g, v, pos)
    {
      assert (vs + [v])[..|vs|] == vs;
    }

    /** The record the pass keeps, for the bodies `pos`: the neighbour list
        of each grain `g` is the list `nb0` gave it followed by what the
        visits `done` made it record. */
    ghost predicate Counted(pos: map<Particle, Body>, nb0: map<Particle, seq<Particle>>, done: seq<Visit>)
      reads this, grains`neighbors
    {
      forall g :: g in grains ==> g in nb0 && g.neighbors == nb0[g] + Recs(g, done, pos)
    }

    /** The grain `p`, which is `grains[k]`, meets `q`: the force `f` that
        `q` exerts on it joins its contact force and `q` joins the end of its
        neighbour list. */
    method Meet(p: Particle, ghost k: int, q: Particle, f: Vec, ghost pos: map<Particle, Body>)
      requires Geometry() && DistinctIds() && PassInv(pos)
      requires 0 <= k < |grains| && grains[k] == p
      requires MayMeet(p, q, pos) && f == interaction(pos[p], pos[q])
      modifies p`contactForce, p`neighbors
      ensures PassInv(pos)
      ensures p.contactForce == Add(old(p.contactForce), f) && p.neighbors == old(p.neighbors) + [q]
      ensures NetContact() == Add(old(NetContact()), f)
    {
      ghost var pn := p.neighbors;
      assert Explained(p, pos);
      PushContact(p, k, f);
      p.AddNeighbor(q);
      LookupSnoc(pn, q, pos);
      RowSumSnoc(interaction, pos[p], Lookup(pn, pos), pos[q]);
      assert Explained(p, pos) && Recorded(p, pos);
      forall g | g in grains
        ensures Recorded(g, pos) && Explained(g, pos)
      {
        if g != p {
          assert old(Recorded(g, pos) && Explained(g, pos));
        }
      }
    }

    /** The two `contactForce` additions for the grain `p`, which is
        `grains[k]`: its contact force and the net contact force both grow
        by `f`, and no other grain changes. */
    method PushContact(p: Particle, ghost k: int, f: Vec)
      requires DistinctIds() && 0 <= k < |grains| && grains[k] == p
      modifies p`contactForce
      ensures p.contactForce == Add(old(p.contactForce), f)
      ensures forall g :: g in grains && g != p ==> g.contactForce == old(g.contactForce)
      ensures NetContact() == Add(old(NetContact()), f)
    {
      ghost var c0 := Contacts(grains);
      p.contactForce := Add(p.contactForce, f);
      forall j | 0 <= j < |grains| && j != k
        ensures grains[j] != p
      {
        if j < k {
          DistinctIdAt(grains, j, k);
        } else {
          DistinctIdAt(grains, k, j);
        }
      }
      assert Contacts(grains) == c0[k := Add(c0[k], f)];
      SumVecUpdate(c0, k, Add(c0[k], f));
    }

    /** `q` is a grain `p` may meet in the force pass: another grain whose
        body in `pos` lies in the same or a neighbouring cell as that of `p`. */
    ghost predicate Mate(p: Particle, q: Particle, pos: map<Particle, Body>)
      reads this
    {
      q in grains && q.id != p.id && p in pos && q in pos && NearCells(pos[p], pos[q])
    }

    /** One visit of the stencil loop of `performCellIndexMethod`: a
        neighbour `q` within `neighborRadius` of `p` gets the opposite of the
        force `p` gets, and each records the other. */
    method ExertPair(p: Particle, q: Particle, ghost pos: map<Particle, Body>,
                     ghost nb0: map<Particle, seq<Particle>>, ghost done: seq<Visit>)
      requires Geometry() && Antisymmetric(interaction) && DistinctIds() && At(p, pos) && At(q, pos) && PassInv(pos)
      requires p in grains && Mate(p, q, pos) && Counted(pos, nb0, done)
      modifies p`contactForce, p`neighbors, q`contactForce, q`neighbors
      ensures PassInv(pos) && Counted(pos, nb0, done + [Visit(p, q, true)])
      ensures NetContact() == old(NetContact())
    {
      ghost var prior := map g | g in grains :: g.neighbors;
      assert forall g :: g in grains ==> g in nb0 && g in prior && prior[g] == nb0[g] + Recs(g, done, pos);
      GapSymmetric(pos[q], pos[p], sqrt);
      if q.GetDistance(p, sqrt) <= neighborRadius {
        MeetPair(p, q, pos);
      }
      assert Touch(q, p, pos) == Touch(p, q, pos) && p != q;
      PairRecord(p, q, pos, nb0, done, prior);
    }

    /** The body of the stencil loop for a pair within reach: the force `q`
        exerts on `p` and its opposite, and each records the other. */
    method MeetPair(p: Particle, q: Particle, ghost pos: map<Particle, Body>)
      requires Geometry() && Antisymmetric(interaction) && DistinctIds() && At(p, pos) && At(q, pos) && PassInv(pos)
      requires p in grains && Mate(p, q, pos) && Touch(p, q, pos)
      modifies p`contactForce, p`neighbors, q`contactForce, q`neighbors
      ensures PassInv(pos) && NetContact() == old(NetContact())
      ensures p.neighbors == old(p.neighbors) + [q] && q.neighbors == old(q.neighbors) + [p]
    {
      ghost var kp :| 0 <= kp < |grains| && grains[kp] == p;
      ghost var kq :| 0 <= kq < |grains| && grains[kq] == q;
      ghost var net := NetContact();
      var fnet := interaction(p.AsBody(), q.AsBody());
      GapSymmetric(pos[q], pos[p], sqrt);
      assert MayMeet(p, q, pos) && MayMeet(q, p, pos);
      assert interaction(pos[q], pos[p]) == Neg(fnet);
      Meet(p, kp, q, fnet, pos);
      ghost var net1 := NetContact();
      Meet(q, kq, p, Neg(fnet), pos);
      AddNegCancels(net, fnet);
      assert NetContact() == Add(net1, Neg(fnet));
    }

    /** A mutual visit of `p` to `q` that made each of the two record the
        other exactly when they are within reach, and changed no other
        neighbour list, keeps the record of the pass. */
    lemma PairRecord(p: Particle, q: Particle, pos: map<Particle, Body>, nb0: map<Particle, seq<Particle>>,
                     done: seq<Visit>, prior: map<Particle, seq<Particle>>)
      requires p != q && Touch(q, p, pos) == Touch(p, q, pos)
      requires forall g :: g in grains ==> g in nb0 && g in prior && prior[g] == nb0[g] + Recs(g, done, pos)
      requires forall g :: g in grains && g != p && g != q ==> g.neighbors == prior[g]
      requires p in grains ==> p.neighbors == prior[p] + (if Touch(p, q, pos) then [q] else [])
      requires q in grains ==> q.neighbors == prior[q] + (if Touch(p, q, pos) then [p] else [])
      ensures Counted(pos, nb0, done + [Visit(p, q, true)])
    {
      var v := Visit(p, q, true);
      forall g | g in grains
        ensures g.neighbors == prior[g] + Recorded1(g, v, pos)
      {
        if g != p && g != q {
          assert Recorded1(g, v, pos) == [];
        }
      }
      KeepRecord(pos, nb0, done, v, prior);
    }

    /** A visit of `p` to `q` that made `p` record `q` exactly when they are
        within reach, and changed no other neighbour list, keeps the record
        of the pass. */
    lemma OwnRecord(p: Particle, q: Particle, pos: map<Particle, Body>, nb0: map<Particle, seq<Particle>>,
                    done: seq<Visit>, prior: map<Particle, seq<Particle>>)
      requires forall g :: g in grains ==> g in nb0 && g in prior && prior[g] == nb0[g] + Recs(g, done, pos)
      requires forall g :: g in grains && g != p ==> g.neighbors == prior[g]
      requires p in grains ==> p.neighbors == prior[p] + (if Touch(p, q, pos) then [q] else [])
      ensures Counted(pos, nb0, done + [Visit(p, q, false)])
    {
      var v := Visit(p, q, false);
      forall g | g in grains
        ensures g.neighbors == prior[g] + Recorded1(g, v, pos)
      {
        if g != p {
          assert Recorded1(g, v, pos) == [];
        }
      }
      KeepRecord(pos, nb0, done, v, prior);
    }

    /** A visit `v` that extends every neighbour list by what it records
        keeps the record of the pass. */
    lemma KeepRecord(pos: map<Particle, Body>, nb0: map<Particle, seq<Particle>>, done: seq<Visit>, v: Visit,
                     prior: map<Particle, seq<Particle>>)
      requires forall g :: g in grains ==> g in nb0 && g in prior && prior[g] == nb0[g] + Recs(g, done, pos)
      requires forall g :: g in grains ==> g.neighbors == prior[g] + Recorded1(g, v, pos)
      ensures Counted(pos, nb0, done + [v])
    {
      RecsSnoc(done, v, pos);
      forall g | g in grains
        ensures g.neighbors == nb0[g] + Recs(g, done + [v], pos)
      {
        AppendAssoc(nb0[g], Recs(g, done, pos), Recorded1(g, v, pos));
      }
    }

    /** One visit of the own-cell loop of `performCellIndexMethod`: a
        cell-mate `q` within `neighborRadius` adds its force to `p` only. */
    method ExertOwn(p: Particle, q: Particle, ghost pos: map<Particle, Body>,
                    ghost nb0: map<Particle, seq<Particle>>, ghost done: seq<Visit>)
      requires Geometry() && DistinctIds() && At(p, pos) && At(q, pos) && PassInv(pos)
      requires p in grains && Mate(p, q, pos) && Counted(pos, nb0, done)
      modifies p`contactForce, p`neighbors
      ensures PassInv(pos) && Counted(pos, nb0, done + [Visit(p, q, false)])
      ensures NetContact() == Add(old(NetContact()), PairLaw()(pos[p], pos[q]))
    {
      ghost var prior := map g | g in grains :: g.neighbors;
      assert forall g :: g in grains ==> g in nb0 && g in prior && prior[g] == nb0[g] + Recs(g, done, pos);
      ghost var net := NetContact();
      ghost var touch := Touch(p, q, pos);
      assert touch == (q.GetDistance(p, sqrt) <= neighborRadius);
      if q.GetDistance(p, sqrt) <= neighborRadius {
        ghost var kp :| 0 <= kp < |grains| && grains[kp] == p;
        var fnet := interaction(p.AsBody(), q.AsBody());
        assert MayMeet(p, q, pos);
        Meet(p, kp, q, fnet, pos);
        assert PairLaw()(pos[p], pos[q]) == fnet;
      } else {
        assert PairLaw()(pos[p], pos[q]) == Zero;
        AddZero(net);
      }
      OwnRecord(p, q, pos, nb0, done, prior);
    }


    lemma {:induction false} GatherAppend(a: seq<int>, b: seq<int>)
      ensures Gather(grid, a + b) == Gather(grid, a) + Gather(grid, b)
      decreases |b|
    {
      if b != [] {
        var b0 := b[..|b| - 1];
        assert (a + b)[..|a + b| - 1] == a + b0;
        GatherAppend(a, b0);
      } else {
        assert a + b == a;
      }
    }

    /** Every particle gathered comes from one of the cells. */
    lemma {:induction false} GatheredCell(cells: seq<int>, q: Particle) returns (c: int)
      requires q in Gather(grid, cells)
      ensures c in cells && 0 <= c < |grid| && q in grid[c]
      decreases |cells|
    {
      var last := cells[|cells| - 1];
      if 0 <= last < |grid| && q in grid[last] {
        c := last;
      } else {
        c := GatheredCell(cells[..|cells| - 1], q);
      }
    }

    /** `getAboveAndRightAdjacentParticles`: the particles of the cells above,
        upper right, right and lower right of `cellIndex` that lie in the
        grid, in that order. */
    method GetAboveAndRightAdjacentParticles(cellIndex: int) returns (adjacentParticles: seq<Particle>)
      requires M >= 1 && N >= 1 && |grid| == M * N && 0 <= cellIndex < M * N
      ensures adjacentParticles == Gather(grid, Stencil(cellIndex, M, N))
    {
      adjacentParticles := [];
      var row := cellIndex / N;
      var col := cellIndex % N;
      var d := 0;
      while d < |Directions|
        invariant 0 <= d <= |Directions|
        invariant adjacentParticles == Gather(grid, Steps(row, col, Directions[..d], M, N))
      {
        var newRow := row + Directions[d].0;
        var newCol := col + Directions[d].1;
        GatherStep(row, col, d, newRow, newCol);
        if newRow >= 0 && newRow < M && newCol >= 0 && newCol < N {
          var neighborCellIndex := newRow * N + newCol;
          adjacentParticles := adjacentParticles + grid[neighborCellIndex];
        }
        d := d + 1;
      }
      assert Directions[..d] == Directions;
    }

    /** One direction more of the stencil adds the particles of the cell it
        reaches, when that cell is on the grid. */
    lemma GatherStep(row: int, col: int, d: int, r: int, c: int)
      requires M >= 1 && N >= 1 && |grid| == M * N && 0 <= d < |Directions|
      requires r == row + Directions[d].0 && c == col + Directions[d].1
      ensures 0 <= r < M && 0 <= c < N ==> 0 <= r * N + c < |grid|
      ensures Gather(grid, Steps(row, col, Directions[..d + 1], M, N))
           == Gather(grid, Steps(row, col, Directions[..d], M, N))
              + (if 0 <= r < M && 0 <= c < N then grid[r * N + c] else [])
    {
      var dir := Directions[d];
      var before := Steps(row, col, Directions[..d], M, N);
      var step := Step(row, col, dir, M, N);
      StepsSnoc(row, col, Directions, d, M, N);
      GatherAppend(before, step);
      StepValue(row, col, dir, M, N, r * N + c);
      if 0 <= r < M && 0 <= c < N {
        CellBelowCount(r, c, M, N);
        assert Gather(grid, step) == grid[r * N + c];
      }
    }

    /** A particle is in `InCell(gs, c)` exactly when it is one of `gs` and
        its position lies in cell `c`. */
    lemma {:induction false} InCellMembers(gs: seq<Particle>, c: int, q: Particle)
      requires Geometry()
      ensures q in InCell(gs, c) <==> q in gs && CellOf(q) == Some(c)
      decreases |gs|
    {
      if gs != [] {
        InCellMembers(gs[..|gs| - 1], c, q);
        assert gs == gs[..|gs| - 1] + [gs[|gs| - 1]];
      }
    }

    /** Picking the grains of one cell keeps ids distinct. */
    lemma {:induction false} InCellDistinctIds(gs: seq<Particle>, c: int)
      requires Geometry()
      requires forall a, b :: 0 <= a < b < |gs| ==> gs[a].id != gs[b].id
      ensures forall a, b :: 0 <= a < b < |InCell(gs, c)| ==> InCell(gs, c)[a].id != InCell(gs, c)[b].id
      decreases |gs|
    {
      if gs != [] {
        var init, last := gs[..|gs| - 1], gs[|gs| - 1];
        var r := InCell(init, c);
        InCellDistinctIds(init, c);
        if CellOf(last) == Some(c) {
          forall a | 0 <= a < |r|
            ensures r[a].id != last.id
          {
            InCellMembers(init, c, r[a]);
            var k :| 0 <= k < |init| && init[k] == r[a];
            assert gs[k].id != gs[|gs| - 1].id;
          }
          assert InCell(gs, c) == r + [last];
        }
      }
    }

    /** What the grid tells about the grains of cell `i`, once gridded:
        they are grains placed in cell `i`, with distinct ids. */
    lemma CellMembers(i: int)
      requires Gridded() && DistinctIds() && 0 <= i < M * N
      ensures forall q :: q in grid[i] ==> q in grains && CellOf(q) == Some(i)
      ensures forall a, b :: 0 <= a < b < |grid[i]| ==> grid[i][a].id != grid[i][b].id
    {
      forall q | q in grid[i]
        ensures q in grains && CellOf(q) == Some(i)
      {
        InCellMembers(grains, i, q);
      }
      DistinctIdPairs(grains);
      InCellDistinctIds(grains, i);
    }

    /** A particle of cell `i` and one gathered from its stencil are two
        grains in neighbouring columns and rows. */
    lemma StencilNeighbor(i: int, p: Particle, q: Particle)
      requires Gridded() && DistinctIds() && 0 <= i < M * N
      requires p in grid[i] && q in Gather(grid, Stencil(i, M, N))
      ensures p in grains && q in grains && p.id != q.id
      ensures NearCells(p.AsBody(), q.AsBody())
    {
      var c := GatheredCell(Stencil(i, M, N), q);
      StencilSound(i, M, N, c);
      InCellMembers(grains, c, q);
      InCellMembers(grains, i, p);
      DistinctGrainsDistinctIds(p, q);
      AdjacentCellsAreNear(p.AsBody(), q.AsBody());
    }

    /** `getCurrentCellParticles(i, p)`: a copy of cell `i` without `p`. */
    function CurrentCellParticles(i: int, p: Particle): seq<Particle>
      requires 0 <= i < |grid|
      reads this
    {
      RemoveFirstId(grid[i], p.id)
    }

    /** Every particle of the stencil of cell `i` is a `Mate` of each grain
        of the cell. */
    lemma StencilMates(i: int, p: Particle, pos: map<Particle, Body>)
      requires Gridded() && DistinctIds() && Snapshot(pos) && 0 <= i < M * N && p in grid[i]
      ensures p in grains
      ensures forall q :: q in Gather(grid, Stencil(i, M, N)) ==> Mate(p, q, pos)
    {
      CellMembers(i);
      forall q | q in Gather(grid, Stencil(i, M, N))
        ensures Mate(p, q, pos)
      {
        StencilNeighbor(i, p, q);
      }
    }

    /** The cell-mates of `grid[i][j]` that `getCurrentCellParticles`
        returns are the other grains of the cell, each one a `Mate`. */
    lemma CellMates(i: int, j: int, pos: map<Particle, Body>)
      requires Gridded() && DistinctIds() && Snapshot(pos)
      requires 0 <= i < M * N && 0 <= j < |grid[i]|
      ensures grid[i][j] in grains && forall q :: q in grid[i] ==> q in pos
      ensures forall q :: q in CurrentCellParticles(i, grid[i][j]) ==> q in pos
      ensures forall q :: q in CurrentCellParticles(i, grid[i][j]) ==> Mate(grid[i][j], q, pos)
      ensures Lookup(CurrentCellParticles(i, grid[i][j]), pos) == Lookup(grid[i], pos)[..j] + Lookup(grid[i], pos)[j + 1..]
    {
      var cell := grid[i];
      var particle := cell[j];
      var others := CurrentCellParticles(i, particle);
      CellMembers(i);
      RemoveFirstIdAt(cell, j);
      assert others == cell[..j] + cell[j + 1..];
      forall k | 0 <= k < |cell| && k != j
        ensures Mate(particle, cell[k], pos)
      {
        SameCellMate(i, j, k, pos);
      }
      LookupWithout(cell, j, pos);
    }

    /** Two grains of one cell are `Mate`s. */
    lemma SameCellMate(i: int, a: int, b: int, pos: map<Particle, Body>)
      requires Gridded() && DistinctIds() && Snapshot(pos)
      requires 0 <= i < M * N && 0 <= a < |grid[i]| && 0 <= b < |grid[i]| && a != b
      ensures Mate(grid[i][a], grid[i][b], pos)
    {
      CellMembers(i);
      if a < b {
        assert grid[i][a].id != grid[i][b].id;
      } else {
        assert grid[i][b].id != grid[i][a].id;
      }
      SameCellIsNear(grid[i][a], grid[i][b], i);
    }

    /** What the pass needs to know about the grain `grid[i][j]`, for the
        bodies `pos`: it is a grain, every particle of its stencil and every
        cell-mate is a `Mate` of it, and the bodies of its cell-mates are
        those of the cell without its own. */
    ghost predicate GrainLayout(i: int, j: int, pos: map<Particle, Body>)
      requires Geometry() && |grid| == M * N && 0 <= i < M * N && 0 <= j < |grid[i]|
      reads this
    {
      grid[i][j] in grains
      && (forall q :: q in Gather(grid, Stencil(i, M, N)) ==> Mate(grid[i][j], q, pos))
      && (forall q :: q in CurrentCellParticles(i, grid[i][j]) ==> q in pos)
      && (forall q :: q in CurrentCellParticles(i, grid[i][j]) ==> Mate(grid[i][j], q, pos))
      && (forall q :: q in grid[i] ==> q in pos)
      && Lookup(CurrentCellParticles(i, grid[i][j]), pos) == Lookup(grid[i], pos)[..j] + Lookup(grid[i], pos)[j + 1..]
    }

    /** `GrainLayout` for every grain of cell `i`. */
    ghost predicate CellLayout(i: int, pos: map<Particle, Body>)
      requires Geometry() && |grid| == M * N && 0 <= i < M * N
      reads this
    {
      (forall q :: q in grid[i] ==> q in pos)
      && forall j :: 0 <= j < |grid[i]| ==> GrainLayout(i, j, pos)
    }

    /** `CellLayout` for every cell. */
    ghost predicate Layout(pos: map<Particle, Body>)
      reads this
    {
      Geometry() && |grid| == M * N && forall i :: 0 <= i < M * N ==> CellLayout(i, pos)
    }

    lemma GrainLayoutHolds(i: int, j: int, pos: map<Particle, Body>)
      requires Gridded() && DistinctIds() && Snapshot(pos)
      requires 0 <= i < M * N && 0 <= j < |grid[i]|
      ensures GrainLayout(i, j, pos)
    {
      CellMates(i, j, pos);
      StencilMates(i, grid[i][j], pos);
    }

    /** The grid `resetGrid` built, read with the bodies of the grains as
        they are, gives every grain its `GrainLayout`. */
    lemma LayoutHolds(pos: map<Particle, Body>)
      requires Gridded() && DistinctIds() && Snapshot(pos)
      ensures Layout(pos)
    {
      forall i | 0 <= i < M * N
        ensures CellLayout(i, pos)
      {
        CellMembers(i);
        forall j | 0 <= j < |grid[i]|
          ensures GrainLayout(i, j, pos)
        {
          GrainLayoutHolds(i, j, pos);
        }
      }
    }

    /** The visits of the grain `gr[i][j]` of the grid `gr`: to each
        particle of the stencil of cell `i`, then to each of its cell-mates. */
    ghost function GrainVisits(gr: seq<seq<Particle>>, i: int, j: int): seq<Visit>
      requires N >= 1 && 0 <= i < |gr| && 0 <= j < |gr[i]|
    {
      Visits(gr[i][j], Gather(gr, Stencil(i, M, N)), true)
      + Visits(gr[i][j], RemoveFirstId(gr[i], gr[i][j].id), false)
    }

    /** The visits of the first `n` grains of cell `i`. */
    ghost function CellVisits(gr: seq<seq<Particle>>, i: int, n: int): seq<Visit>
      requires N >= 1 && 0 <= i < |gr| && 0 <= n <= |gr[i]|
      decreases n
    {
      if n == 0 then [] else CellVisits(gr, i, n - 1) + GrainVisits(gr, i, n - 1)
    }

    /** The visits of the first `n` cells of the grid, in index order. */
    ghost function PassVisits(gr: seq<seq<Particle>>, n: int): seq<Visit>
      requires N >= 1 && 0 <= n <= |gr|
      decreases n
    {
      if n == 0 then [] else PassVisits(gr, n - 1) + CellVisits(gr, n - 1, |gr[n - 1]|)
    }

    /** Whether the stencil of cell `c` reaches the cell `home` files `x`
        under: 1 when it does, 0 when not. */
    ghost function Reached(home: map<Particle, int>, c: int, x: Particle): nat
      requires N >= 1
    {
      if x in home && home[x] in Stencil(c, M, N) then 1 else 0
    }

    /** How often the grain `g`, filed under cell `c`, records `q` on its own
        visits: once if the stencil of `c` reaches `q`, once if `q` is
        another grain of `c`. */
    ghost function OwnHits(home: map<Particle, int>, c: int, g: Particle, q: Particle): nat
      requires N >= 1
    {
      Reached(home, c, q) + (if q in home && home[q] == c && q != g then 1 else 0)
    }

    /** The visits of the grain `gr[i][j]` make `g` record `q` on its own
        visits when it is `g`, and on mutual visits from the stencil of
        `i` when it is `q`. */
    lemma GrainHitsCount(gr: seq<seq<Particle>>, home: map<Particle, int>, i: int, j: int, g: Particle, q: Particle)
      requires N >= 1 && |gr| == M * N && Binned(gr, home) && 0 <= i < |gr| && 0 <= j < |gr[i]|
      ensures Hits(g, q, GrainVisits(gr, i, j))
           == (if gr[i][j] == g then OwnHits(home, i, g, q) else 0)
              + (if gr[i][j] == q && q != g then Reached(home, i, g) else 0)
    {
      var p := gr[i][j];
      var st := Gather(gr, Stencil(i, M, N));
      var own := RemoveFirstId(gr[i], p.id);
      HitsAppend(g, q, Visits(p, st, true), Visits(p, own, false));
      HitsOfVisits(g, q, p, st, true);
      HitsOfVisits(g, q, p, own, false);
      forall c
        ensures multiset(Stencil(i, M, N))[c] <= 1
      {
        StencilOnce(i, M, N, c);
      }
      forall c | 0 <= c < |gr|
        ensures multiset(gr[c])[q] == if q in home && home[q] == c then 1 else 0
        ensures multiset(gr[c])[g] == if g in home && home[g] == c then 1 else 0
      {
        BinnedCount(gr, home, c, q);
        BinnedCount(gr, home, c, g);
      }
      GatherCount(gr, home, Stencil(i, M, N), q);
      GatherCount(gr, home, Stencil(i, M, N), g);
      OwnCount(gr, home, i, p, q);
    }

    /** How often the grains `s` of cell `i` make `g` record `q`: the own
        visits of `g` when it is among them, and the mutual visits from the
        stencil of `i` to `g` when `q` is among them. */
    ghost function CellShare(home: map<Particle, int>, i: int, s: seq<Particle>, g: Particle, q: Particle): int
      requires N >= 1
    {
      (if g in s then OwnHits(home, i, g, q) else 0) + (if q in s && q != g then Reached(home, i, g) else 0)
    }

    /** The visits of the first `n` grains of cell `i` make `g` record `q`
        as the visits of `g` and of `q` do, when they are among them. */
    lemma CellHitsCount(gr: seq<seq<Particle>>, home: map<Particle, int>, i: int, n: int, g: Particle, q: Particle)
      requires N >= 1 && |gr| == M * N && Binned(gr, home) && 0 <= i < |gr| && 0 <= n <= |gr[i]|
      ensures Hits(g, q, CellVisits(gr, i, n)) == CellShare(home, i, gr[i][..n], g, q)
    {
      forall k | 0 <= k < n
        ensures CellShare(home, i, gr[i][..k + 1], g, q)
             == CellShare(home, i, gr[i][..k], g, q) + Hits(g, q, GrainVisits(gr, i, k))
      {
        CellShareStep(gr, home, i, k + 1, g, q);
      }
      CellHitsSum(gr, home, i, n, g, q);
    }

    /** Summing the steps of `CellShareStep` over the first `n` grains. */
    lemma {:induction false} CellHitsSum(gr: seq<seq<Particle>>, home: map<Particle, int>, i: int, n: int,
                                         g: Particle, q: Particle)
      requires N >= 1 && 0 <= i < |gr| && 0 <= n <= |gr[i]|
      requires forall k {:trigger GrainVisits(gr, i, k)} :: 0 <= k < n ==>
        CellShare(home, i, gr[i][..k + 1], g, q) == CellShare(home, i, gr[i][..k], g, q) + Hits(g, q, GrainVisits(gr, i, k))
      ensures Hits(g, q, CellVisits(gr, i, n)) == CellShare(home, i, gr[i][..n], g, q)
      decreases n
    {
      if n > 0 {
        CellHitsSum(gr, home, i, n - 1, g, q);
        var before, visits := CellVisits(gr, i, n - 1), GrainVisits(gr, i, n - 1);
        assert CellVisits(gr, i, n) == before + visits;
        HitsAppend(g, q, before, visits);
      } else {
        assert gr[i][..n] == [];
      }
    }

    /** Taking in the grain `gr[i][n - 1]` adds to `CellShare` what that
        grain's visits make `g` record `q`. */
    lemma CellShareStep(gr: seq<seq<Particle>>, home: map<Particle, int>, i: int, n: int, g: Particle, q: Particle)
      requires N >= 1 && |gr| == M * N && Binned(gr, home) && 0 <= i < |gr| && 0 < n <= |gr[i]|
      ensures CellShare(home, i, gr[i][..n], g, q)
           == CellShare(home, i, gr[i][..n - 1], g, q) + Hits(g, q, GrainVisits(gr, i, n - 1))
    {
      var cell, p := gr[i], gr[i][n - 1];
      GrainHitsCount(gr, home, i, n - 1, g, q);
      var own, reached := OwnHits(home, i, g, q), Reached(home, i, g);
      DistinctIdsUnique(cell);
      UniquePrefix(cell, n);
      assert g in cell[..n] <==> g in cell[..n - 1] || g == p;
      assert q in cell[..n] <==> q in cell[..n - 1] || q == p;
      SplitCount(g in cell[..n], g in cell[..n - 1], p == g,
                 q in cell[..n] && q != g, q in cell[..n - 1] && q != g, p == q && q != g, own, reached);
    }

    /** The visits of the first `n` cells make `g` record `q` as the visits
        of `g` and of `q` do, when those two are filed under such cells. */
    lemma {:induction false} PassHitsCount(gr: seq<seq<Particle>>, home: map<Particle, int>, n: int,
                                           g: Particle, q: Particle)
      requires N >= 1 && |gr| == M * N && Binned(gr, home) && 0 <= n <= |gr|
      ensures Hits(g, q, PassVisits(gr, n))
           == (if g in home && home[g] < n then OwnHits(home, home[g], g, q) else 0)
              + (if q in home && home[q] < n && q != g then Reached(home, home[q], g) else 0)
      decreases n
    {
      if n > 0 {
        var cell := gr[n - 1];
        PassHitsCount(gr, home, n - 1, g, q);
        HitsAppend(g, q, PassVisits(gr, n - 1), CellVisits(gr, n - 1, |cell|));
        CellHitsCount(gr, home, n - 1, |cell|, g, q);
        assert cell[..|cell|] == cell;
        assert g in cell <==> g in home && home[g] == n - 1;
        assert q in cell <==> q in home && home[q] == n - 1;
      }
    }

    /** Over the whole grid the pass makes `g` record `q` exactly once when
        the two are different particles filed under the same or
        neighbouring cells, and never otherwise. */
    lemma PairFoundOnce(gr: seq<seq<Particle>>, home: map<Particle, int>, g: Particle, q: Particle)
      requires N >= 1 && |gr| == M * N && Binned(gr, home)
      ensures Hits(g, q, PassVisits(gr, |gr|))
           == if g in home && q in home && g != q && Adjacent(home[g], home[q], N) then 1 else 0
    {
      PassHitsCount(gr, home, |gr|, g, q);
      if g in home {
        var a := home[g];
        if a in Stencil(a, M, N) {
          StencilSound(a, M, N, a);
        }
        if q in home {
          var b := home[q];
          if b in Stencil(a, M, N) {
            StencilSound(a, M, N, b);
          }
          if a in Stencil(b, M, N) {
            StencilSound(b, M, N, a);
          }
          if a != b && Adjacent(a, b, N) {
            StencilCoversEachPairOnce(a, b, M, N);
          }
        }
      }
    }

    /** The visits `vs` make `g` record `q` once for each visit that reaches
        the pair when the two are within reach, and never otherwise. */
    lemma {:induction false} RecsCount(g: Particle, vs: seq<Visit>, pos: map<Particle, Body>, q: Particle)
      ensures multiset(Recs(g, vs, pos))[q] == if Touch(g, q, pos) then Hits(g, q, vs) else 0
      decreases |vs|
    {
      if vs != [] {
        var init, v := vs[..|vs| - 1], vs[|vs| - 1];
        RecsCount(g, init, pos, q);
        assert multiset(Recs(g, vs, pos)) == multiset(Recs(g, init, pos)) + multiset(Recorded1(g, v, pos));
      }
    }

    /** The cell each body of `pos` inside the box falls into. */
    ghost function Homes(pos: map<Particle, Body>): (home: map<Particle, int>)
      requires Geometry()
      ensures forall g :: g in home ==> g in pos && CellAt(pos[g].x, pos[g].y) == Some(home[g])
      ensures forall g :: g in pos && CellAt(pos[g].x, pos[g].y).Some? ==> g in home
    {
      map g | g in pos && CellAt(pos[g].x, pos[g].y).Some? :: CellAt(pos[g].x, pos[g].y).value
    }

    /** The grid `resetGrid` built files every grain inside the box under
        the cell its body falls into. */
    lemma GriddedIsBinned(pos: map<Particle, Body>)
      requires Gridded() && DistinctIds() && Snapshot(pos) && forall g :: g in pos ==> g in grains
      ensures Binned(grid, Homes(pos))
    {
      var home := Homes(pos);
      forall c, p | 0 <= c < |grid| && p in grid[c]
        ensures p in home && home[p] == c
      {
        InCellMembers(grains, c, p);
      }
      forall p | p in home
        ensures 0 <= home[p] < |grid| && p in grid[home[p]]
      {
        CellIndexInRange(p.x, p.y, width, height, M, N);
        InCellMembers(grains, home[p], p);
      }
      DistinctIdPairs(grains);
      forall c | 0 <= c < |grid|
        ensures DistinctIdsOf(grid[c])
      {
        InCellDistinctIds(grains, c);
        DistinctIdsOfPairs(grid[c]);
      }
    }

    /** Two points are in neighbouring columns and rows of the box exactly
        when both have a cell and the two cells are adjacent. */
    lemma NearIsAdjacent(a: Body, b: Body)
      requires Geometry()
      ensures NearCells(a, b)
          <==> CellAt(a.x, a.y).Some? && CellAt(b.x, b.y).Some?
               && Adjacent(CellAt(a.x, a.y).value, CellAt(b.x, b.y).value, N)
    {
      CellIndexInRange(a.x, a.y, width, height, M, N);
      CellIndexInRange(b.x, b.y, width, height, M, N);
    }

    /** Whether the pass finds `q` for `g`, for the bodies `pos`: another
        particle in the same or a neighbouring cell, within
        `neighborRadius` of `g`. */
    ghost predicate Finds(g: Particle, q: Particle, pos: map<Particle, Body>) {
      g != q && Touch(g, q, pos) && NearCells(pos[g], pos[q])
    }

    /** The particles the pass finds for `g`, for the bodies `pos`. */
    ghost function Finding(g: Particle, pos: map<Particle, Body>): set<Particle> {
      set q | q in pos && Finds(g, q, pos)
    }

    /** The particles of `s` the pass finds for `g`, in order. */
    ghost function Found(g: Particle, s: seq<Particle>, pos: map<Particle, Body>): (r: seq<Particle>)
      ensures forall q :: q in r ==> q in s && Finds(g, q, pos)
    {
      Keep(s, Finding(g, pos))
    }

    /** Over the grid `resetGrid` built, the visits of the whole pass make
        every grain record each particle the pass finds for it exactly
        once, and nothing else. */
    lemma PassFindsAll(pos: map<Particle, Body>)
      requires Gridded() && DistinctIds() && Snapshot(pos) && forall g :: g in pos ==> g in grains
      ensures forall g :: g in grains ==> multiset(Recs(g, PassVisits(grid, |grid|), pos)) == multiset(Found(g, grains, pos))
    {
      GriddedIsBinned(pos);
      DistinctIdsUnique(grains);
      forall g | g in grains
        ensures multiset(Recs(g, PassVisits(grid, |grid|), pos)) == multiset(Found(g, grains, pos))
      {
        GrainFindsAll(grid, pos, grains, g);
      }
    }

    /** `PassFindsAll` for one grain `g`. */
    lemma GrainFindsAll(gr: seq<seq<Particle>>, pos: map<Particle, Body>, s: seq<Particle>, g: Particle)
      requires Geometry() && |gr| == M * N && Binned(gr, Homes(pos)) && Unique(s)
      requires g in pos && forall x :: x in pos <==> x in s
      ensures multiset(Recs(g, PassVisits(gr, |gr|), pos)) == multiset(Found(g, s, pos))
    {
      var a, b := multiset(Recs(g, PassVisits(gr, |gr|), pos)), multiset(Found(g, s, pos));
      forall q
        ensures a[q] == b[q]
      {
        CountsAgree(gr, pos, s, g, q);
      }
      MultisetsAgree(a, b);
    }

    /** The count of `q` among what the pass records for `g` and among what
        it finds for `g` agree, for a grid filing the bodies `pos`. */
    lemma CountsAgree(gr: seq<seq<Particle>>, pos: map<Particle, Body>, s: seq<Particle>, g: Particle, q: Particle)
      requires Geometry() && |gr| == M * N && Binned(gr, Homes(pos)) && Unique(s)
      requires g in pos && forall x :: x in pos <==> x in s
      ensures multiset(Recs(g, PassVisits(gr, |gr|), pos))[q] == multiset(Found(g, s, pos))[q]
    {
      var home := Homes(pos);
      RecsCount(g, PassVisits(gr, |gr|), pos, q);
      PairFoundOnce(gr, home, g, q);
      KeepCount(s, Finding(g, pos), q);
      if q in pos {
        NearIsAdjacent(pos[g], pos[q]);
      }
    }

    /** The stencil loop for the grain `p`: every contact recorded is a pair
        force and its opposite, so the net contact force does not change. */
    method VisitStencil(p: Particle, neighbors: seq<Particle>, ghost pos: map<Particle, Body>,
                        ghost nb0: map<Particle, seq<Particle>>, ghost done: seq<Visit>)
      requires Geometry() && Antisymmetric(interaction) && DistinctIds() && Snapshot(pos) && PassInv(pos)
      requires p in grains && (forall q :: q in neighbors ==> Mate(p, q, pos)) && Counted(pos, nb0, done)
      modifies grains`contactForce, grains`neighbors
      ensures Snapshot(pos) && PassInv(pos) && NetContact() == old(NetContact())
      ensures Counted(pos, nb0, done + Visits(p, neighbors, true))
    {
      var a := 0;
      assert neighbors[..a] == [];
      AppendNil(done);
      while a < |neighbors|
        invariant 0 <= a <= |neighbors|
        invariant Snapshot(pos) && PassInv(pos) && NetContact() == old(NetContact())
        invariant Counted(pos, nb0, done + Visits(p, neighbors[..a], true))
      {
        a := StencilStep(p, neighbors, a, old(NetContact()), pos, nb0, done);
      }
      assert neighbors[..a] == neighbors;
    }

    /** One visit of the stencil loop: the record of the pass grows by the
        mutual visit of `p` to `neighbors[a]`. */
    method StencilStep(p: Particle, neighbors: seq<Particle>, a: int, ghost base: Vec, ghost pos: map<Particle, Body>,
                       ghost nb0: map<Particle, seq<Particle>>, ghost done: seq<Visit>)
      returns (next: int)
      requires Geometry() && Antisymmetric(interaction) && DistinctIds() && Snapshot(pos) && PassInv(pos)
      requires p in grains && 0 <= a < |neighbors| && forall q :: q in neighbors ==> Mate(p, q, pos)
      requires NetContact() == base && Counted(pos, nb0, done + Visits(p, neighbors[..a], true))
      modifies grains`contactForce, grains`neighbors
      ensures next == a + 1 && PassInv(pos) && NetContact() == base
      ensures Counted(pos, nb0, done + Visits(p, neighbors[..next], true))
    {
      var neighbor := neighbors[a];
      assert neighbor in neighbors;
      ghost var vs := done + Visits(p, neighbors[..a], true);
      ExertPair(p, neighbor, pos, nb0, vs);
      VisitsStep(done, p, neighbors, a, true);
      next := a + 1;
    }

    /** The own-cell loop for the grain `p` over its cell-mates `others`:
        the net contact force grows by the row of pair forces on `p`. */
    method VisitOwnCell(p: Particle, others: seq<Particle>, ghost pos: map<Particle, Body>,
                        ghost nb0: map<Particle, seq<Particle>>, ghost done: seq<Visit>)
      requires Geometry() && DistinctIds() && Snapshot(pos) && PassInv(pos) && Counted(pos, nb0, done)
      requires p in grains && (forall q :: q in others ==> q in pos) && forall q :: q in others ==> Mate(p, q, pos)
      modifies grains`contactForce, grains`neighbors
      ensures Snapshot(pos) && PassInv(pos) && Counted(pos, nb0, done + Visits(p, others, false))
      ensures NetContact() == Add(old(NetContact()), RowSum(PairLaw(), pos[p], Lookup(others, pos)))
    {
      var b := 0;
      assert others[..b] == [];
      AppendNil(done);
      while b < |others|
        invariant 0 <= b <= |others|
        invariant Snapshot(pos) && PassInv(pos) && Counted(pos, nb0, done + Visits(p, others[..b], false))
        invariant NetContact() == Add(old(NetContact()), RowSum(PairLaw(), pos[p], Lookup(others[..b], pos)))
      {
        b := VisitMate(p, others, b, old(NetContact()), pos, nb0, done);
      }
      assert others[..b] == others;
    }

    /** One visit of the own-cell loop: the row of pair forces on `p` grows
        by the force of the cell-mate `others[b]`. */
    method VisitMate(p: Particle, others: seq<Particle>, b: int, ghost base: Vec, ghost pos: map<Particle, Body>,
                     ghost nb0: map<Particle, seq<Particle>>, ghost done: seq<Visit>)
      returns (next: int)
      requires Geometry() && DistinctIds() && Snapshot(pos) && PassInv(pos)
      requires p in grains && 0 <= b < |others|
      requires (forall q :: q in others ==> q in pos) && forall q :: q in others ==> Mate(p, q, pos)
      requires NetContact() == Add(base, RowSum(PairLaw(), pos[p], Lookup(others[..b], pos)))
      requires Counted(pos, nb0, done + Visits(p, others[..b], false))
      modifies grains`contactForce, grains`neighbors
      ensures next == b + 1 && PassInv(pos) && Counted(pos, nb0, done + Visits(p, others[..next], false))
      ensures NetContact() == Add(base, RowSum(PairLaw(), pos[p], Lookup(others[..next], pos)))
    {
      var neighbor := others[b];
      assert neighbor in others;
      ghost var vs := done + Visits(p, others[..b], false);
      ExertOwn(p, neighbor, pos, nb0, vs);
      VisitsStep(done, p, others, b, false);
      RowStep(PairLaw(), base, pos[p], others, b, pos);
      next := b + 1;
    }

    /** Cell `i` of `performCellIndexMethod`: each grain of the cell visits
        its stencil, then its cell-mates. Stencil contacts come in opposite
        pairs and every cell-mate pair is visited from both sides, so the net
        contact force does not change. */
    /** What holds of cell `i` throughout its turn of the pass. */
    ghost predicate CellFrame(i: int, bs: seq<Body>, pos: map<Particle, Body>, gr: seq<seq<Particle>>)
      reads this
    {
      Geometry() && |grid| == M * N && Antisymmetric(interaction) && DistinctIds()
      && 0 <= i < M * N && gr == grid && CellLayout(i, pos) && bs == Lookup(grid[i], pos)
    }

    /** How far the pass has got through cell `i`, whose bodies are `bs`:
        its first `j` grains have made their visits, which the record
        `Counted` holds on top of `done`, and have added their rows over
        their cell-mates to the net contact force `base`. */
    ghost predicate CellProgress(i: int, j: int, bs: seq<Body>, base: Vec, pos: map<Particle, Body>,
                                 nb0: map<Particle, seq<Particle>>, done: seq<Visit>, gr: seq<seq<Particle>>)
      reads this, grains`contactForce, grains`neighbors, grains`x, grains`y, grains`speedx, grains`speedy
    {
      Geometry() && 0 <= i < |gr| && 0 <= j <= |gr[i]| && j <= |bs| && N >= 1 && |gr| == M * N
      && Snapshot(pos) && PassInv(pos)
      && Counted(pos, nb0, done + CellVisits(gr, i, j))
      && NetContact() == Add(base, RowsWithoutSelf(PairLaw(), bs, j))
    }

    method VisitCell(i: int, ghost pos: map<Particle, Body>,
                     ghost nb0: map<Particle, seq<Particle>>, ghost gr: seq<seq<Particle>>, ghost net: Vec)
      requires PassFrame(pos, gr) && 0 <= i < M * N && PassAt(i, pos, nb0, gr, net)
      modifies grains`contactForce, grains`neighbors
      ensures PassAt(i + 1, pos, nb0, gr, net)
    {
      ghost var done := PassVisits(gr, i);
      assert CellLayout(i, pos);
      var cell := grid[i];
      ghost var bs, net0 := Lookup(cell, pos), NetContact();
      var j := 0;
      AppendNil(done);
      AddZero(net0);
      assert CellFrame(i, bs, pos, gr);
      while j < |cell|
        invariant 0 <= j <= |cell|
        invariant CellProgress(i, j, bs, net0, pos, nb0, done, gr)
      {
        VisitGrain(i, j, bs, net0, pos, nb0, done, gr);
        j := j + 1;
      }
      GatedAntisymmetric(interaction, neighborRadius, sqrt);
      SameCellRowsCancel(PairLaw(), bs);
      AddZero(net0);
      PassVisitsNext(gr, i);
    }

    /** Visits cell `i` and gives the index of the next cell. */
    method StepCell(i: int, ghost pos: map<Particle, Body>,
                    ghost nb0: map<Particle, seq<Particle>>, ghost gr: seq<seq<Particle>>, ghost net: Vec)
      returns (next: int)
      requires PassFrame(pos, gr) && 0 <= i < M * N && PassAt(i, pos, nb0, gr, net)
      modifies grains`contactForce, grains`neighbors
      ensures next == i + 1 && PassAt(next, pos, nb0, gr, net)
    {
      VisitCell(i, pos, nb0, gr, net);
      next := i + 1;
    }

    /** The grain `grid[i][j]` of `performCellIndexMethod`, `bs` being the
        bodies of cell `i`: its stencil leaves the net contact force as it
        was, its cell-mates add the row of the grain over them. */
    method VisitGrain(i: int, j: int, ghost bs: seq<Body>, ghost base: Vec, ghost pos: map<Particle, Body>,
                      ghost nb0: map<Particle, seq<Particle>>, ghost done: seq<Visit>, ghost gr: seq<seq<Particle>>)
      requires CellFrame(i, bs, pos, gr) && CellProgress(i, j, bs, base, pos, nb0, done, gr) && j < |grid[i]|
      modifies grains`contactForce, grains`neighbors
      ensures CellProgress(i, j + 1, bs, base, pos, nb0, done, gr)
    {
      var particle := grid[i][j];
      assert GrainLayout(i, j, pos);
      var neighbors := GetAboveAndRightAdjacentParticles(i);
      var others := CurrentCellParticles(i, particle);
      ghost var before := done + CellVisits(gr, i, j);
      ghost var stencil, own := Visits(particle, neighbors, true), Visits(particle, others, false);
      assert GrainVisits(gr, i, j) == stencil + own;
      AppendAssoc(before, stencil, own);
      AppendAssoc(done, CellVisits(gr, i, j), GrainVisits(gr, i, j));
      ghost var sofar := RowsWithoutSelf(PairLaw(), bs, j);
      ghost var row := RowSum(PairLaw(), bs[j], bs[..j] + bs[j + 1..]);
      RowsWithoutSelfNext(PairLaw(), bs, j);
      ghost var net := NetContact();
      assert net == Add(base, sofar);
      VisitStencil(particle, neighbors, pos, nb0, before);
      VisitOwnCell(particle, others, pos, nb0, before + stencil);
      assert NetContact() == Add(net, row);
      AddAssoc(base, sofar, row);
    }

    /** What holds throughout the pass over the grid `gr`. */
    ghost predicate PassFrame(pos: map<Particle, Body>, gr: seq<seq<Particle>>)
      reads this
    {
      Layout(pos) && Antisymmetric(interaction) && DistinctIds() && gr == grid
    }

    /** The pass has visited the first `i` cells of `gr`: every body is
        still the one `pos` holds, the record `PassVisits` describes is
        kept, and the contact forces still sum to `net`. */
    ghost predicate PassAt(i: int, pos: map<Particle, Body>, nb0: map<Particle, seq<Particle>>,
                           gr: seq<seq<Particle>>, net: Vec)
      reads this, grains`contactForce, grains`neighbors, grains`x, grains`y, grains`speedx, grains`speedy
    {
      N >= 1 && 0 <= i <= |gr| && Snapshot(pos) && PassInv(pos) && NetContact() == net
      && Counted(pos, nb0, PassVisits(gr, i))
    }

    lemma PassVisitsNext(gr: seq<seq<Particle>>, i: int)
      requires N >= 1 && 0 <= i < |gr|
      ensures PassVisits(gr, i + 1) == PassVisits(gr, i) + CellVisits(gr, i, |gr[i]|)
    {
    }

    /** `performCellIndexMethod`: every cell in index order. On the grid
        `resetGrid` built, it leaves every grain's contact force explained by
        the grains it met, and the contact forces sum to what they were. */
    method PerformCellIndexMethod()
      requires Gridded() && Antisymmetric(interaction) && DistinctIds() && PassInv(BodyMap())
      modifies grains`contactForce, grains`neighbors
      ensures Gridded() && PassInv(BodyMap()) && NetContact() == old(NetContact())
      ensures forall g :: g in grains ==>
        multiset(g.neighbors) == multiset(old(g.neighbors)) + multiset(Found(g, grains, BodyMap()))
    {
      ghost var pos := BodyMap();
      ghost var nb0 := map g | g in grains :: g.neighbors;
      ghost var net := NetContact();
      LayoutHolds(pos);
      VisitCells(pos, nb0, grid, net);
      SnapshotIsBodyMap(pos);
    }

    /** Once the pass has visited every cell of the grid `resetGrid` built,
        each grain has added to its neighbour list every particle the pass
        finds for it, once each, and nothing else. */
    lemma PassRecordsFound(pos: map<Particle, Body>, nb0: map<Particle, seq<Particle>>)
      requires Gridded() && DistinctIds() && Snapshot(pos) && forall g :: g in pos ==> g in grains
      requires Counted(pos, nb0, PassVisits(grid, |grid|))
      ensures forall g :: g in grains ==> g in nb0 && multiset(g.neighbors) == multiset(nb0[g]) + multiset(Found(g, grains, pos))
    {
      PassFindsAll(pos);
    }

    /** The loop of `performCellIndexMethod` over the cells, for the bodies
        `pos` and the neighbour lists `nb0` the grains had before it. */
    method VisitCells(ghost pos: map<Particle, Body>, ghost nb0: map<Particle, seq<Particle>>,
                      ghost gr: seq<seq<Particle>>, ghost net: Vec)
      requires Gridded() && PassFrame(pos, gr) && PassAt(0, pos, nb0, gr, net)
      requires forall g :: g in pos ==> g in grains
      modifies grains`contactForce, grains`neighbors
      ensures PassAt(|gr|, pos, nb0, gr, net)
      ensures forall g :: g in grains ==> g in nb0 && multiset(g.neighbors) == multiset(nb0[g]) + multiset(Found(g, grains, pos))
    {
      var n := |grid|;
      var i := 0;
      while i < n
        invariant 0 <= i <= n
        invariant PassAt(i, pos, nb0, gr, net)
      {
        i := StepCell(i, pos, nb0, gr, net);
      }
      PassRecordsFound(pos, nb0);
    }

    /** The row `getForceMatrix` writes for the grain `g`. */
    ghost function ForceRow(g: Particle): Vec
      reads this`ys, g`x, g`y, g`speedx, g`speedy, g`contactForce
      reads leftBoundaryParticle`x, leftBoundaryParticle`y, leftBoundaryParticle`speedx, leftBoundaryParticle`speedy
      reads rightBoundaryParticle`x, rightBoundaryParticle`y, rightBoundaryParticle`speedx, rightBoundaryParticle`speedy
    {
      GrainForce(g.AsBody(), g.contactForce, width, opening, ys, kn,
                 leftBoundaryParticle.AsBody(), rightBoundaryParticle.AsBody(), sqrt)
    }

    /** The rows of the particles of `s`, in order. */
    ghost function ForceRows(s: seq<Particle>): (r: seq<Vec>)
      reads this`ys, s`x, s`y, s`speedx, s`speedy, s`contactForce
      reads leftBoundaryParticle`x, leftBoundaryParticle`y, leftBoundaryParticle`speedx, leftBoundaryParticle`speedy
      reads rightBoundaryParticle`x, rightBoundaryParticle`y, rightBoundaryParticle`speedx, rightBoundaryParticle`speedy
      ensures |r| == |s| && forall k {:trigger ForceRow(s[k])} :: 0 <= k < |s| ==> r[k] == ForceRow(s[k])
      decreases |s|
    {
      if s == [] then [] else ForceRows(s[..|s| - 1]) + [ForceRow(s[|s| - 1])]
    }

    /** Whether the pass makes the grain at `a` meet the one at `b`: they
        lie in the same or neighbouring cells and within `neighborRadius`. */
    ghost predicate Near(a: Body, b: Body) {
      Gap(b, a, sqrt) <= neighborRadius && NearCells(a, b)
    }

    /** The bodies among the first `n` of `bs`, other than `bs[k]` itself,
        that `bs[k]` is `Near`, in order. */
    ghost function Nearby(bs: seq<Body>, k: int, n: int): (r: seq<Body>)
      requires 0 <= k < |bs| && 0 <= n <= |bs|
      ensures forall b :: b in r ==> b in bs[..n] && Near(bs[k], b)
      decreases n
    {
      if n == 0 then []
      else Nearby(bs, k, n - 1) + (if n - 1 != k && Near(bs[k], bs[n - 1]) then [bs[n - 1]] else [])
    }

    /** With `sqrt` a square root and cells longer than `neighborRadius`
        plus two radii `R`, grains of radius at most `R` that lie within
        `neighborRadius` of each other are in the same or neighbouring
        cells: the pass meets every pair inside the box within reach. */
    lemma ReachIsNear(a: Body, b: Body, R: real)
      requires Geometry() && SquareRoot(sqrt) && a.r <= R && b.r <= R
      requires neighborRadius + 2.0 * R < hCellLength && neighborRadius + 2.0 * R < vCellLength
      ensures Near(a, b) <==> InBox(a) && InBox(b) && Gap(b, a, sqrt) <= neighborRadius
    {
      if InBox(a) && InBox(b) && Gap(b, a, sqrt) <= neighborRadius {
        GapBoundsLegs(a, b, sqrt, neighborRadius, R);
        CloseSlots(a.x, b.x, hCellLength);
        CloseSlots(a.y, b.y, vCellLength);
      }
    }

    /** The bodies among the first `n` of `bs`, other than `bs[k]`, inside
        the box and within `neighborRadius` of `bs[k]`, wherever they lie:
        what a pass over every pair would find. */
    ghost function InReach(bs: seq<Body>, k: int, n: int): seq<Body>
      requires 0 <= k < |bs| && 0 <= n <= |bs|
      decreases n
    {
      if n == 0 then []
      else
        var b := bs[n - 1];
        InReach(bs, k, n - 1)
        + (if n - 1 != k && InBox(bs[k]) && InBox(b) && Gap(b, bs[k], sqrt) <= neighborRadius then [b] else [])
    }

    /** Under the grid's sizing, the grains the cell-index pass meets are
        exactly those a pass over every pair would find, in the same order. */
    lemma {:induction false} NearbyIsInReach(bs: seq<Body>, k: int, n: int, R: real)
      requires Geometry() && SquareRoot(sqrt) && 0 <= k < |bs| && 0 <= n <= |bs|
      requires forall j :: 0 <= j < |bs| ==> bs[j].r <= R
      requires neighborRadius + 2.0 * R < hCellLength && neighborRadius + 2.0 * R < vCellLength
      ensures Nearby(bs, k, n) == InReach(bs, k, n)
      decreases n
    {
      if n > 0 {
        NearbyIsInReach(bs, k, n - 1, R);
        ReachIsNear(bs[k], bs[n - 1], R);
      }
    }

    /** The contact force of the grain at `bs[k]` among the grains at `bs`:
        the force law summed over those it is `Near`. */
    ghost function ContactSum(bs: seq<Body>, k: int): Vec
      requires 0 <= k < |bs|
    {
      RowSum(interaction, bs[k], Nearby(bs, k, |bs|))
    }

    /** The rows of the force matrix for grains at `bs`, floor at `ys` and
        lips at `lb` and `rb`, one per grain in list order. */
    ghost function RowsOf(bs: seq<Body>, ys: real, lb: Body, rb: Body): (r: seq<Vec>)
      ensures |r| == |bs|
    {
      seq(|bs|, k requires 0 <= k < |bs| =>
        GrainForce(bs[k], ContactSum(bs, k), width, opening, ys, kn, lb, rb, sqrt))
    }

    /** The matrix `getForceMatrix` returns for grains at `bs` with ids
        `ids`: the row of each grain at the index of its id. */
    ghost function ForceMatrixOf(bs: seq<Body>, ids: seq<int>, ys: real, lb: Body, rb: Body): (m: seq<Vec>)
      requires |ids| == |bs|
      ensures |m| == |bs|
    {
      Scatter(seq(|bs|, _ => Zero), ids, RowsOf(bs, ys, lb, rb))
    }

    /** `ForceMatrixOf` for this silo's grains placed at `bs`, with the
        floor and the lips where they are now. */
    ghost function MatrixOf(bs: seq<Body>): (m: seq<Vec>)
      requires |bs| == |grains|
      reads this`ys, this`grains
      reads leftBoundaryParticle`x, leftBoundaryParticle`y, leftBoundaryParticle`speedx, leftBoundaryParticle`speedy
      reads rightBoundaryParticle`x, rightBoundaryParticle`y, rightBoundaryParticle`speedx, rightBoundaryParticle`speedy
      ensures |m| == |grains|
    {
      ForceMatrixOf(bs, IdsOf(grains), ys, leftBoundaryParticle.AsBody(), rightBoundaryParticle.AsBody())
    }

    /** With ids that are distinct and index the matrix, the row of each
        grain sits at its id. */
    lemma ForceMatrixRows(bs: seq<Body>, ids: seq<int>, ys: real, lb: Body, rb: Body)
      requires |ids| == |bs|
      requires forall k :: 0 <= k < |ids| ==> 0 <= ids[k] < |ids|
      requires forall a, b :: 0 <= a < b < |ids| ==> ids[a] != ids[b]
      ensures forall k :: 0 <= k < |bs| ==>
        ForceMatrixOf(bs, ids, ys, lb, rb)[ids[k]]
          == GrainForce(bs[k], ContactSum(bs, k), width, opening, ys, kn, lb, rb, sqrt)
    {
      ScatterAt(seq(|bs|, _ => Zero), ids, RowsOf(bs, ys, lb, rb));
    }

    /** For a list `s` without repeats at the bodies `bs`, what `Found`
        takes from the first `n` of `s` for `s[k]` sits at `Nearby`. */
    lemma FoundIsNearby(s: seq<Particle>, bs: seq<Body>, pos: map<Particle, Body>, k: int, n: int)
      requires Unique(s) && |bs| == |s| && 0 <= k < |s| && 0 <= n <= |s|
      requires forall j :: 0 <= j < |s| ==> s[j] in pos && pos[s[j]] == bs[j]
      ensures forall q :: q in Keep(s[..n], Finding(s[k], pos)) ==> q in pos
      ensures Lookup(Keep(s[..n], Finding(s[k], pos)), pos) == Nearby(bs, k, n)
    {
      forall j | 0 <= j < n
        ensures Lookup(Keep(s[..j + 1], Finding(s[k], pos)), pos)
             == Lookup(Keep(s[..j], Finding(s[k], pos)), pos) + (if j != k && Near(bs[k], bs[j]) then [bs[j]] else [])
      {
        FoundStep(s, bs, pos, k, j);
      }
      FoundSum(s, bs, pos, k, n);
    }

    /** The grain `s[j]` is found for `s[k]` exactly when it is another
        grain `Near` it. */
    lemma FoundStep(s: seq<Particle>, bs: seq<Body>, pos: map<Particle, Body>, k: int, j: int)
      requires Unique(s) && |bs| == |s| && 0 <= k < |s| && 0 <= j < |s|
      requires forall j :: 0 <= j < |s| ==> s[j] in pos && pos[s[j]] == bs[j]
      ensures Lookup(Keep(s[..j + 1], Finding(s[k], pos)), pos)
           == Lookup(Keep(s[..j], Finding(s[k], pos)), pos) + (if j != k && Near(bs[k], bs[j]) then [bs[j]] else [])
    {
      var prev := Keep(s[..j], Finding(s[k], pos));
      assert s[..j + 1][..j] == s[..j];
      assert s[j] == s[k] <==> j == k by {
        UniquePairs(s);
      }
      if s[j] in Finding(s[k], pos) {
        assert Keep(s[..j + 1], Finding(s[k], pos)) == prev + [s[j]];
        LookupSnoc(prev, s[j], pos);
      } else {
        assert Keep(s[..j + 1], Finding(s[k], pos)) == prev + [];
      }
    }

    /** Summing the steps of `FoundStep` over the first `n` of `s`. */
    lemma {:induction false} FoundSum(s: seq<Particle>, bs: seq<Body>, pos: map<Particle, Body>, k: int, n: int)
      requires |bs| == |s| && 0 <= k < |s| && 0 <= n <= |s|
      requires forall j {:trigger bs[j]} :: 0 <= j < n ==>
        Lookup(Keep(s[..j + 1], Finding(s[k], pos)), pos)
          == Lookup(Keep(s[..j], Finding(s[k], pos)), pos) + (if j != k && Near(bs[k], bs[j]) then [bs[j]] else [])
      ensures Lookup(Keep(s[..n], Finding(s[k], pos)), pos) == Nearby(bs, k, n)
      decreases n
    {
      if n > 0 {
        FoundSum(s, bs, pos, k, n - 1);
        var b := bs[n - 1];
        assert s[..n - 1 + 1] == s[..n];
      } else {
        assert Keep(s[..n], Finding(s[k], pos)) == [];
      }
    }

    /** `m` is a force matrix of the silo as it is: one row per grain, at
        the index of its id. */
    ghost predicate IsForceMatrix(m: seq<Vec>)
      reads this`grains, this`ys, grains`x, grains`y, grains`speedx, grains`speedy, grains`contactForce
      reads leftBoundaryParticle`x, leftBoundaryParticle`y, leftBoundaryParticle`speedx, leftBoundaryParticle`speedy
      reads rightBoundaryParticle`x, rightBoundaryParticle`y, rightBoundaryParticle`speedx, rightBoundaryParticle`speedy
    {
      |m| == |grains|
      && (forall k :: 0 <= k < |grains| ==> 0 <= grains[k].id < |m|)
      && forall k {:trigger m[grains[k].id]} :: 0 <= k < |grains| ==> m[grains[k].id] == ForceRow(grains[k])
    }

    /** One turn of the last loop of `getForceMatrix`: gravity and the
        contact force, then the left wall or else the right wall, then the
        floor beside the opening or else the two lips over it. */
    method ForceOn(p: Particle, leftFloor: real, rightFloor: real) returns (forceArray: Vec)
      requires leftFloor == LeftFloor(width, opening) && rightFloor == RightFloor(width, opening)
      ensures forceArray == ForceRow(p)
    {
      forceArray := Vec(0.0, -9.8 / 1000.0);
      forceArray := Add(forceArray, p.contactForce);
      var side := SideTerm(p);
      forceArray := Add(forceArray, side);
      var floor := FloorTerm(p, leftFloor, rightFloor);
      forceArray := Add(forceArray, floor);
    }

    /** The wall part of one turn: the left wall when the grain overlaps
        it, else the right wall when the grain overlaps that one. */
    method SideTerm(p: Particle) returns (fnet: Vec)
      ensures fnet == SideWallForce(p.AsBody(), width, kn, sqrt)
    {
      ghost var b := p.AsBody();
      if p.x - p.radius < 0.0 {
        var xi := -(p.radius - p.x);
        assert SideContact(b, width) == Some((Left, xi));
        fnet := WallForce(Left, xi, p.GetSpeed(), kn, sqrt);
      } else if p.x + p.radius > width {
        var xi := -(p.radius - (width - p.x));
        assert SideContact(b, width) == Some((Right, xi));
        fnet := WallForce(Right, xi, p.GetSpeed(), kn, sqrt);
      } else {
        assert SideContact(b, width) == None;
        fnet := Zero;
      }
    }

    /** The floor part of one turn: a grain straddling the floor level
        meets the floor beside the opening and the two lips over it. */
    method FloorTerm(p: Particle, leftFloor: real, rightFloor: real) returns (fnet: Vec)
      requires leftFloor == LeftFloor(width, opening) && rightFloor == RightFloor(width, opening)
      ensures fnet == FloorForce(p.AsBody(), width, opening, ys, kn,
                                 leftBoundaryParticle.AsBody(), rightBoundaryParticle.AsBody(), sqrt)
    {
      ghost var b := p.AsBody();
      if p.y - p.radius < ys && p.y + p.radius > ys {
        if p.x < leftFloor || p.x > rightFloor {
          var xi := -(p.radius - (p.y - ys));
          assert SupportOf(b, width, opening, ys) == Floor(xi);
          fnet := WallForce(Down, xi, p.GetSpeed(), kn, sqrt);
        } else {
          assert SupportOf(b, width, opening, ys) == Lips;
          var fnetRight := InteractionForce(p.AsBody(), rightBoundaryParticle.AsBody(), kn, sqrt);
          var fnetLeft := InteractionForce(p.AsBody(), leftBoundaryParticle.AsBody(), kn, sqrt);
          fnet := Add(fnetRight, fnetLeft);
        }
      } else {
        assert SupportOf(b, width, opening, ys) == Unsupported;
        fnet := Zero;
      }
    }

    /** The state `getForceMatrix` starts its pass from: every grain with no
        contact force and no neighbours. */
    lemma ClearedPass()
      requires Geometry()
      requires forall g :: g in grains ==> g.contactForce == Zero && g.neighbors == []
      ensures PassInv(BodyMap()) && NetContact() == Zero
    {
      assert Contacts(grains) == seq(|grains|, _ => Zero);
      SumVecZeros(|grains|);
    }

    /** The first loop of `getForceMatrix`: `resetContactForce` on every
        grain. */
    method ClearContacts()
      requires Unique(grains)
      modifies grains`contactForce, grains`neighbors
      ensures forall g :: g in grains ==> g.contactForce == Zero && g.neighbors == []
    {
      UniquePairs(grains);
      var k := 0;
      while k < |grains|
        invariant 0 <= k <= |grains|
        invariant forall j :: 0 <= j < k ==> grains[j].contactForce == Zero && grains[j].neighbors == []
      {
        grains[k].ResetContactForce();
        k := k + 1;
      }
    }

    /** The last loop of `getForceMatrix`: the row of each grain at the index
        of its id; distinct ids keep every row written. */
    method WriteRows(leftFloor: real, rightFloor: real) returns (forceMatrix: seq<Vec>)
      requires DistinctIds()
      requires IdsIndex(grains)
      requires leftFloor == LeftFloor(width, opening) && rightFloor == RightFloor(width, opening)
      ensures IsForceMatrix(forceMatrix)
      ensures forceMatrix == Scatter(seq(|grains|, _ => Zero), IdsOf(grains), ForceRows(grains))
    {
      var gs := grains;
      ghost var want := ForceRows(gs);
      ghost var ids := IdsOf(gs);
      forceMatrix := seq(|gs|, _ => Zero);
      ghost var zeros := forceMatrix;
      var k := 0;
      while k < |gs|
        invariant 0 <= k <= |gs| && |forceMatrix| == |gs|
        invariant forceMatrix == Scatter(zeros, ids[..k], want[..k])
      {
        forceMatrix, k := WriteRow(forceMatrix, k, leftFloor, rightFloor, zeros, ids, want);
      }
      assert ids[..k] == ids && want[..k] == want;
      ScatteredRows();
    }

    /** The rows of the grains scattered by id over a zero matrix make a
        force matrix of the silo. */
    lemma ScatteredRows()
      requires DistinctIds() && IdsIndex(grains)
      ensures IsForceMatrix(Scatter(seq(|grains|, _ => Zero), IdsOf(grains), ForceRows(grains)))
    {
      var zeros, ids, want := seq(|grains|, _ => Zero), IdsOf(grains), ForceRows(grains);
      DistinctIdPairs(grains);
      ScatterAt(zeros, ids, want);
      var m := Scatter(zeros, ids, want);
      forall k | 0 <= k < |grains|
        ensures m[grains[k].id] == ForceRow(grains[k])
      {
        assert ids[k] == grains[k].id && want[k] == ForceRow(grains[k]);
      }
    }

    /** One turn of the last loop of `getForceMatrix`: the row of the grain
        `grains[k]` written at its id; gives the index of the next grain. */
    method WriteRow(forceMatrix: seq<Vec>, k: int, leftFloor: real, rightFloor: real,
                    ghost zeros: seq<Vec>, ghost ids: seq<int>, ghost want: seq<Vec>)
      returns (written: seq<Vec>, next: int)
      requires IdsIndex(grains) && 0 <= k < |grains| && |zeros| == |grains|
      requires ids == IdsOf(grains) && want == ForceRows(grains)
      requires leftFloor == LeftFloor(width, opening) && rightFloor == RightFloor(width, opening)
      requires forceMatrix == Scatter(zeros, ids[..k], want[..k])
      ensures next == k + 1 && written == Scatter(zeros, ids[..next], want[..next])
    {
      assert ids[..k + 1][..k] == ids[..k] && want[..k + 1][..k] == want[..k];
      var p := grains[k];
      var forceArray := ForceOn(p, leftFloor, rightFloor);
      written := forceMatrix[p.id := forceArray];
      next := k + 1;
    }

    /** The first half of `getForceMatrix`: contact forces cleared, grid
        rebuilt, the cell-index pass run. The contacts are then explained by
        the pass and sum to zero. */
    method ComputeContacts()
      requires Valid() && DistinctIds()
      modifies this`grid, grains`contactForce, grains`neighbors
      ensures Valid() && Gridded()
      ensures PassInv(BodyMap()) && NetContact() == Zero
      ensures forall g :: g in grains ==> multiset(g.neighbors) == multiset(Found(g, grains, BodyMap()))
      ensures forall g :: g in grains ==> g.contactForce == FoundForce(g, BodyMap())
      ensures forall k :: 0 <= k < |grains| ==> grains[k].contactForce == ContactSum(Bodies(grains), k)
    {
      ClearContacts();
      ResetGrid();
      ClearedPass();
      PerformCellIndexMethod();
      ContactsFound(BodyMap());
      ContactsAreSums();
    }

    /** The contact force of each grain, as the pass finds it, is its
        `ContactSum` among the bodies of all grains. */
    lemma ContactsAreSums()
      requires Unique(grains)
      requires forall g :: g in grains ==> g.contactForce == FoundForce(g, BodyMap())
      ensures forall k :: 0 <= k < |grains| ==> grains[k].contactForce == ContactSum(Bodies(grains), k)
    {
      forall k | 0 <= k < |grains|
        ensures grains[k].contactForce == ContactSum(Bodies(grains), k)
      {
        FoundIsNearby(grains, Bodies(grains), BodyMap(), k, |grains|);
        assert grains[..|grains|] == grains;
      }
    }

    /** The contact force the pass gives the grain `g`, for the bodies
        `pos`: the force law summed over the particles it finds for `g`. */
    ghost function FoundForce(g: Particle, pos: map<Particle, Body>): Vec
      requires g in pos
      reads this
    {
      RowSum(interaction, pos[g], Lookup(Found(g, grains, pos), pos))
    }

    /** When every grain met exactly the particles the pass finds for it,
        its contact force is the force law summed over those. */
    lemma ContactsFound(pos: map<Particle, Body>)
      requires PassInv(pos)
      requires forall g :: g in grains ==> multiset(g.neighbors) == multiset(Found(g, grains, pos))
      ensures forall g :: g in grains ==> g in pos && g.contactForce == FoundForce(g, pos)
    {
      forall g | g in grains
        ensures g in pos && g.contactForce == FoundForce(g, pos)
      {
        assert Explained(g, pos);
        RowSumLookupPerm(interaction, pos[g], g.neighbors, Found(g, grains, pos), pos);
      }
    }

    /** `getForceMatrix`: the contacts computed, then one row per grain at
        the index of its id: gravity, contact, walls and floor. */
    method GetForceMatrix() returns (forceMatrix: seq<Vec>)
      requires Valid() && DistinctIds()
      requires IdsIndex(grains)
      modifies this`grid, grains`contactForce, grains`neighbors
      ensures Valid()
      ensures ys == old(ys) && totalFlow == old(totalFlow) && currentTime == old(currentTime)
      ensures IsForceMatrix(forceMatrix)
      ensures forceMatrix == ForceMatrixOf(Bodies(grains), IdsOf(grains), ys,
                                           leftBoundaryParticle.AsBody(), rightBoundaryParticle.AsBody())
    {
      var leftFloor := (width - opening) / 2.0;
      var rightFloor := width - (width - opening) / 2.0;
      SumContacts();
      forceMatrix := MatrixRows(leftFloor, rightFloor);
    }

    /** The second half of `getForceMatrix`: once every contact force is its
        `ContactSum`, the rows it writes make up `ForceMatrixOf`. */
    method MatrixRows(leftFloor: real, rightFloor: real) returns (forceMatrix: seq<Vec>)
      requires DistinctIds() && IdsIndex(grains)
      requires leftFloor == LeftFloor(width, opening) && rightFloor == RightFloor(width, opening)
      requires forall k :: 0 <= k < |grains| ==> grains[k].contactForce == ContactSum(Bodies(grains), k)
      ensures IsForceMatrix(forceMatrix)
      ensures forceMatrix == ForceMatrixOf(Bodies(grains), IdsOf(grains), ys,
                                           leftBoundaryParticle.AsBody(), rightBoundaryParticle.AsBody())
    {
      forceMatrix := WriteRows(leftFloor, rightFloor);
      RowsMatch();
    }

    /** `getForceMatrix`, seen from the integrator: the grains have not
        moved, and the matrix is that of where they are. */
    method ForceMatrix() returns (forceMatrix: seq<Vec>)
      requires Valid() && DistinctIds() && IdsIndex(grains)
      modifies this`grid, grains`contactForce, grains`neighbors
      ensures Valid() && Bodies(grains) == old(Bodies(grains))
      ensures ys == old(ys) && totalFlow == old(totalFlow) && currentTime == old(currentTime)
      ensures IsForceMatrix(forceMatrix) && forceMatrix == MatrixOf(Bodies(grains))
    {
      forceMatrix := GetForceMatrix();
    }

    /** `ComputeContacts`, seen from `getForceMatrix`: what it needs of the
        contact forces, and that the silo stays valid. */
    method SumContacts()
      requires Valid() && DistinctIds()
      modifies this`grid, grains`contactForce, grains`neighbors
      ensures Valid() && DistinctIds()
      ensures forall k :: 0 <= k < |grains| ==> grains[k].contactForce == ContactSum(Bodies(grains), k)
    {
      ComputeContacts();
    }

    /** Once every contact force is its `ContactSum`, the rows
        `getForceMatrix` writes are those of `ForceMatrixOf`. */
    lemma RowsMatch()
      requires forall k :: 0 <= k < |grains| ==> grains[k].contactForce == ContactSum(Bodies(grains), k)
      ensures Scatter(seq(|grains|, _ => Zero), IdsOf(grains), ForceRows(grains))
           == ForceMatrixOf(Bodies(grains), IdsOf(grains), ys,
                            leftBoundaryParticle.AsBody(), rightBoundaryParticle.AsBody())
    {
      var bs, lb, rb := Bodies(grains), leftBoundaryParticle.AsBody(), rightBoundaryParticle.AsBody();
      forall k | 0 <= k < |grains|
        ensures ForceRows(grains)[k] == RowsOf(bs, ys, lb, rb)[k]
      {
        assert ForceRows(grains)[k] == ForceRow(grains[k]);
        assert bs[k] == grains[k].AsBody();
      }
      assert ForceRows(grains) == RowsOf(bs, ys, lb, rb);
      assert seq(|grains|, _ => Zero) == seq(|bs|, _ => Zero);
    }
  }
}
