/**
 * What both revisions of tools/ParticleGenerator.java share: the random
 * stream they draw from, the cell index of a coordinate, the squared-distance
 * test, and the geometric fact that makes a 3x3 block of cells enough to
 * find every close neighbour.
 */
module Packing {

  /** `java.util.Random`, seeded from the clock: `stream(n)` is the value
      of its `n`-th `nextDouble()` call, and `drawn` counts the calls. */
  class Random {
    const stream: nat -> real
    var drawn: nat

    constructor (stream: nat -> real)
      ensures this.stream == stream && drawn == 0
    {
      this.stream := stream;
      drawn := 0;
    }

    method NextDouble() returns (u: real)
      modifies this`drawn
      ensures u == stream(old(drawn)) && drawn == old(drawn) + 1
    {
      u := stream(drawn);
      drawn := drawn + 1;
    }
  }

  /** What `nextDouble()` promises: every value lies in [0, 1). */
  ghost predicate Uniform(stream: nat -> real) {
    forall n: nat :: 0.0 <= stream(n) < 1.0
  }

  /** `(int) Math.floor(x / cellSize)`. */
  function CellIndex(x: real, cellSize: real): (i: int)
    requires cellSize > 0.0
    ensures i as real <= x / cellSize < i as real + 1.0
  {
    (x / cellSize).Floor
  }

  /** A draw `u` scaled to `len` and shifted by `r`: `u * len + r`. */
  function Scaled(u: real, len: real, r: real): real {
    u * len + r
  }

  /** A draw in [0, 1) scaled to a non-negative length stays in
      [r, r + len], and below `r + len` when the length is positive. */
  lemma ScaledInRange(u: real, len: real, r: real)
    requires 0.0 <= u < 1.0 && len >= 0.0
    ensures r <= Scaled(u, len, r) <= r + len
    ensures len > 0.0 ==> Scaled(u, len, r) < r + len
  {
    assert 0.0 <= u * len;
    if len > 0.0 {
      assert u * len < 1.0 * len;
    }
  }

  /** The overlap test of both generators: the squared distance of
      `(x1, y1)` and `(x2, y2)` is below `s * s`. */
  predicate Closer(x1: real, y1: real, x2: real, y2: real, s: real) {
    (x1 - x2) * (x1 - x2) + (y1 - y2) * (y1 - y2) < s * s
  }

  lemma CloserSymmetric(x1: real, y1: real, x2: real, y2: real, s: real)
    ensures Closer(x1, y1, x2, y2, s) == Closer(x2, y2, x1, y1, s)
  {
    assert (x1 - x2) * (x1 - x2) == (x2 - x1) * (x2 - x1);
    assert (y1 - y2) * (y1 - y2) == (y2 - y1) * (y2 - y1);
  }

  /** Closer than `s` is closer than any `t >= s >= 0`. */
  lemma CloserWithin(x1: real, y1: real, x2: real, y2: real, s: real, t: real)
    requires 0.0 <= s <= t && Closer(x1, y1, x2, y2, s)
    ensures Closer(x1, y1, x2, y2, t)
  {
    assert s * s <= s * t <= t * t;
  }

  /** A square below `s * s`, for `s >= 0`, has its root strictly
      between `-s` and `s`. */
  lemma SquareBelow(d: real, s: real)
    requires s >= 0.0 && d * d < s * s
    ensures -s < d < s
  {
  }

  /** A dividend strictly between `-c` and `c`, over the positive
      divisor `c`, gives a quotient strictly between -1 and 1. */
  lemma QuotientBelowOne(n: real, c: real)
    requires c > 0.0 && -c < n < c
    ensures -1.0 < n / c < 1.0
  {
  }

  /** Two coordinates less than one cell apart have cell indices at most
      one apart. */
  lemma IndexStep(a: real, b: real, c: real)
    requires c > 0.0 && -c < a - b < c
    ensures -1 <= CellIndex(a, c) - CellIndex(b, c) <= 1
  {
    var q := (a - b) / c;
    assert a / c - b / c == q;
    assert q < 1.0 && -1.0 < q by {
      QuotientBelowOne(a - b, c);
    }
  }

  /** Two centres closer than `s`, with `s` at most one cell side `c`,
      lie in cells at most one apart in each direction. */
  lemma CloseMeansAdjacentCells(x1: real, y1: real, x2: real, y2: real, s: real, c: real)
    requires 0.0 <= s <= c && Closer(x1, y1, x2, y2, s)
    ensures -1 <= CellIndex(x1, c) - CellIndex(x2, c) <= 1
    ensures -1 <= CellIndex(y1, c) - CellIndex(y2, c) <= 1
  {
    var dx, dy := x1 - x2, y1 - y2;
    assert dx * dx <= dx * dx + dy * dy;
    assert dy * dy <= dx * dx + dy * dy;
    SquareBelow(dx, s);
    SquareBelow(dy, s);
    IndexStep(x1, x2, c);
    IndexStep(y1, y2, c);
  }
}
