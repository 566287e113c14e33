/**
 * The packer of src/main/java/tools/ParticleGenerator.java: each requested
 * disk gets up to 2000 random attempts. An attempt draws a radius in
 * [rMin, rMax) and a centre that keeps the disk inside the box. It is
 * accepted when no disk already stored in the 3x3 block of cells around it
 * overlaps it, where a cell is `2 * rMax` wide. The accepted disks are what
 * the consumer receives, in order.
 */
module Generator {
  import opened Vectors
  import opened Particles
  import opened Packing

  /** Random attempts per requested particle before it is given up. */
  const MaxAttempts: int := 2000

  /** The record `Cell(i, j)`: two cells are equal exactly when both
      indices are, as its `equals` says. */
  datatype Cell = Cell(i: int, j: int)

  /** `Cell.fromPos`: the cell whose square of side `cellSize` holds `(x, y)`. */
  function FromPos(x: real, y: real, cellSize: real): (c: Cell)
    requires cellSize > 0.0
    ensures c.i as real <= x / cellSize < c.i as real + 1.0
    ensures c.j as real <= y / cellSize < c.j as real + 1.0
  {
    Cell(CellIndex(x, cellSize), CellIndex(y, cellSize))
  }

  /** The nine offsets `checkCollision` visits: the cell itself first, then
      its eight neighbours. */
  const Directions: seq<(int, int)> := [(0, 0), (1, 0), (1, 1), (0, 1), (-1, 1), (-1, 0), (-1, -1), (0, -1), (1, -1)]

  /** The cell `Directions[d]` away from `c`. */
  function Shifted(c: Cell, d: int): Cell
    requires 0 <= d < |Directions|
  {
    Cell(c.i + Directions[d].0, c.j + Directions[d].1)
  }

  /** The offsets reach exactly the 3x3 block of cells around `c`. */
  lemma DirectionsCoverBlock(c: Cell, n: Cell)
    ensures (exists d :: 0 <= d < |Directions| && Shifted(c, d) == n)
        <==> (-1 <= n.i - c.i <= 1 && -1 <= n.j - c.j <= 1)
  {
    if -1 <= n.i - c.i <= 1 && -1 <= n.j - c.j <= 1 {
      var di, dj := n.i - c.i, n.j - c.j;
      var d :=
        if di == 0 && dj == 0 then 0
        else if di == 1 && dj == 0 then 1
        else if di == 1 && dj == 1 then 2
        else if di == 0 && dj == 1 then 3
        else if di == -1 && dj == 1 then 4
        else if di == -1 && dj == 0 then 5
        else if di == -1 && dj == -1 then 6
        else if di == 0 && dj == -1 then 7
        else 8;
      assert Shifted(c, d) == n;
    }
  }

  /** The list stored under `c`, or none (`grid.get(c) == null`). */
  function Bucket(g: map<Cell, seq<Particle>>, c: Cell): seq<Particle> {
    if c in g then g[c] else []
  }

  /** Every particle stored anywhere in `g`. */
  ghost function Stored(g: map<Cell, seq<Particle>>): set<Particle> {
    set c, q | c in g && q in g[c] :: q
  }

  /** The test of `checkCollision` against one stored disk `other`: the
      squared distance of the centres is below the square of the radii's sum. */
  predicate Overlaps(other: Particle, x: real, y: real, rNew: real)
    reads other`x, other`y
  {
    Closer(x, y, other.x, other.y, other.radius + rNew)
  }

  /** What `checkCollision` answers: some disk stored in the 3x3 block of
      cells around `cell` overlaps the disk of radius `rNew` at `(x, y)`. */
  ghost predicate Collides(g: map<Cell, seq<Particle>>, x: real, y: real, rNew: real, cell: Cell)
    reads Stored(g)
  {
    exists d, q :: 0 <= d < |Directions| && q in Bucket(g, Shifted(cell, d)) && Overlaps(q, x, y, rNew)
  }

  /** No disk of `s` overlaps a disk accepted after it. */
  ghost predicate Disjoint(s: seq<Particle>)
    reads s
  {
    forall a, b :: 0 <= a < b < |s| ==> !Overlaps(s[a], s[b].x, s[b].y, s[b].radius)
  }

  /** `g` holds exactly the particles of `s`, each under the cell of its
      centre and nowhere else. */
  ghost predicate Stores(g: map<Cell, seq<Particle>>, s: seq<Particle>, cellSize: real)
    requires cellSize > 0.0
    reads s
  {
    (forall c, q :: c in g && q in g[c] ==> q in s && c == FromPos(q.x, q.y, cellSize))
    && forall k :: 0 <= k < |s| ==> s[k] in Bucket(g, FromPos(s[k].x, s[k].y, cellSize))
  }

  /** The invariant of `generate`: the grid stores exactly the accepted
      disks, and when `good` they are disjoint and in range. */
  ghost predicate Packed(g: map<Cell, seq<Particle>>, s: seq<Particle>, cellSize: real, good: bool,
                         rMin: real, rMax: real, width: real, height: real)
    requires cellSize > 0.0
    reads s
  {
    Stores(g, s, cellSize)
    && (good ==> Disjoint(s) && forall k :: 0 <= k < |s| ==> InRange(s[k], rMin, rMax, width, height))
  }

  /** What an attempt's draws promise when `nextDouble()` keeps to
      [0, 1) and `0 <= rMin <= rMax`: the radius lies in [rMin, rMax], and
      the disk lies inside the box along each side at least `2 * rMax` long. */
  predicate InRange(p: Particle, rMin: real, rMax: real, width: real, height: real)
    reads p`x, p`y
  {
    SampleInRange(p.radius, p.x, p.y, rMin, rMax, width, height)
  }

  predicate SampleInRange(r: real, x: real, y: real, rMin: real, rMax: real, width: real, height: real) {
    rMin <= r <= rMax
    && (2.0 * rMax <= width ==> r <= x <= width - r)
    && (2.0 * rMax <= height ==> r <= y <= height - r)
  }

  /** The three draws of an attempt, each in [0, 1), give a sample in range
      when `0 <= rMin <= rMax`. */
  lemma DrawsInRange(u: real, v: real, w: real, r: real, x: real, y: real,
                     rMin: real, rMax: real, width: real, height: real)
    requires 0.0 <= u < 1.0 && 0.0 <= v < 1.0 && 0.0 <= w < 1.0 && 0.0 <= rMin <= rMax
    requires r == rMin + u * (rMax - rMin)
    requires x == v * (width - 2.0 * r) + r && y == w * (height - 2.0 * r) + r
    ensures SampleInRange(r, x, y, rMin, rMax, width, height)
  {
    assert rMin <= r <= rMax by {
      ScaledInRange(u, rMax - rMin, rMin);
    }
    if 2.0 * rMax <= width {
      assert r <= x <= width - r by {
        ScaledInRange(v, width - 2.0 * r, r);
      }
    }
    if 2.0 * rMax <= height {
      assert r <= y <= height - r by {
        ScaledInRange(w, height - 2.0 * r, r);
      }
    }
  }

  /** Storing one more particle under the cell of its centre keeps the
      grid holding exactly the accepted particles. */
  lemma StoresAfterAdd(g: map<Cell, seq<Particle>>, s: seq<Particle>, p: Particle, cellSize: real)
    requires cellSize > 0.0 && Stores(g, s, cellSize)
    ensures Stores(g[FromPos(p.x, p.y, cellSize) := Bucket(g, FromPos(p.x, p.y, cellSize)) + [p]], s + [p], cellSize)
  {
    var cell := FromPos(p.x, p.y, cellSize);
    var g' := g[cell := Bucket(g, cell) + [p]];
    forall c, q | c in g' && q in g'[c]
      ensures q in s + [p] && c == FromPos(q.x, q.y, cellSize)
    {
      if c == cell && q !in Bucket(g, cell) {
        assert q == p;
      }
    }
    forall k | 0 <= k < |s + [p]|
      ensures (s + [p])[k] in Bucket(g', FromPos((s + [p])[k].x, (s + [p])[k].y, cellSize))
    {
      if k < |s| {
        assert (s + [p])[k] == s[k];
      }
    }
  }

  /** Why the 3x3 block is enough: when `cellSize = 2 * rMax` and every
      radius lies in [0, rMax], a disk that collides with no disk of the
      block around its cell overlaps no stored disk at all. */
  lemma ClearOfCollision(g: map<Cell, seq<Particle>>, s: seq<Particle>, x: real, y: real, r: real,
                         rMax: real, cellSize: real)
    requires cellSize == 2.0 * rMax && rMax > 0.0 && 0.0 <= r <= rMax
    requires Stores(g, s, cellSize)
    requires forall k :: 0 <= k < |s| ==> 0.0 <= s[k].radius <= rMax
    requires !Collides(g, x, y, r, FromPos(x, y, cellSize))
    ensures forall k :: 0 <= k < |s| ==> !Overlaps(s[k], x, y, r)
  {
    var cell := FromPos(x, y, cellSize);
    forall k | 0 <= k < |s|
      ensures !Overlaps(s[k], x, y, r)
    {
      var q := s[k];
      var home := FromPos(q.x, q.y, cellSize);
      if Overlaps(q, x, y, r) {
        CloseMeansAdjacentCells(x, y, q.x, q.y, q.radius + r, cellSize);
        DirectionsCoverBlock(cell, home);
      }
    }
  }

  /** One more disk that overlaps none of the earlier ones keeps the list
      disjoint. */
  lemma DisjointSnoc(s: seq<Particle>, p: Particle)
    requires Disjoint(s)
    requires forall k :: 0 <= k < |s| ==> !Overlaps(s[k], p.x, p.y, p.radius)
    ensures Disjoint(s + [p])
  {
    var t := s + [p];
    forall a, b | 0 <= a < b < |t|
      ensures !Overlaps(t[a], t[b].x, t[b].y, t[b].radius)
    {
      assert t[a] == s[a];
      if b < |s| {
        assert t[b] == s[b];
      }
    }
  }

  /** The private class `GeneratedGrid`: a hash map from cells to the
      particles stored there. */
  class GeneratedGrid {
    var grid: map<Cell, seq<Particle>>

    constructor ()
      ensures grid == map[]
    {
      grid := map[];
    }

    /** `addParticle`: `p` appended to the list of `cell`, which is created
        when absent; every other cell keeps its list. */
    method AddParticle(p: Particle, cell: Cell)
      modifies this`grid
      ensures grid == old(grid)[cell := Bucket(old(grid), cell) + [p]]
    {
      grid := grid[cell := Bucket(grid, cell) + [p]];
    }

    /** `checkCollision`: whether a stored disk of the 3x3 block around
        `cell` overlaps the disk of radius `rNew` at `(x, y)`. */
    method CheckCollision(x: real, y: real, rNew: real, cell: Cell) returns (b: bool)
      ensures b == Collides(grid, x, y, rNew, cell)
    {
      var d := 0;
      while d < |Directions|
        invariant 0 <= d <= |Directions|
        invariant forall e, q :: 0 <= e < d && q in Bucket(grid, Shifted(cell, e)) ==> !Overlaps(q, x, y, rNew)
      {
        var n := Shifted(cell, d);
        if n in grid {
          var list := grid[n];
          var k := 0;
          while k < |list|
            invariant 0 <= k <= |list|
            invariant forall q :: q in list[..k] ==> !Overlaps(q, x, y, rNew)
          {
            var other := list[k];
            var pos := other.GetPos();
            var dx := x - pos.x;
            var dy := y - pos.y;
            var dist2 := dx * dx + dy * dy;
            var minDist := other.radius + rNew;
            if dist2 < minDist * minDist {
              assert other in Bucket(grid, Shifted(cell, d)) && Overlaps(other, x, y, rNew);
              return true;
            }
            assert list[..k + 1] == list[..k] + [other];
            k := k + 1;
          }
          assert list[..k] == list;
        }
        d := d + 1;
      }
      return false;
    }
  }

  /** One turn of the attempt loop: a radius, then a centre, then the
      collision test; without a collision a new particle is stored under
      its cell. */
  method Attempt(grid: GeneratedGrid, random: Random, counter: IdCounter, height: real, width: real,
                 rMin: real, rMax: real, cellSize: real) returns (p: Particle?)
    requires cellSize == 2.0 * rMax && rMax > 0.0
    modifies grid, random, counter
    ensures random.drawn == old(random.drawn) + 3
    ensures p == null ==> grid.grid == old(grid.grid) && counter.next == old(counter.next)
    ensures p != null ==> fresh(p) && p.id == old(counter.next) && counter.next == old(counter.next) + 1
    ensures p != null ==>
      grid.grid == old(grid.grid)[FromPos(p.x, p.y, cellSize) := Bucket(old(grid.grid), FromPos(p.x, p.y, cellSize)) + [p]]
    ensures p != null ==> !Collides(old(grid.grid), p.x, p.y, p.radius, FromPos(p.x, p.y, cellSize))
    ensures p != null && Uniform(random.stream) && 0.0 <= rMin <= rMax ==> InRange(p, rMin, rMax, width, height)
  {
    ghost var n0 := random.drawn;
    var u := random.NextDouble();
    var radius := rMin + u * (rMax - rMin);
    var v := random.NextDouble();
    var x := v * (width - 2.0 * radius) + radius;
    var w := random.NextDouble();
    var y := w * (height - 2.0 * radius) + radius;
    var cell := FromPos(x, y, cellSize);
    var collides := grid.CheckCollision(x, y, radius, cell);
    if collides {
      return null;
    }
    p := new Particle(x, y, radius, counter);
    grid.AddParticle(p, cell);
    if Uniform(random.stream) && 0.0 <= rMin <= rMax {
      assert u == random.stream(n0) && v == random.stream(n0 + 1) && w == random.stream(n0 + 2);
      DrawsInRange(u, v, w, radius, x, y, rMin, rMax, width, height);
    }
  }

  /** The attempt loop for one requested particle: up to `MaxAttempts`
      attempts, stopping at the first accepted one. */
  method PlaceOne(grid: GeneratedGrid, random: Random, counter: IdCounter, height: real, width: real,
                  rMin: real, rMax: real, cellSize: real) returns (p: Particle?)
    requires cellSize == 2.0 * rMax && rMax > 0.0
    modifies grid, random, counter
    ensures p == null ==> grid.grid == old(grid.grid) && counter.next == old(counter.next)
    ensures p == null ==> random.drawn == old(random.drawn) + 3 * MaxAttempts
    ensures p != null ==> old(random.drawn) + 3 <= random.drawn <= old(random.drawn) + 3 * MaxAttempts
    ensures p != null ==> fresh(p) && p.id == old(counter.next) && counter.next == old(counter.next) + 1
    ensures p != null ==>
      grid.grid == old(grid.grid)[FromPos(p.x, p.y, cellSize) := Bucket(old(grid.grid), FromPos(p.x, p.y, cellSize)) + [p]]
    ensures p != null ==> !Collides(old(grid.grid), p.x, p.y, p.radius, FromPos(p.x, p.y, cellSize))
    ensures p != null && Uniform(random.stream) && 0.0 <= rMin <= rMax ==> InRange(p, rMin, rMax, width, height)
  {
    p := null;
    var attempt := 0;
    while attempt < MaxAttempts
      invariant 0 <= attempt <= MaxAttempts
      invariant p == null && grid.grid == old(grid.grid) && counter.next == old(counter.next)
      invariant random.drawn == old(random.drawn) + 3 * attempt
    {
      p := Attempt(grid, random, counter, height, width, rMin, rMax, cellSize);
      if p != null {
        break;
      }
      attempt := attempt + 1;
    }
  }

  /** One request of `generate`: the attempt loop, with what it does to the
      invariant of the grid and of the accepted disks `accepted`; `good`
      says whether the draws keep to [0, 1) and `0 <= rMin <= rMax`. */
  method Request(grid: GeneratedGrid, random: Random, counter: IdCounter, height: real, width: real,
                 rMin: real, rMax: real, cellSize: real, ghost accepted: seq<Particle>, ghost good: bool)
    returns (p: Particle?)
    requires cellSize == 2.0 * rMax && rMax > 0.0
    requires good == (Uniform(random.stream) && 0.0 <= rMin <= rMax)
    requires Packed(grid.grid, accepted, cellSize, good, rMin, rMax, width, height)
    modifies grid, random, counter
    ensures p == null ==> counter.next == old(counter.next) && random.drawn == old(random.drawn) + 3 * MaxAttempts
    ensures p == null ==> Packed(grid.grid, accepted, cellSize, good, rMin, rMax, width, height)
    ensures p != null ==> old(random.drawn) + 3 <= random.drawn <= old(random.drawn) + 3 * MaxAttempts
    ensures p != null ==> fresh(p) && p.id == old(counter.next) && counter.next == old(counter.next) + 1
    ensures p != null ==> Packed(grid.grid, accepted + [p], cellSize, good, rMin, rMax, width, height)
  {
    ghost var g0 := grid.grid;
    p := PlaceOne(grid, random, counter, height, width, rMin, rMax, cellSize);
    if p != null {
      PackedAfterAdd(g0, accepted, p, cellSize, good, rMin, rMax, width, height);
    }
  }

  /** A disk that collides with nothing in the block around its cell, and
      is in range when `good`, keeps the invariant once stored. */
  lemma PackedAfterAdd(g: map<Cell, seq<Particle>>, s: seq<Particle>, p: Particle, cellSize: real, good: bool,
                       rMin: real, rMax: real, width: real, height: real)
    requires cellSize == 2.0 * rMax && rMax > 0.0
    requires Packed(g, s, cellSize, good, rMin, rMax, width, height)
    requires !Collides(g, p.x, p.y, p.radius, FromPos(p.x, p.y, cellSize))
    requires good ==> 0.0 <= rMin && InRange(p, rMin, rMax, width, height)
    ensures Packed(g[FromPos(p.x, p.y, cellSize) := Bucket(g, FromPos(p.x, p.y, cellSize)) + [p]], s + [p],
                   cellSize, good, rMin, rMax, width, height)
  {
    StoresAfterAdd(g, s, p, cellSize);
    if good {
      assert forall k :: 0 <= k < |s| ==> 0.0 <= s[k].radius <= rMax by {
        forall k | 0 <= k < |s|
          ensures 0.0 <= s[k].radius <= rMax
        {
          assert InRange(s[k], rMin, rMax, width, height);
        }
      }
      ClearOfCollision(g, s, p.x, p.y, p.radius, rMax, cellSize);
      DisjointSnoc(s, p);
      var t := s + [p];
      forall k | 0 <= k < |t|
        ensures InRange(t[k], rMin, rMax, width, height)
      {
        if k < |s| {
          assert t[k] == s[k];
        }
      }
    }
  }

  /** `generate`: `particleNumber` requests, each placed by the attempt
      loop or counted as a failure; `accepted` lists what the consumer
      receives, in order. The draws of `random` stand for the clock-seeded
      generator, and `counter` for the global id counter. */
  method Generate(particleNumber: int, height: real, width: real, rMin: real, rMax: real,
                  random: Random, counter: IdCounter)
    returns (accepted: seq<Particle>, placed: int, failures: int)
    requires rMax > 0.0
    modifies random, counter
    ensures 0 <= placed && 0 <= failures
    ensures placed + failures == if particleNumber < 0 then 0 else particleNumber
    ensures |accepted| == placed && counter.next == old(counter.next) + placed
    ensures forall k :: 0 <= k < |accepted| ==> fresh(accepted[k]) && accepted[k].id == old(counter.next) + k
    ensures old(random.drawn) + 3 * placed + 3 * MaxAttempts * failures <= random.drawn
    ensures random.drawn <= old(random.drawn) + 3 * MaxAttempts * (placed + failures)
    ensures Uniform(random.stream) && 0.0 <= rMin <= rMax ==>
      Disjoint(accepted) && forall k :: 0 <= k < |accepted| ==> InRange(accepted[k], rMin, rMax, width, height)
  {
    var cellSize := 2.0 * rMax;
    var grid := new GeneratedGrid();
    accepted, placed, failures := [], 0, 0;
    ghost var good := Uniform(random.stream) && 0.0 <= rMin <= rMax;
    var i := 0;
    while i < particleNumber
      invariant 0 <= i && (i == 0 || i <= particleNumber)
      invariant 0 <= placed && 0 <= failures && placed + failures == i
      invariant |accepted| == placed && counter.next == old(counter.next) + placed
      invariant forall k :: 0 <= k < |accepted| ==> fresh(accepted[k]) && accepted[k].id == old(counter.next) + k
      invariant old(random.drawn) + 3 * placed + 6000 * failures <= random.drawn
      invariant random.drawn <= old(random.drawn) + 6000 * (placed + failures)
      invariant Packed(grid.grid, accepted, cellSize, good, rMin, rMax, width, height)
    {
      var p := Request(grid, random, counter, height, width, rMin, rMax, cellSize, accepted, good);
      if p != null {
        accepted := accepted + [p];
        placed := placed + 1;
      } else {
        failures := failures + 1;
      }
      i := i + 1;
    }
    assert 3 * MaxAttempts == 6000;
  }
}
