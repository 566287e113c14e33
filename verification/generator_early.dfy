/**
 * The first packer, tools/ParticleGenerator.java. Each requested disk
 * gets a radius in [0.9, 1.1) and a centre that keeps it inside the box.
 * While a stored centre lies closer than one cell side, 2.2, to the new
 * centre, that centre is drawn again; the radius is kept. The cell side is
 * fixed at `2 * 1.1` whatever the radii, so the test compares centres only.
 * A radius below 1.1 is what makes 2.2 enough for the disks not to overlap.
 */
module GeneratorEarly {
  import opened Particles
  import opened Packing
  import G = Generator

  /** The radius the grid is built with; the cell side is twice it. */
  const NominalRadius: real := 1.1
  const CellSize: real := 2.0 * NominalRadius

  /** The mutable class `Cell`: `equals` and `hashCode` compare the two
      indices, so a cell stands in the map for its `Key()`. */
  class Cell {
    var i: int
    var j: int

    constructor (i: int, j: int)
      ensures this.i == i && this.j == j
    {
      this.i := i;
      this.j := j;
    }

    method SetI(i: int)
      modifies this`i
      ensures this.i == i
    {
      this.i := i;
    }

    method SetJ(j: int)
      modifies this`j
      ensures this.j == j
    {
      this.j := j;
    }

    function Key(): G.Cell
      reads this`i, this`j
    {
      G.Cell(i, j)
    }
  }

  /** The nine offsets of this revision's `checkCollision`, the cell itself
      last. */
  const Directions: seq<(int, int)> := [(1, 0), (1, 1), (0, 1), (-1, 1), (-1, 0), (-1, -1), (0, -1), (1, -1), (0, 0)]

  function Shifted(c: G.Cell, d: int): G.Cell
    requires 0 <= d < |Directions|
  {
    G.Cell(c.i + Directions[d].0, c.j + Directions[d].1)
  }

  /** The offsets reach exactly the 3x3 block of cells around `c`. */
  lemma DirectionsCoverBlock(c: G.Cell, n: G.Cell)
    ensures (exists d :: 0 <= d < |Directions| && Shifted(c, d) == n)
        <==> (-1 <= n.i - c.i <= 1 && -1 <= n.j - c.j <= 1)
  {
    if -1 <= n.i - c.i <= 1 && -1 <= n.j - c.j <= 1 {
      var di, dj := n.i - c.i, n.j - c.j;
      var d :=
        if di == 1 && dj == 0 then 0
        else if di == 1 && dj == 1 then 1
        else if di == 0 && dj == 1 then 2
        else if di == -1 && dj == 1 then 3
        else if di == -1 && dj == 0 then 4
        else if di == -1 && dj == -1 then 5
        else if di == 0 && dj == -1 then 6
        else if di == 1 && dj == -1 then 7
        else 8;
      assert Shifted(c, d) == n;
    }
  }

  /** What this `checkCollision` answers: a centre stored in the 3x3 block
      around `cell` lies closer than `side` to `(x, y)`. */
  ghost predicate Crowded(g: map<G.Cell, seq<Particle>>, x: real, y: real, side: real, cell: G.Cell)
    reads G.Stored(g)
  {
    exists d, q :: 0 <= d < |Directions| && q in G.Bucket(g, Shifted(cell, d)) && Closer(x, y, q.x, q.y, side)
  }

  /** No centre of `s` lies closer than `side` to a centre accepted after it. */
  ghost predicate Spaced(s: seq<Particle>, side: real)
    reads s
  {
    forall a, b :: 0 <= a < b < |s| ==> !Closer(s[b].x, s[b].y, s[a].x, s[a].y, side)
  }

  /** What the draws promise when `nextDouble()` keeps to [0, 1): a radius
      in [0.9, 1.1), and a disk inside the box along each side at least
      as long as its diameter. */
  predicate Placed(p: Particle, width: real, height: real)
    reads p`x, p`y
  {
    Sample(p.radius, p.x, p.y, width, height)
  }

  predicate Sample(r: real, x: real, y: real, width: real, height: real) {
    0.9 <= r < 1.1
    && (2.0 * r <= width ==> r <= x <= width - r)
    && (2.0 * r <= height ==> r <= y <= height - r)
  }

  /** The invariant of `generate`: the grid stores exactly the accepted
      disks, their centres are spaced by a cell side, and when `good` they
      are placed as the draws promise. */
  ghost predicate Packed(g: map<G.Cell, seq<Particle>>, s: seq<Particle>, good: bool, width: real, height: real)
    reads s
  {
    G.Stores(g, s, CellSize) && Spaced(s, CellSize)
    && (good ==> forall k :: 0 <= k < |s| ==> Placed(s[k], width, height))
  }

  /** `radius = u * 0.2 + 0.9` lies in [0.9, 1.1). */
  lemma RadiusInRange(u: real, r: real)
    requires 0.0 <= u < 1.0 && r == u * 0.2 + 0.9
    ensures 0.9 <= r < 1.1
  {
    ScaledInRange(u, 0.2, 0.9);
  }

  /** A centre drawn as `v * (len - 2r) + r` keeps the disk inside a side
      of length `len >= 2r`. */
  lemma CentreInRange(v: real, len: real, r: real, x: real)
    requires 0.0 <= v < 1.0 && x == v * (len - 2.0 * r) + r
    ensures 2.0 * r <= len ==> r <= x <= len - r
  {
    if 2.0 * r <= len {
      ScaledInRange(v, len - 2.0 * r, r);
    }
  }

  /** Why the 3x3 block is enough: with the cell side as the test distance,
      a centre not crowded in its block is no closer than a side to any
      stored centre. */
  lemma ClearOfCrowding(g: map<G.Cell, seq<Particle>>, s: seq<Particle>, x: real, y: real)
    requires G.Stores(g, s, CellSize)
    requires !Crowded(g, x, y, CellSize, G.FromPos(x, y, CellSize))
    ensures forall k :: 0 <= k < |s| ==> !Closer(x, y, s[k].x, s[k].y, CellSize)
  {
    var cell := G.FromPos(x, y, CellSize);
    forall k | 0 <= k < |s|
      ensures !Closer(x, y, s[k].x, s[k].y, CellSize)
    {
      var q := s[k];
      if Closer(x, y, q.x, q.y, CellSize) {
        CloseMeansAdjacentCells(x, y, q.x, q.y, CellSize, CellSize);
        DirectionsCoverBlock(cell, G.FromPos(q.x, q.y, CellSize));
      }
    }
  }

  /** Centres spaced by 2.2, with radii in [0.9, 1.1], give disks that do
      not overlap: the spacing test is enough for the disks it places. */
  lemma SpacedIsDisjoint(s: seq<Particle>)
    requires Spaced(s, CellSize)
    requires forall k :: 0 <= k < |s| ==> 0.9 <= s[k].radius <= 1.1
    ensures G.Disjoint(s)
  {
    forall a, b | 0 <= a < b < |s|
      ensures !G.Overlaps(s[a], s[b].x, s[b].y, s[b].radius)
    {
      if G.Overlaps(s[a], s[b].x, s[b].y, s[b].radius) {
        CloserWithin(s[b].x, s[b].y, s[a].x, s[a].y, s[a].radius + s[b].radius, CellSize);
      }
    }
  }

  /** Under the invariant with the draws in [0, 1), the disks do not overlap. */
  lemma PlacedIsDisjoint(g: map<G.Cell, seq<Particle>>, s: seq<Particle>, width: real, height: real)
    requires Packed(g, s, true, width, height)
    ensures G.Disjoint(s)
  {
    forall k | 0 <= k < |s|
      ensures 0.9 <= s[k].radius <= 1.1
    {
      assert Placed(s[k], width, height);
    }
    SpacedIsDisjoint(s);
  }

  /** A centre no closer than a side to the earlier ones keeps the list
      spaced. */
  lemma SpacedSnoc(s: seq<Particle>, p: Particle)
    requires Spaced(s, CellSize)
    requires forall k :: 0 <= k < |s| ==> !Closer(p.x, p.y, s[k].x, s[k].y, CellSize)
    ensures Spaced(s + [p], CellSize)
  {
    var t := s + [p];
    forall a, b | 0 <= a < b < |t|
      ensures !Closer(t[b].x, t[b].y, t[a].x, t[a].y, CellSize)
    {
      assert t[a] == s[a];
      if b < |s| {
        assert t[b] == s[b];
      }
    }
  }

  /** A disk not crowded in its block, and placed when `good`, keeps the
      invariant once stored under its cell. */
  lemma PackedAfterAdd(g: map<G.Cell, seq<Particle>>, s: seq<Particle>, p: Particle, good: bool,
                       width: real, height: real)
    requires Packed(g, s, good, width, height)
    requires !Crowded(g, p.x, p.y, CellSize, G.FromPos(p.x, p.y, CellSize))
    requires good ==> Placed(p, width, height)
    ensures Packed(g[G.FromPos(p.x, p.y, CellSize) := G.Bucket(g, G.FromPos(p.x, p.y, CellSize)) + [p]], s + [p],
                   good, width, height)
  {
    G.StoresAfterAdd(g, s, p, CellSize);
    ClearOfCrowding(g, s, p.x, p.y);
    SpacedSnoc(s, p);
    if good {
      var t := s + [p];
      forall k | 0 <= k < |t|
        ensures Placed(t[k], width, height)
      {
        if k < |s| {
          assert t[k] == s[k];
        }
      }
    }
  }

  /** The private class `GeneratedGrid` of this revision: the cell side is
      twice the radius it is built with. */
  class GeneratedGrid {
    const cellSize: real
    var grid: map<G.Cell, seq<Particle>>

    constructor (particleRadius: real)
      ensures cellSize == 2.0 * particleRadius && grid == map[]
    {
      cellSize := 2.0 * particleRadius;
      grid := map[];
    }

    /** `addParticle`: `particle` appended to the list of the cell's
        indices, created when absent; every other list is kept. */
    method AddParticle(particle: Particle, cell: Cell)
      modifies this`grid
      ensures grid == old(grid)[cell.Key() := G.Bucket(old(grid), cell.Key()) + [particle]]
    {
      grid := grid[cell.Key() := G.Bucket(grid, cell.Key()) + [particle]];
    }

    /** `checkCollision`: whether a centre stored in the 3x3 block around
        `cell` lies closer than a cell side to `(x, y)`. */
    method CheckCollision(x: real, y: real, cell: Cell) returns (b: bool)
      ensures b == Crowded(grid, x, y, cellSize, cell.Key())
    {
      var key := cell.Key();
      var d := 0;
      while d < |Directions|
        invariant 0 <= d <= |Directions|
        invariant forall e, q :: 0 <= e < d && q in G.Bucket(grid, Shifted(key, e)) ==> !Closer(x, y, q.x, q.y, cellSize)
      {
        var n := Shifted(key, d);
        if n in grid {
          var list := grid[n];
          var k := 0;
          while k < |list|
            invariant 0 <= k <= |list|
            invariant forall q :: q in list[..k] ==> !Closer(x, y, q.x, q.y, cellSize)
          {
            var other := list[k];
            var pos := other.GetPos();
            var dx := x - pos.x;
            var dy := y - pos.y;
            var dist2 := dx * dx + dy * dy;
            var minDist := cellSize * cellSize;
            if dist2 < minDist {
              assert other in G.Bucket(grid, Shifted(key, d)) && Closer(x, y, other.x, other.y, cellSize);
              return true;
            }
            assert list[..k + 1] == list[..k] + [other];
            k := k + 1;
          }
          assert list[..k] == list;
        }
        d := d + 1;
      }
      return false;
    }
  }

  /** Two draws for a centre of a disk of radius `radius`. */
  method DrawCentre(random: Random, height: real, width: real, radius: real) returns (x: real, y: real)
    modifies random
    ensures random.drawn == old(random.drawn) + 2
    ensures Uniform(random.stream) ==> (2.0 * radius <= width ==> radius <= x <= width - radius)
    ensures Uniform(random.stream) ==> (2.0 * radius <= height ==> radius <= y <= height - radius)
  {
    var v := random.NextDouble();
    x := v * (width - 2.0 * radius) + radius;
    var w := random.NextDouble();
    y := w * (height - 2.0 * radius) + radius;
    if Uniform(random.stream) {
      CentreInRange(v, width, radius, x);
      CentreInRange(w, height, radius, y);
    }
  }

  /** One turn of the redraw loop: a new centre, the cell moved to it, and
      the collision test at the new centre. */
  method Redraw(grid: GeneratedGrid, random: Random, cell: Cell, height: real, width: real, radius: real,
                ghost good: bool)
    returns (x: real, y: real, crowded: bool)
    requires grid.cellSize == CellSize && good == Uniform(random.stream)
    requires good ==> 0.9 <= radius < 1.1
    modifies random, cell
    ensures random.drawn == old(random.drawn) + 2
    ensures cell.Key() == G.FromPos(x, y, CellSize)
    ensures crowded == Crowded(grid.grid, x, y, CellSize, cell.Key())
    ensures good ==> Sample(radius, x, y, width, height)
  {
    x, y := DrawCentre(random, height, width, radius);
    cell.SetI(CellIndex(x, grid.cellSize));
    cell.SetJ(CellIndex(y, grid.cellSize));
    crowded := grid.CheckCollision(x, y, cell);
  }

  /** One requested particle: a radius and a centre, then new centres while
      the centre is crowded; each redraw spends one unit of `fuel`, and the
      particle is given up (`null`) when none is left. */
  method PlaceOne(grid: GeneratedGrid, random: Random, counter: IdCounter, height: real, width: real, fuel: nat)
    returns (p: Particle?, left: nat)
    requires grid.cellSize == CellSize
    modifies grid, random, counter
    ensures left <= fuel && random.drawn == old(random.drawn) + 3 + 2 * (fuel - left)
    ensures p == null ==> left == 0 && grid.grid == old(grid.grid) && counter.next == old(counter.next)
    ensures p != null ==> fresh(p) && p.id == old(counter.next) && counter.next == old(counter.next) + 1
    ensures p != null ==>
      grid.grid == old(grid.grid)[G.FromPos(p.x, p.y, CellSize) := G.Bucket(old(grid.grid), G.FromPos(p.x, p.y, CellSize)) + [p]]
    ensures p != null ==> !Crowded(old(grid.grid), p.x, p.y, CellSize, G.FromPos(p.x, p.y, CellSize))
    ensures p != null && Uniform(random.stream) ==> Placed(p, width, height)
  {
    var cellSize := grid.cellSize;
    ghost var g0 := grid.grid;
    ghost var n0 := random.drawn;
    var u := random.NextDouble();
    var radius := u * 0.2 + 0.9;
    ghost var good := Uniform(random.stream);
    if good {
      assert u == random.stream(n0);
      RadiusInRange(u, radius);
    }
    var x, y := DrawCentre(random, height, width, radius);
    var cell := new Cell(CellIndex(x, cellSize), CellIndex(y, cellSize));
    var crowded := grid.CheckCollision(x, y, cell);
    left := fuel;
    while crowded && left > 0
      invariant left <= fuel && random.drawn == n0 + 3 + 2 * (fuel - left)
      invariant grid.grid == g0 && grid.cellSize == cellSize && counter.next == old(counter.next)
      invariant cell.Key() == G.FromPos(x, y, cellSize)
      invariant crowded == Crowded(grid.grid, x, y, cellSize, cell.Key())
      invariant good ==> Sample(radius, x, y, width, height)
      decreases left
    {
      x, y, crowded := Redraw(grid, random, cell, height, width, radius, good);
      left := left - 1;
    }
    if crowded {
      return null, 0;
    }
    p := new Particle(x, y, radius, counter);
    grid.AddParticle(p, cell);
  }

  /** One request of `generate`, with what it does to the invariant of the
      grid and of the accepted disks `accepted`. */
  method Request(grid: GeneratedGrid, random: Random, counter: IdCounter, height: real, width: real, fuel: nat,
                 ghost accepted: seq<Particle>, ghost good: bool)
    returns (p: Particle?, left: nat)
    requires grid.cellSize == CellSize && good == Uniform(random.stream)
    requires Packed(grid.grid, accepted, good, width, height)
    modifies grid, random, counter
    ensures left <= fuel
    ensures p == null ==> left == 0 && counter.next == old(counter.next)
    ensures p == null ==> Packed(grid.grid, accepted, good, width, height)
    ensures p != null ==> fresh(p) && p.id == old(counter.next) && counter.next == old(counter.next) + 1
    ensures p != null ==> Packed(grid.grid, accepted + [p], good, width, height)
  {
    ghost var g0 := grid.grid;
    p, left := PlaceOne(grid, random, counter, height, width, fuel);
    if p != null {
      PackedAfterAdd(g0, accepted, p, good, width, height);
    }
  }

  /** `generate`: `particleNumber` requests, sharing `fuel` redraws among
      them; `accepted` lists what the consumer receives, in order, and
      `complete` says every request was met. The accepted centres are
      spaced by 2.2, and when the draws keep to [0, 1) the disks lie in
      the box and do not overlap. */
  method Generate(particleNumber: int, height: real, width: real, random: Random, counter: IdCounter, fuel: nat)
    returns (accepted: seq<Particle>, complete: bool)
    modifies random, counter
    ensures complete ==> |accepted| == if particleNumber < 0 then 0 else particleNumber
    ensures !complete ==> |accepted| < particleNumber
    ensures counter.next == old(counter.next) + |accepted|
    ensures forall k :: 0 <= k < |accepted| ==> fresh(accepted[k]) && accepted[k].id == old(counter.next) + k
    ensures Spaced(accepted, CellSize)
    ensures Uniform(random.stream) ==>
      G.Disjoint(accepted) && forall k :: 0 <= k < |accepted| ==> Placed(accepted[k], width, height)
  {
    var radius := NominalRadius;
    var grid := new GeneratedGrid(radius);
    accepted := [];
    ghost var good := Uniform(random.stream);
    var left := fuel;
    complete := true;
    while |accepted| < particleNumber
      invariant |accepted| == 0 || |accepted| <= particleNumber
      invariant counter.next == old(counter.next) + |accepted|
      invariant forall k :: 0 <= k < |accepted| ==> fresh(accepted[k]) && accepted[k].id == old(counter.next) + k
      invariant grid.cellSize == CellSize
      invariant Packed(grid.grid, accepted, good, width, height)
      invariant complete
      decreases particleNumber - |accepted|
    {
      var p: Particle?;
      p, left := Request(grid, random, counter, height, width, left, accepted, good);
      if p == null {
        complete := false;
        break;
      }
      accepted := accepted + [p];
    }
    if good {
      PlacedIsDisjoint(grid.grid, accepted, width, height);
    }
  }
}
