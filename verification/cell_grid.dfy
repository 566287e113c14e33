/**
 * The cell-index grid of the silo: an M x N grid of cells numbered row by
 * row from the bottom-left corner, the cell a position falls into, and the
 * half stencil of neighbouring cells (above, upper right, right, lower
 * right) that the cell-index pass visits from each cell.
 */
module CellGrid {

  datatype Option<T> = None | Some(value: T)

  /** `Math.ceil` on exact reals. */
  function Ceil(v: real): (c: int)
    ensures v <= c as real < v + 1.0
  {
    -((-v).Floor)
  }

  /** The number of cells along one side: `round(ceil(extent / side - 1))`,
      where `side = neighborRadius + 2 * maxParRadius`. */
  function CellCount(extent: real, side: real): int
    requires side > 0.0
  {
    Ceil(extent / side - 1.0)
  }

  /** With at least one cell's worth of room, there is at least one cell and
      every cell is strictly longer than `side`, so two particles that can
      interact never lie more than one cell apart. */
  lemma CellCountBounds(extent: real, side: real)
    requires side > 0.0 && extent > side
    ensures CellCount(extent, side) >= 1
    ensures extent / CellCount(extent, side) as real > side
  {
    var m := CellCount(extent, side);
    var q := extent / side;
    assert q > 1.0 by {
      assert extent == q * side;
    }
    assert m as real < q;
    assert m as real * side < extent by {
      assert m as real * side < q * side;
    }
  }

  /** The index of the column (or row) a coordinate falls into: the
      truncating `(int)` cast of `v / length`, for `v >= 0`. */
  function Slot(v: real, length: real): int
    requires length > 0.0
  {
    (v / length).Floor
  }

  /** Coordinates less than one cell length apart fall into the same or
      adjacent slots. */
  lemma {:induction false} CloseCoordinatesAdjacentSlots(u: real, v: real, length: real)
    requires length > 0.0
    requires u <= v < u + length
    ensures Slot(u, length) <= Slot(v, length) <= Slot(u, length) + 1
  {
    assert u / length <= v / length by {
      assert u * (1.0 / length) <= v * (1.0 / length);
    }
    assert v / length < u / length + 1.0 by {
      assert v / length == v * (1.0 / length);
      assert u / length + 1.0 == (u + length) * (1.0 / length);
      assert v * (1.0 / length) < (u + length) * (1.0 / length);
    }
  }

  /** `addParticleToGrid`: the cell of a position, or nothing when the
      position lies outside `[0, width) x [0, height)`. */
  function CellIndexOf(x: real, y: real, width: real, height: real,
                       hCell: real, vCell: real, n: int): Option<int>
    requires hCell > 0.0 && vCell > 0.0
  {
    if x >= width || x < 0.0 || y >= height || y < 0.0 then None
    else Some(Slot(x, hCell) + n * Slot(y, vCell))
  }

  /** A slot of a coordinate in `[0, extent)` with cells of `extent / count`
      is in `[0, count)`. */
  lemma SlotInRange(v: real, extent: real, count: int)
    requires count >= 1 && extent > 0.0
    requires 0.0 <= v < extent
    ensures 0 <= Slot(v, extent / count as real) < count
  {
    var l := extent / count as real;
    assert v / l == v * count as real / extent;
    assert v * count as real < extent * count as real;
    assert v * count as real / extent < count as real;
  }

  /** Every position inside the box gets a cell of the grid, and that cell
      is the one in the position's row and column. */
  lemma CellIndexInRange(x: real, y: real, width: real, height: real, m: int, n: int)
    requires m >= 1 && n >= 1 && width > 0.0 && height > 0.0
    ensures var c := CellIndexOf(x, y, width, height, width / n as real, height / m as real, n);
      c.Some? <==> (0.0 <= x < width && 0.0 <= y < height)
    ensures var c := CellIndexOf(x, y, width, height, width / n as real, height / m as real, n);
      c.Some? ==>
        0 <= c.value < m * n
        && Row(c.value, n) == Slot(y, height / m as real)
        && Col(c.value, n) == Slot(x, width / n as real)
  {
    if 0.0 <= x < width && 0.0 <= y < height {
      var col, row := Slot(x, width / n as real), Slot(y, height / m as real);
      SlotInRange(x, width, n);
      SlotInRange(y, height, m);
      RowColOf(row, col, n);
      assert row * n + col < m * n by {
        MulAtLeastRow(m, row + 1, n);
        assert (row + 1) * n == row * n + n;
      }
    }
  }

  /** `cellIndex / N` and `cellIndex % N` (non-negative operands, so Java's
      truncating division agrees with Dafny's). */
  function Row(i: int, n: int): int
    requires n >= 1
  {
    i / n
  }

  function Col(i: int, n: int): int
    requires n >= 1
  {
    i % n
  }

  lemma RowColOf(row: int, col: int, n: int)
    requires n >= 1 && 0 <= col < n
    ensures Row(col + n * row, n) == row && Col(col + n * row, n) == col
    ensures col + n * row == row * n + col
  {
    DivModUnique(col + n * row, n, row, col);
  }

  lemma MulAtLeast(k: int, n: int)
    requires k >= 1 && n >= 0
    ensures k * n >= n
  {
    assert k * n == (k - 1) * n + n;
  }

  /** Division with remainder is unique. */
  lemma DivModUnique(a: int, n: int, q: int, r: int)
    requires n >= 1 && 0 <= r < n && a == q * n + r
    ensures a / n == q && a % n == r
  {
    var q', r' := a / n, a % n;
    assert a == q' * n + r';
    assert (q - q') * n == r' - r;
    if q - q' >= 1 {
      MulAtLeast(q - q', n);
    } else if q' - q >= 1 {
      MulAtLeast(q' - q, n);
    }
  }

  /** The stencil directions `(dRow, dCol)`: above, upper right, right,
      lower right. */
  const Directions: seq<(int, int)> := [(1, 0), (1, 1), (0, 1), (-1, 1)]

  /** The cell one step `d` away from `(row, col)`, when it lies in the
      `m x n` grid. */
  function Step(row: int, col: int, d: (int, int), m: int, n: int): seq<int> {
    var r, c := row + d.0, col + d.1;
    if 0 <= r < m && 0 <= c < n then [r * n + c] else []
  }

  /** The cells one step away along each of `dirs`, in order. */
  function Steps(row: int, col: int, dirs: seq<(int, int)>, m: int, n: int): seq<int>
    decreases |dirs|
  {
    if dirs == [] then []
    else Steps(row, col, dirs[..|dirs| - 1], m, n) + Step(row, col, dirs[|dirs| - 1], m, n)
  }

  /** The step along `d` is the index of the cell it reaches, or nothing when
      that cell is off the grid. */
  lemma StepValue(row: int, col: int, d: (int, int), m: int, n: int, target: int)
    requires target == (row + d.0) * n + (col + d.1)
    ensures 0 <= row + d.0 < m && 0 <= col + d.1 < n ==> Step(row, col, d, m, n) == [target]
    ensures !(0 <= row + d.0 < m && 0 <= col + d.1 < n) ==> Step(row, col, d, m, n) == []
  {
  }

  /** Taking one more direction appends its step. */
  lemma StepsSnoc(row: int, col: int, dirs: seq<(int, int)>, d: int, m: int, n: int)
    requires 0 <= d < |dirs|
    ensures Steps(row, col, dirs[..d + 1], m, n) == Steps(row, col, dirs[..d], m, n) + Step(row, col, dirs[d], m, n)
  {
    assert dirs[..d + 1][..d] == dirs[..d];
  }

  /** The cells visited from cell `i` by `getAboveAndRightAdjacentParticles`. */
  function Stencil(i: int, m: int, n: int): seq<int>
    requires n >= 1
  {
    Steps(Row(i, n), Col(i, n), Directions, m, n)
  }

  /** Cells in the same or neighbouring row and column. */
  predicate Adjacent(a: int, b: int, n: int)
    requires n >= 1
  {
    -1 <= Row(a, n) - Row(b, n) <= 1 && -1 <= Col(a, n) - Col(b, n) <= 1
  }

  lemma StencilUnrolled(i: int, m: int, n: int)
    requires n >= 1
    ensures var row, col := Row(i, n), Col(i, n);
      Stencil(i, m, n) == Step(row, col, (1, 0), m, n) + Step(row, col, (1, 1), m, n)
        + Step(row, col, (0, 1), m, n) + Step(row, col, (-1, 1), m, n)
  {
    var row, col := Row(i, n), Col(i, n);
    var d1, d2, d3 := [(1, 0)], [(1, 0), (1, 1)], [(1, 0), (1, 1), (0, 1)];
    assert Directions[..3] == d3 && d3[..2] == d2 && d2[..1] == d1 && d1[..0] == [];
    assert Steps(row, col, d1, m, n) == Step(row, col, (1, 0), m, n);
    assert Steps(row, col, d2, m, n) == Steps(row, col, d1, m, n) + Step(row, col, (1, 1), m, n);
    assert Steps(row, col, d3, m, n) == Steps(row, col, d2, m, n) + Step(row, col, (0, 1), m, n);
    assert Steps(row, col, Directions, m, n) == Steps(row, col, d3, m, n) + Step(row, col, (-1, 1), m, n);
  }

  lemma RowColOfCell(r: int, c: int, n: int)
    requires n >= 1 && 0 <= c < n
    ensures Row(r * n + c, n) == r && Col(r * n + c, n) == c
  {
    RowColOf(r, c, n);
  }

  /** The grid cell in row `r` and column `c` has index below `m * n`. */
  lemma CellBelowCount(r: int, c: int, m: int, n: int)
    requires n >= 1 && 0 <= r < m && 0 <= c < n
    ensures 0 <= r * n + c < m * n
  {
    assert r * n <= (m - 1) * n;
  }

  /** A cell one step away lies in the grid, next to `i`, and is not `i`. */
  lemma StepSound(i: int, m: int, n: int, d: (int, int), c: int)
    requires n >= 1 && 0 <= i < m * n
    requires d in Directions
    requires c in Step(Row(i, n), Col(i, n), d, m, n)
    ensures 0 <= c < m * n && c != i && Adjacent(i, c, n)
    ensures Row(c, n) == Row(i, n) + d.0 && Col(c, n) == Col(i, n) + d.1
  {
    var r, k := Row(i, n) + d.0, Col(i, n) + d.1;
    RowColOfCell(r, k, n);
    CellBelowCount(r, k, m, n);
  }

  /** A cell of the stencil of `i` lies in the grid, next to `i`, and is not
      `i` itself; it is the cell above `i`, or lies in the column to its
      right. */
  lemma StencilSound(i: int, m: int, n: int, c: int)
    requires n >= 1 && 0 <= i < m * n
    requires c in Stencil(i, m, n)
    ensures 0 <= c < m * n && c != i && Adjacent(i, c, n)
    ensures (Col(c, n) == Col(i, n) && Row(c, n) == Row(i, n) + 1) || Col(c, n) == Col(i, n) + 1
  {
    var row, col := Row(i, n), Col(i, n);
    StencilUnrolled(i, m, n);
    if c in Step(row, col, (1, 0), m, n) {
      StepSound(i, m, n, (1, 0), c);
    } else if c in Step(row, col, (1, 1), m, n) {
      StepSound(i, m, n, (1, 1), c);
    } else if c in Step(row, col, (0, 1), m, n) {
      StepSound(i, m, n, (0, 1), c);
    } else {
      StepSound(i, m, n, (-1, 1), c);
    }
  }

  /** The row of a cell of the grid is one of its `m` rows. */
  lemma RowInRange(c: int, m: int, n: int)
    requires n >= 1 && 0 <= c < m * n
    ensures 0 <= Row(c, n) < m && c == Row(c, n) * n + Col(c, n)
  {
    DivModUnique(c, n, Row(c, n), Col(c, n));
    if Row(c, n) >= m {
      MulAtLeastRow(Row(c, n), m, n);
    }
  }

  lemma StepComplete(i: int, m: int, n: int, d: (int, int), c: int)
    requires n >= 1 && 0 <= c < m * n
    requires Row(c, n) == Row(i, n) + d.0 && Col(c, n) == Col(i, n) + d.1
    ensures c in Step(Row(i, n), Col(i, n), d, m, n)
  {
    RowInRange(c, m, n);
  }

  /** Conversely, every such cell is in the stencil. */
  lemma StencilComplete(i: int, m: int, n: int, c: int)
    requires n >= 1 && 0 <= i < m * n
    requires 0 <= c < m * n && c != i && Adjacent(i, c, n)
    requires (Col(c, n) == Col(i, n) && Row(c, n) == Row(i, n) + 1) || Col(c, n) == Col(i, n) + 1
    ensures c in Stencil(i, m, n)
  {
    var row, col := Row(i, n), Col(i, n);
    StencilUnrolled(i, m, n);
    var d := (Row(c, n) - row, Col(c, n) - col);
    StepComplete(i, m, n, d, c);
    assert d in Directions;
  }

  lemma MulAtLeastRow(r: int, m: int, n: int)
    requires n >= 1 && r >= m
    ensures r * n >= m * n
  {
    assert r * n == (r - m) * n + m * n;
    if r > m {
      MulAtLeast(r - m, n);
    }
  }

  /** Every pair of distinct neighbouring cells of the grid is visited
      exactly once: one of the two cells has the other in its stencil. */
  lemma StencilCoversEachPairOnce(a: int, b: int, m: int, n: int)
    requires n >= 1 && 0 <= a < m * n && 0 <= b < m * n
    requires a != b && Adjacent(a, b, n)
    ensures (b in Stencil(a, m, n)) != (a in Stencil(b, m, n))
  {
    DivModUnique(a, n, Row(a, n), Col(a, n));
    DivModUnique(b, n, Row(b, n), Col(b, n));
    if b in Stencil(a, m, n) {
      StencilSound(a, m, n, b);
      if a in Stencil(b, m, n) {
        StencilSound(b, m, n, a);
      }
    } else {
      if Col(a, n) == Col(b, n) {
        assert Row(a, n) != Row(b, n);
        if Row(b, n) == Row(a, n) + 1 {
          StencilComplete(a, m, n, b);
        } else {
          StencilComplete(b, m, n, a);
        }
      } else if Col(b, n) == Col(a, n) + 1 {
        StencilComplete(a, m, n, b);
      } else {
        StencilComplete(b, m, n, a);
      }
    }
  }

  /** No cell occurs twice in a stencil: the four directions reach four
      different cells. */
  lemma StencilOnce(i: int, m: int, n: int, c: int)
    requires n >= 1 && 0 <= i < m * n
    ensures multiset(Stencil(i, m, n))[c] == if c in Stencil(i, m, n) then 1 else 0
  {
    var row, col := Row(i, n), Col(i, n);
    StencilUnrolled(i, m, n);
    var s1, s2, s3, s4 := Step(row, col, (1, 0), m, n), Step(row, col, (1, 1), m, n),
                          Step(row, col, (0, 1), m, n), Step(row, col, (-1, 1), m, n);
    if c in s1 { StepSound(i, m, n, (1, 0), c); }
    if c in s2 { StepSound(i, m, n, (1, 1), c); }
    if c in s3 { StepSound(i, m, n, (0, 1), c); }
    if c in s4 { StepSound(i, m, n, (-1, 1), c); }
    assert multiset(Stencil(i, m, n)) == multiset(s1) + multiset(s2) + multiset(s3) + multiset(s4);
  }
}
