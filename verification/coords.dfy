/** Row-major coordinates on a `d×d` board. The grid accessor takes the
    column first: `grid[col, row]` reads flat index `row * d + col`. */
module Coords {

  /** Flat index of the cell in column `col` of row `row`. */
  function Index(d: nat, col: nat, row: nat): nat {
    row * d + col
  }

  /** Row of flat index `i`. */
  function Row(d: nat, i: nat): nat
    requires d > 0
  {
    i / d
  }

  /** Column of flat index `i`. */
  function Col(d: nat, i: nat): nat
    requires d > 0
  {
    i % d
  }

  /** Whether (col, row) lies on a `d×d` board; no wrap-around. */
  predicate OnBoard(d: nat, col: int, row: int) {
    0 <= col < d && 0 <= row < d
  }

  /** Row `k` of `rows` rows of width `w` ends inside the board: `k * w`
      stays below `rows * w` by at least `w` when `k < rows`. */
  lemma MulBelow(w: nat, rows: nat, k: nat)
    requires k < rows
    ensures k * w + w <= rows * w
  {
    assert (rows - k) * w >= w by {
      assert rows - k >= 1;
    }
    assert (rows - k) * w == rows * w - k * w;
  }

  /** A position before `rows * w` lies in one of the first `rows` rows of
      width `w`. */
  lemma DivBelow(w: nat, rows: nat, k: nat)
    requires w > 0 && k < rows * w
    ensures k / w < rows
  {
    var r := k / w;
    assert r * w <= k;
    assert (rows - r) * w == rows * w - r * w > 0;
  }

  /** A product `d * q` strictly between `-d` and `d` forces `q == 0`. */
  lemma SmallMultiple(d: int, q: int)
    requires d > 0
    requires -d < d * q < d
    ensures q == 0
  {
  }

  /** Every on-board coordinate pair has an index inside the board. */
  lemma IndexOnBoard(d: nat, col: nat, row: nat)
    requires OnBoard(d, col, row)
    ensures Index(d, col, row) < d * d
  {
    MulBelow(d, d, row);
  }

  /** Row and column recover the coordinates an index was built from. */
  lemma CoordsOfIndex(d: nat, col: nat, row: nat)
    requires col < d
    ensures Row(d, Index(d, col, row)) == row
    ensures Col(d, Index(d, col, row)) == col
  {
    var i := Index(d, col, row);
    var q, m := i / d, i % d;
    assert d * q + m == d * row + col;
    assert d * (q - row) == col - m;
    SmallMultiple(d, q - row);
  }

  /** An index is rebuilt from its row and column, and those lie on the board. */
  lemma IndexOfCoords(d: nat, i: nat)
    requires i < d * d
    ensures d > 0
    ensures OnBoard(d, Col(d, i), Row(d, i))
    ensures Index(d, Col(d, i), Row(d, i)) == i
  {
    assert d > 0;
  }

  /** Distinct on-board coordinate pairs have distinct indices. */
  lemma IndexInjective(d: nat, c1: nat, r1: nat, c2: nat, r2: nat)
    requires c1 < d && c2 < d
    requires Index(d, c1, r1) == Index(d, c2, r2)
    ensures c1 == c2 && r1 == r2
  {
    CoordsOfIndex(d, c1, r1);
    CoordsOfIndex(d, c2, r2);
  }
}
