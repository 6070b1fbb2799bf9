/** Neighbour lookup on a fixed, non-wrapping `d×d` board: the cells
    horizontally, vertically or diagonally adjacent to a cell, clipped at
    the edges of the board. */
module Neighbours {
  import opened Coords

  /** The eight (row, column) offsets around a cell, in row-major order;
      (0, 0), the cell itself, is not among them. */
  const Offsets: seq<(int, int)> :=
    [(-1, -1), (-1, 0), (-1, 1), (0, -1), (0, 1), (1, -1), (1, 0), (1, 1)]

  predicate Distinct<T(==)>(s: seq<T>) {
    forall p, q :: 0 <= p < q < |s| ==> s[p] != s[q]
  }

  /** Whether offset `o` = (row offset, column offset) moves the cell at
      (col, row) onto the board, landing on flat index `j`. */
  predicate Lands(d: nat, col: nat, row: nat, o: (int, int), j: int) {
    OnBoard(d, col + o.1, row + o.0) && j == Index(d, col + o.1, row + o.0)
  }

  /** The flat indices reached from (col, row) by the offsets `offs`, in the
      order of `offs`, skipping every offset that falls off the board. */
  function Clip(d: nat, col: nat, row: nat, offs: seq<(int, int)>): (ns: seq<nat>)
    ensures |ns| <= |offs|
  {
    if offs == [] then []
    else
      var rest := Clip(d, col, row, offs[1..]);
      var c, r := col + offs[0].1, row + offs[0].0;
      if OnBoard(d, c, r) then [Index(d, c, r)] + rest else rest
  }

  /** Clipping only produces indices of the board. */
  lemma {:induction false} ClipOnBoard(d: nat, col: nat, row: nat, offs: seq<(int, int)>)
    ensures forall k :: 0 <= k < |Clip(d, col, row, offs)| ==> Clip(d, col, row, offs)[k] < d * d
  {
    if offs != [] {
      ClipOnBoard(d, col, row, offs[1..]);
      var c, r := col + offs[0].1, row + offs[0].0;
      if OnBoard(d, c, r) {
        IndexOnBoard(d, c, r);
      }
    }
  }

  /** `get_neighbors_from_index`, as flat indices: the on-board cells around
      flat index `i`. */
  function NeighbourIndices(d: nat, i: nat): (ns: seq<nat>)
    requires i < d * d
    ensures |ns| <= 8
  {
    IndexOfCoords(d, i);
    Clip(d, Col(d, i), Row(d, i), Offsets)
  }

  /** Every listed neighbour is a cell of the board. */
  lemma NeighboursOnBoard(d: nat, i: nat)
    requires i < d * d
    ensures forall k :: 0 <= k < |NeighbourIndices(d, i)| ==> NeighbourIndices(d, i)[k] < d * d
  {
    IndexOfCoords(d, i);
    ClipOnBoard(d, Col(d, i), Row(d, i), Offsets);
  }

  /** Reference definition of adjacency, stated on coordinates: `j` is a
      different cell of the board whose row and column each differ from
      those of `i` by at most one. */
  predicate IsNeighbour(d: nat, i: nat, j: nat)
    requires d > 0
  {
    && j < d * d
    && j != i
    && -1 <= Row(d, j) - Row(d, i) <= 1
    && -1 <= Col(d, j) - Col(d, i) <= 1
  }

  /** Number of rows (or columns) within distance one of `x` on the board. */
  function Span(d: nat, x: nat): nat {
    (if x > 0 then 1 else 0) + 1 + (if x + 1 < d then 1 else 0)
  }

  predicate IsCorner(d: nat, i: nat)
    requires d > 0
  {
    (Row(d, i) == 0 || Row(d, i) == d - 1) && (Col(d, i) == 0 || Col(d, i) == d - 1)
  }

  predicate IsInterior(d: nat, i: nat)
    requires d > 0
  {
    0 < Row(d, i) < d - 1 && 0 < Col(d, i) < d - 1
  }

  /** On the border of the board but not at a corner. */
  predicate IsEdge(d: nat, i: nat)
    requires d > 0
  {
    !IsCorner(d, i) && !IsInterior(d, i)
  }

  /** Clipping a concatenation of offset lists clips each part. */
  lemma {:induction false} ClipAppend(d: nat, col: nat, row: nat, a: seq<(int, int)>, b: seq<(int, int)>)
    ensures Clip(d, col, row, a + b) == Clip(d, col, row, a) + Clip(d, col, row, b)
  {
    if a == [] {
      assert a + b == b;
    } else {
      assert (a + b)[1..] == a[1..] + b;
      ClipAppend(d, col, row, a[1..], b);
    }
  }

  /** An index is produced by clipping exactly when some offset lands on it. */
  lemma {:induction false} ClipMembers(d: nat, col: nat, row: nat, offs: seq<(int, int)>, j: nat)
    ensures j in Clip(d, col, row, offs) <==> exists o :: o in offs && Lands(d, col, row, o, j)
  {
    if offs != [] {
      var rest := Clip(d, col, row, offs[1..]);
      ClipMembers(d, col, row, offs[1..], j);
      assert forall o :: o in offs <==> o == offs[0] || o in offs[1..];
      if Lands(d, col, row, offs[0], j) {
        assert j in Clip(d, col, row, offs);
      } else if j in Clip(d, col, row, offs) {
        assert j in rest;
      }
    }
  }

  /** Distinct offsets land on distinct indices, so clipping never repeats a cell. */
  lemma {:induction false} ClipDistinct(d: nat, col: nat, row: nat, offs: seq<(int, int)>)
    requires Distinct(offs)
    ensures Distinct(Clip(d, col, row, offs))
  {
    if offs != [] {
      var rest := Clip(d, col, row, offs[1..]);
      ClipDistinct(d, col, row, offs[1..]);
      var c, r := col + offs[0].1, row + offs[0].0;
      if OnBoard(d, c, r) {
        var h := Index(d, c, r);
        if h in rest {
          ClipMembers(d, col, row, offs[1..], h);
          var o :| o in offs[1..] && Lands(d, col, row, o, h);
          IndexInjective(d, c, r, col + o.1, row + o.0);
        }
      }
    }
  }

  /** Every listed neighbour is a neighbour by the reference definition. */
  lemma NeighbourSound(d: nat, i: nat, j: nat)
    requires i < d * d
    requires j in NeighbourIndices(d, i)
    ensures d > 0 && IsNeighbour(d, i, j)
  {
    IndexOfCoords(d, i);
    var col, row := Col(d, i), Row(d, i);
    assert j in Clip(d, col, row, Offsets);
    ClipMembers(d, col, row, Offsets, j);
    var o: (int, int) :| o in Offsets && Lands(d, col, row, o, j);
    IndexOnBoard(d, col + o.1, row + o.0);
    CoordsOfIndex(d, col + o.1, row + o.0);
  }

  /** Every neighbour by the reference definition is listed. */
  lemma NeighbourComplete(d: nat, i: nat, j: nat)
    requires i < d * d
    requires d > 0 && IsNeighbour(d, i, j)
    ensures j in NeighbourIndices(d, i)
  {
    IndexOfCoords(d, i);
    IndexOfCoords(d, j);
    var col, row := Col(d, i), Row(d, i);
    var o := (Row(d, j) - row, Col(d, j) - col);
    assert o != (0, 0);
    assert o in Offsets;
    assert Lands(d, col, row, o, j);
    ClipMembers(d, col, row, Offsets, j);
  }

  /** The neighbour list is exactly the reference neighbourhood, without repeats. */
  lemma NeighboursExact(d: nat, i: nat)
    requires i < d * d
    ensures d > 0
    ensures forall j: nat :: j in NeighbourIndices(d, i) <==> IsNeighbour(d, i, j)
    ensures Distinct(NeighbourIndices(d, i))
  {
    IndexOfCoords(d, i);
    ClipDistinct(d, Col(d, i), Row(d, i), Offsets);
    forall j: nat
      ensures j in NeighbourIndices(d, i) <==> IsNeighbour(d, i, j)
    {
      if j in NeighbourIndices(d, i) {
        NeighbourSound(d, i, j);
      }
      if IsNeighbour(d, i, j) {
        NeighbourComplete(d, i, j);
      }
    }
  }

  /** Clipping one row of three offsets keeps every in-range column of that row. */
  lemma ClipRowCount(d: nat, col: nat, row: nat, dr: int)
    requires col < d
    ensures |Clip(d, col, row, [(dr, -1), (dr, 0), (dr, 1)])|
            == if 0 <= row + dr < d then Span(d, col) else 0
  {
    var offs: seq<(int, int)> := [(dr, -1), (dr, 0), (dr, 1)];
    var inRow := 0 <= row + dr < d;
    assert offs[1..] == [(dr, 0), (dr, 1)];
    assert offs[1..][1..] == [(dr, 1)];
    assert |offs[1..][1..][1..]| == 0;
    assert |Clip(d, col, row, offs[1..][1..])| == if inRow && col + 1 < d then 1 else 0;
    assert |Clip(d, col, row, offs[1..])| == if inRow then 1 + (if col + 1 < d then 1 else 0) else 0;
  }

  /** Clipping the two horizontal offsets keeps the in-range columns beside the cell. */
  lemma ClipMiddleCount(d: nat, col: nat, row: nat)
    requires col < d && row < d
    ensures |Clip(d, col, row, [(0, -1), (0, 1)])| == Span(d, col) - 1
  {
    var offs: seq<(int, int)> := [(0, -1), (0, 1)];
    assert offs[1..] == [(0, 1)];
    assert |offs[1..][1..]| == 0;
    assert |Clip(d, col, row, offs[1..])| == if col + 1 < d then 1 else 0;
  }

  /** The neighbour count is the product of the row and column spans, less
      the cell itself. */
  lemma NeighbourCount(d: nat, i: nat)
    requires i < d * d
    ensures d > 0
    ensures |NeighbourIndices(d, i)| == Span(d, Row(d, i)) * Span(d, Col(d, i)) - 1
  {
    IndexOfCoords(d, i);
    var col, row := Col(d, i), Row(d, i);
    var top, mid, bottom := [(-1, -1), (-1, 0), (-1, 1)], [(0, -1), (0, 1)], [(1, -1), (1, 0), (1, 1)];
    assert Offsets == top + mid + bottom;
    ClipAppend(d, col, row, top + mid, bottom);
    ClipAppend(d, col, row, top, mid);
    ClipRowCount(d, col, row, -1);
    ClipMiddleCount(d, col, row);
    ClipRowCount(d, col, row, 1);
    var s := Span(d, col);
    assert Span(d, row) * s == (if row > 0 then s else 0) + s + (if row + 1 < d then s else 0);
  }

  /** On a board of side at least two, corners have 3 neighbours, other
      border cells 5 and interior cells 8; a 1×1 board has none. */
  lemma NeighbourCountByPosition(d: nat, i: nat)
    requires i < d * d
    ensures d > 0
    ensures d == 1 ==> |NeighbourIndices(d, i)| == 0
    ensures d >= 2 && IsCorner(d, i) ==> |NeighbourIndices(d, i)| == 3
    ensures d >= 2 && IsEdge(d, i) ==> |NeighbourIndices(d, i)| == 5
    ensures d >= 2 && IsInterior(d, i) ==> |NeighbourIndices(d, i)| == 8
  {
    NeighbourCount(d, i);
  }
}
