/** The Life grid: a `d×d` board of cells stored as one flat row-major
    sequence, with coordinate access, neighbour lookup, one synchronous
    generation step and text rendering. */
module Grids {
  import Cells
  import opened Coords
  import opened Neighbours
  import Rules
  import Render

  datatype Grid = Grid(dim: nat, cells: seq<Cells.Cell>)

  /** The grid holds exactly `dim * dim` cells. */
  predicate Valid(g: Grid) {
    |g.cells| == g.dim * g.dim
  }

  /** `state`: the status of every cell, row-major. */
  function State(g: Grid): (s: seq<bool>)
    ensures |s| == |g.cells|
    ensures forall i :: 0 <= i < |s| ==> s[i] == g.cells[i].IsAlive()
  {
    seq(|g.cells|, i requires 0 <= i < |g.cells| => g.cells[i].IsAlive())
  }

  /** `Grid.new(d, state: …)`: one cell per status, in order; without a
      state every cell is dead. */
  function New(d: nat, state: seq<bool> := seq(d * d, _ => false)): (g: Grid)
    requires |state| == d * d
    ensures Valid(g) && g.dim == d
    ensures State(g) == state
  {
    Grid(d, seq(d * d, i requires 0 <= i < d * d => Cells.New(state[i])))
  }

  /** Building a grid from the dimension and state of a grid gives that grid
      back: a grid is nothing but its dimension and statuses. */
  lemma NewFromState(g: Grid)
    requires Valid(g)
    ensures New(g.dim, State(g)) == g
  {
    var h := New(g.dim, State(g));
    forall i | 0 <= i < |g.cells|
      ensures h.cells[i] == g.cells[i]
    {
      Cells.CellIsItsStatus(g.cells[i]);
    }
  }

  /** `grid[col, row]`: the column comes first. */
  function Get(g: Grid, col: nat, row: nat): (c: Cells.Cell)
    requires Valid(g) && col < g.dim && row < g.dim
    ensures row * g.dim + col < |State(g)|
    ensures c.IsAlive() == State(g)[row * g.dim + col]
  {
    IndexOnBoard(g.dim, col, row);
    g.cells[Index(g.dim, col, row)]
  }

  /** The accessor reaches every cell: flat index `i` is read by
      `grid[i % d, i / d]`. */
  lemma GetReachesEveryCell(g: Grid, i: nat)
    requires Valid(g) && i < |g.cells|
    ensures g.dim > 0 && Col(g.dim, i) < g.dim && Row(g.dim, i) < g.dim
    ensures Get(g, Col(g.dim, i), Row(g.dim, i)) == g.cells[i]
  {
    IndexOfCoords(g.dim, i);
  }

  /** The accessor reads each cell at most once: `grid[col, row]` is the
      status at flat index `row * d + col` of the state, and different
      coordinates read different positions of the sequence. */
  lemma GetIsColumnFirst(g: Grid, c1: nat, r1: nat, c2: nat, r2: nat)
    requires Valid(g)
    requires c1 < g.dim && r1 < g.dim && c2 < g.dim && r2 < g.dim
    ensures r1 * g.dim + c1 < |State(g)|
    ensures Get(g, c1, r1).IsAlive() == State(g)[r1 * g.dim + c1]
    ensures (c1, r1) != (c2, r2) ==> r1 * g.dim + c1 != r2 * g.dim + c2
  {
    IndexOnBoard(g.dim, c1, r1);
    if Index(g.dim, c1, r1) == Index(g.dim, c2, r2) {
      IndexInjective(g.dim, c1, r1, c2, r2);
    }
  }

  /** `get_neighbors_from_index`: the cells around flat index `i`. */
  function NeighbourCells(g: Grid, i: nat): (ns: seq<Cells.Cell>)
    requires Valid(g) && i < |g.cells|
    ensures |ns| == |NeighbourIndices(g.dim, i)| <= 8
    ensures forall k :: 0 <= k < |ns| ==>
              && NeighbourIndices(g.dim, i)[k] < |g.cells|
              && ns[k].IsAlive() == State(g)[NeighbourIndices(g.dim, i)[k]]
  {
    NeighboursOnBoard(g.dim, i);
    var idxs := NeighbourIndices(g.dim, i);
    seq(|idxs|, k requires 0 <= k < |idxs| => g.cells[idxs[k]])
  }

  /** `generate!`: first the whole next state is computed from the snapshot
      of the current statuses, then every cell is told to live or die. */
  function Generate(g: Grid): (h: Grid)
    requires Valid(g)
    ensures Valid(h) && h.dim == g.dim
    ensures State(h) == Rules.NextState(g.dim, State(g))
  {
    var next := Rules.NextState(g.dim, State(g));
    Grid(g.dim, seq(|g.cells|, i requires 0 <= i < |g.cells| =>
                      if next[i] then Cells.Live(g.cells[i]) else Cells.Die(g.cells[i])))
  }

  /** `generate!` as an in-place update of the cells, one at a time, where
      every neighbour count reads the snapshot taken before the loop and
      never a cell already updated. */
  method Advance(g: Grid) returns (h: Grid)
    requires Valid(g)
    ensures Valid(h) && h.dim == g.dim
    ensures State(h) == Rules.NextState(g.dim, State(g))
  {
    var snapshot := State(g);
    var cells := g.cells;
    var i := 0;
    while i < |cells|
      invariant 0 <= i <= |cells| == |g.cells|
      invariant forall k :: 0 <= k < i ==> cells[k].IsAlive() == Rules.NextState(g.dim, snapshot)[k]
      invariant forall k :: i <= k < |cells| ==> cells[k] == g.cells[k]
    {
      var n := Rules.LiveNeighbours(g.dim, snapshot, i);
      var c := if Rules.NextStatus(cells[i].IsAlive(), n) then Cells.Live(cells[i]) else Cells.Die(cells[i]);
      cells := cells[i := c];
      i := i + 1;
    }
    h := Grid(g.dim, cells);
  }

  /** `to_s`: one line of `2 * dim` characters plus a newline per row, top
      to bottom; reading the text back gives the state. */
  function ToString(g: Grid): (t: string)
    requires Valid(g)
    ensures |t| == g.dim * (2 * g.dim + 1)
    ensures forall r :: 0 <= r < g.dim ==>
              && Index(g.dim, 0, r) + g.dim <= |g.cells|
              && Index(2 * g.dim + 1, 0, r) + 2 * g.dim + 1 <= |t|
              && t[Index(2 * g.dim + 1, 0, r) .. Index(2 * g.dim + 1, 0, r) + 2 * g.dim + 1]
                 == Render.RowText(State(g)[Index(g.dim, 0, r) .. Index(g.dim, 0, r) + g.dim]) + "\n"
    ensures Render.Parse(g.dim, t) == State(g)
  {
    var s := State(g);
    forall r | 0 <= r < g.dim
      ensures && Index(g.dim, 0, r) + g.dim <= |g.cells|
              && Index(2 * g.dim + 1, 0, r) + 2 * g.dim + 1 <= |Render.Text(g.dim, s)|
              && Render.Text(g.dim, s)[Index(2 * g.dim + 1, 0, r) .. Index(2 * g.dim + 1, 0, r) + 2 * g.dim + 1]
                 == Render.RowText(s[Index(g.dim, 0, r) .. Index(g.dim, 0, r) + g.dim]) + "\n"
    {
      Render.LineLayout(g.dim, s, r);
    }
    Render.RenderRoundTrip(g.dim, s);
    Render.Text(g.dim, s)
  }
}
