# Game of Life grid, modelled in Dafny

A model of Conway's Game of Life as the GameOfLife Ruby project implements it: a
`Cell` whose status is alive or dead, and a `Grid` that stores a fixed,
square, non-wrapping `d×d` board as one flat row-major sequence of cells.
The grid offers coordinate access (`grid[col, row]`), neighbour lookup
clipped at the edges (`get_neighbors_from_index`), one synchronous
generation step under the four Life rules (`generate!`) and text rendering
(`to_s`).

The behaviour is stated against the RSpec suites `spec/grid_spec.rb` and
`spec/cell_spec.rb`. Every example of those suites except the
object-identity one is a lemma in `GridExamples`. The general behaviour
behind the examples is stated and proved for every board size.

Modules, one per file, leaf first:

- `Cells` (`cell.dfy`): the cell as a value. `:alive`/`:dead` become a
  `bool`, and `live!`/`die!` return the updated cell.
- `Coords` (`coords.dfy`): row-major index arithmetic, `Index(d, col, row) = row * d + col`.
- `Neighbours` (`neighbours.dfy`): the eight offsets, clipped at the board's
  edges. The lookup is proved equal to a reference adjacency predicate on
  coordinates, and its size is 3, 5 or 8 by position.
- `Rules` (`rules.dfy`): the four rules, and one generation computed from a
  single snapshot.
- `Render` (`render.dfy`): the board text, and a parser that reads it back.
- `Grids` (`grid.dfy`): the `Grid` datatype and its operations. `generate!`
  appears twice: as a function, and as a loop that updates the cells one by
  one while every count reads the snapshot taken before the loop.
- `GridExamples` (`examples.dfy`): the test vectors.

Two details of the suites shape the model:

- `grid[a, b]` reads flat index `b * d + a`, so the column comes first
  (`spec/grid_spec.rb` lines 20-28).
- Each cell renders as two characters: a space followed by `o` for a live
  cell, or two spaces for a dead one (`spec/grid_spec.rb` lines 61-62).

## Model

| member | source | states |
|---|---|---|
| Cells.New | spec/cell_spec.rb:13-16 | the status argument is optional, and the built cell is alive exactly when the status given is alive; `Cell.new(:dead)` is not alive |
| Cells.DefaultIsDead | spec/cell_spec.rb:13-16 | a cell built with `:dead` is dead, and a cell built without a status is the same cell |
| Cells.Live | spec/cell_spec.rb:6-8 | after `live!` the cell is alive, whatever it was before |
| Cells.Die | spec/cell_spec.rb:9-10 | after `die!` the cell is dead, whatever it was before |
| Cells.LastOperationWins | spec/cell_spec.rb:6-11 | `die!` right after `live!` leaves the cell dead and the reverse leaves it alive; repeating either changes nothing |
| Cells.CellIsItsStatus | spec/cell_spec.rb:6-15 | a cell equals a freshly built cell with its status: `alive?` is two-valued and is the cell's whole state |
| GridExamples.CellExamples | spec/cell_spec.rb:6-16 | the three cell examples of the suite |
| Grids.New | spec/grid_spec.rb:4-36 | `Grid.new(d, state:)` holds `d*d` cells whose statuses are the given state, in order |
| Grids.NewFromState | spec/grid_spec.rb:31-36 | rebuilding a grid from its dimension and `state` gives the same grid: cells are values at distinct positions |
| Grids.State | spec/grid_spec.rb:73-74 | `state` lists the status of every cell in row-major order, one entry per cell |
| GridExamples.NewGridSize | spec/grid_spec.rb:4-8 | `Grid.new(3).state` has nine entries |
| Grids.Get | spec/grid_spec.rb:14-36 | `grid[col, row]` is the cell whose status is entry `row * d + col` of `state` |
| Grids.GetReachesEveryCell | spec/grid_spec.rb:14-29 | every flat index `i` is read by `grid[i % d, i / d]` |
| Grids.GetIsColumnFirst | spec/grid_spec.rb:14-36 | `grid[col, row]` is the status at flat index `row * d + col`, and different coordinates read different cells |
| GridExamples.GetExamples | spec/grid_spec.rb:14-36 | `grid[1,1]`, `grid[1,0]` and `grid[1,2]` see the live cells at 4, 1 and 7; on the 2×2 example `grid[0,0]` is dead and `grid[1,1]` is alive |
| Neighbours.NeighboursOnBoard | spec/grid_spec.rb:39-57 | every listed neighbour is a cell of the board |
| Neighbours.NeighbourIndices | spec/grid_spec.rb:39-57 | `get_neighbors_from_index(i)` as flat indices lists at most eight cells |
| Neighbours.ClipMembers | spec/grid_spec.rb:39-57 | an index is listed exactly when some offset moves the cell onto the board at that index |
| Neighbours.ClipDistinct | spec/grid_spec.rb:39-57 | distinct offsets never list the same cell twice |
| Neighbours.NeighbourSound | spec/grid_spec.rb:39-57 | every listed index is a different board cell at most one row and one column away |
| Neighbours.NeighbourComplete | spec/grid_spec.rb:39-57 | every such cell is listed |
| Neighbours.NeighboursExact | spec/grid_spec.rb:39-57 | the list is exactly the reference neighbourhood (both directions), without repeats |
| Neighbours.NeighbourCount | spec/grid_spec.rb:39-57 | the count is the number of rows in reach times the number of columns in reach, less one |
| Neighbours.NeighbourCountByPosition | spec/grid_spec.rb:39-57 | on a board of side at least two, corners have 3 neighbours, other border cells 5 and interior cells 8 |
| Grids.NeighbourCells | spec/grid_spec.rb:39-57 | `get_neighbors_from_index` returns at most eight cells, each the cell at one listed neighbour index |
| GridExamples.InteriorNeighbourCount | spec/grid_spec.rb:40-42 | `Grid.new(3).get_neighbors_from_index(4)` has 8 cells |
| GridExamples.CornerNeighbourCounts | spec/grid_spec.rb:44-49 | `Grid.new(3).get_neighbors_from_index(i)` has 3 cells for each of 0, 2, 6 and 8 |
| GridExamples.EdgeNeighbourCounts | spec/grid_spec.rb:51-56 | `Grid.new(3).get_neighbors_from_index(i)` has 5 cells for each of 1, 3, 5 and 7 |
| Render.RowLayout | spec/grid_spec.rb:59-65 | character `k` of a row's text is `o` exactly when `k` is odd and cell `k / 2` is alive, and a space otherwise |
| Render.RowRoundTrip | spec/grid_spec.rb:59-65 | reading a row's text back, one cell per pair of characters, gives the row |
| Render.Text | spec/grid_spec.rb:59-65 | the text of a `d×d` board has `d` lines of `2d + 1` characters |
| Render.LineLayout | spec/grid_spec.rb:59-65 | line `r` of the board text is row `r`'s text followed by a newline, so rows run top to bottom and each line ends in a newline |
| Render.RenderRoundTrip | spec/grid_spec.rb:59-65 | reading the board text back gives the state: rendering loses nothing |
| Grids.ToString | spec/grid_spec.rb:59-65 | `to_s` has `d * (2d + 1)` characters; line `r` is the text of row `r` (each cell a space then `o` or a space) followed by a newline; reading it back gives `state` |
| GridExamples.RenderExample | spec/grid_spec.rb:59-65 | `[dead, alive, alive, dead]` renders as `"   o\n o  \n"` |
| Rules.NextStatus | spec/grid_spec.rb:67-130 | the four rules: a live cell with fewer than two or more than three live neighbours dies, with two or three it lives, and a dead cell lives exactly with three |
| Rules.NextState | spec/grid_spec.rb:67-130 | one generation keeps the board size, and a cell is alive next exactly when it has three live neighbours in the snapshot, or is alive with two |
| Rules.LiveNeighboursFormula | spec/grid_spec.rb:67-130 | the live-neighbour count of cell (col, row) equals the sum over the eight positions around it, off-board positions counting as dead |
| Rules.StepIsLocal | spec/grid_spec.rb:132-161 | a cell's next status depends only on the previous snapshot's statuses of the cell and its neighbours |
| Rules.AllDeadIsFixed | spec/grid_spec.rb:152-161 | an all-dead board stays all dead |
| Rules.FullBoardLeavesCorners | spec/grid_spec.rb:132-150 | on any full board of side at least two, exactly the four corners survive one generation |
| Rules.CornersDieOut | spec/grid_spec.rb:152-161 | on a board of side at least four, a board alive only at its corners is all dead after one generation |
| Grids.Generate | spec/grid_spec.rb:67-161 | `generate!` keeps the dimension and the cell count, and the new state is the rules applied to every cell of the previous snapshot |
| Grids.Advance | spec/grid_spec.rb:67-161 | updating the cells one by one in place, counting from the snapshot, gives the same state as the simultaneous step |
| GridExamples.SoleSurvivorDies | spec/grid_spec.rb:67-75 | rule 1: `[d,d,d,a]` steps to all dead |
| GridExamples.TwoSurvivorsDie | spec/grid_spec.rb:77-84 | rule 1: `[d,d,a,a]` steps to all dead |
| GridExamples.TwoNeighboursLiveAndThreeRevive | spec/grid_spec.rb:87-95 | rules 2 and 4: `[d,a,a,a]` steps to all alive |
| GridExamples.ThreeNeighboursLive | spec/grid_spec.rb:97-104 | rule 2: `[a,a,a,a]` steps to all alive |
| GridExamples.OvercrowdedCellsDie | spec/grid_spec.rb:107-117 | rule 3: `[a,a,d,a,a,a,d,d,d]` steps to `[a,d,a,a,d,a,d,a,d]` |
| GridExamples.BigGridGenerations | spec/grid_spec.rb:132-161 | the full 5×5 grid steps to its four corners alive, then to all dead |

The rule 4 example at `spec/grid_spec.rb` lines 120-129 uses the same board
as the rules 2 and 4 example above, so `GridExamples.TwoNeighboursLiveAndThreeRevive` covers it.

## Left out

- Object identity: the `object_id` check at `spec/grid_spec.rb` lines 10-12
  is about Ruby references. Cells are values here, one per position of the
  sequence.
- Ruby machinery: the RSpec runner, `let`, `require` and Symbol typing.
  `:alive` and `:dead` are a `bool`, so an invalid status symbol cannot be
  expressed.
- Error behaviour that no test exercises: a state of the wrong length, and
  coordinates or indices outside the board. These are preconditions
  (`|state| == d * d`, `col < d && row < d`, `i < d * d`) rather than
  invented errors.
- Mutation in place: `live!`, `die!` and `generate!` return the updated
  value instead of changing their receiver. `Grids.Advance` keeps the
  cell-by-cell update order.
- Any driver that loops `generate!` and prints is outside the model.
- Rules.LiveNeighbours: the contract only bounds the count by 8. Its value
  is pinned by `Rules.LiveNeighboursFormula`.
- Rules.LiveCount: counts an index outside the snapshot as dead. Every index
  it is given in the model lies on the board (`Neighbours.NeighboursOnBoard`).
- Cells.New: no example reads the status of a cell built without one
  (`spec/cell_spec.rb` line 4 calls `live!` first). The model takes dead.
- Grids.New: no example reads the statuses of a grid built without a
  state (`spec/grid_spec.rb` line 7 reads only the length). The model
  takes all dead.
- Neighbours.NeighbourIndices: the contract bounds the length only. Which
  cells are listed is `Neighbours.NeighboursExact`, and how many is
  `Neighbours.NeighbourCountByPosition`. Keeping them apart keeps the proofs
  that use the list small.
- Render.Text: the contract gives the length only. The line layout is
  `Render.LineLayout`, and the round trip is `Render.RenderRoundTrip`.
- Render.Parse: is not a feature of the project. It exists only as the
  inverse against which `to_s` is shown to lose nothing.
