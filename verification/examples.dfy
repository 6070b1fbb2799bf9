/** The grid and cell examples of the test suite, each as a lemma about the model. */
module GridExamples {
  import Cells
  import opened Coords
  import opened Neighbours
  import opened Rules
  import opened Grids
  import Render

  const T := true
  const F := false

  /** `live!` then `alive?` is true; `die!` then `alive?` is false; a cell built
      with `:dead` is not alive. */
  lemma CellExamples()
    ensures Cells.Live(Cells.New()).IsAlive()
    ensures !Cells.Die(Cells.Live(Cells.New())).IsAlive()
    ensures !Cells.New(false).IsAlive()
  {
  }

  /** `Grid.new(3)` holds nine cells; built without a state, the model makes
      them all dead. */
  lemma NewGridSize()
    ensures |State(New(3))| == 9
    ensures State(New(3)) == [F, F, F, F, F, F, F, F, F]
  {
  }

  /** `grid[1,1]`, `grid[1,0]` and `grid[1,2]` read flat indices 4, 1 and 7;
      on the 2×2 grid `grid[0,0]` is dead and `grid[1,1]` alive. */
  lemma GetExamples()
    ensures Get(New(3, [F, F, F, F, T, F, F, F, F]), 1, 1).IsAlive()
    ensures Get(New(3, [F, T, F, F, F, F, F, F, F]), 1, 0).IsAlive()
    ensures Get(New(3, [F, F, F, F, F, F, F, T, F]), 1, 2).IsAlive()
    ensures !Get(New(2, [F, T, F, T]), 0, 0).IsAlive()
    ensures Get(New(2, [F, T, F, T]), 1, 1).IsAlive()
  {
  }

  /** On `Grid.new(3)`, the neighbour count of cell `i` by its position. */
  lemma ThreeByThreeCount(i: nat, n: nat)
    requires i < 9
    requires n == if i == 4 then 8 else if i % 2 == 0 then 3 else 5
    ensures |NeighbourCells(New(3), i)| == n
  {
    NeighbourCountByPosition(3, i);
  }

  /** `Grid.new(3).get_neighbors_from_index(4)` has 8 cells: the centre. */
  lemma InteriorNeighbourCount()
    ensures |NeighbourCells(New(3), 4)| == 8
  {
    ThreeByThreeCount(4, 8);
  }

  /** `Grid.new(3).get_neighbors_from_index(i)` has 3 cells at the corners
      0, 2, 6 and 8. */
  lemma CornerNeighbourCounts(i: nat)
    requires i in {0, 2, 6, 8}
    ensures |NeighbourCells(New(3), i)| == 3
  {
    ThreeByThreeCount(i, 3);
  }

  /** `Grid.new(3).get_neighbors_from_index(i)` has 5 cells at the edge
      cells 1, 3, 5 and 7. */
  lemma EdgeNeighbourCounts(i: nat)
    requires i in {1, 3, 5, 7}
    ensures |NeighbourCells(New(3), i)| == 5
  {
    ThreeByThreeCount(i, 5);
  }

  /** The two rows of the 2×2 grid dead, alive / alive, dead. */
  lemma RenderRows(s: seq<bool>)
    requires s == [F, T, T, F]
    ensures Render.Text(2, s)[0..5] == "   o\n"
    ensures Render.Text(2, s)[5..10] == " o  \n"
  {
    Render.LineLayout(2, s, 0);
    Render.LineLayout(2, s, 1);
    assert s[0..2] == [F, T] && s[2..4] == [T, F];
    assert Render.RowText([F, T]) == "   o";
    assert Render.RowText([T, F]) == " o  ";
  }

  /** The 2×2 grid dead, alive / alive, dead renders as two lines. */
  lemma RenderExample()
    ensures ToString(New(2, [F, T, T, F])) == "   o\n o  \n"
  {
    var s := [F, T, T, F];
    assert State(New(2, s)) == s;
    var t := Render.Text(2, s);
    RenderRows(s);
    assert t == t[0..5] + t[5..10];
  }

  /** 1 for a live cell, 0 for a dead one. */
  function Bit(alive: bool): nat {
    if alive then 1 else 0
  }

  // Concrete neighbour counts are taken one cell per lemma: the reference
  // count `Around` is evaluated on its own first, and only then related to
  // `LiveNeighbours` through `LiveNeighboursFormula`.

  lemma SquareAround00(d: nat, s: seq<bool>)
    requires d == 2 && |s| == 4
    ensures Around(d, s, 0, 0) == Bit(s[1]) + Bit(s[2]) + Bit(s[3])
  {
  }

  /** On a 2×2 board cell (0, 0) has the other three cells as neighbours. */
  lemma SquareCount00(d: nat, s: seq<bool>)
    requires d == 2 && |s| == 4
    ensures LiveNeighbours(d, s, Index(d, 0, 0)) == Bit(s[1]) + Bit(s[2]) + Bit(s[3])
  {
    LiveNeighboursFormula(d, s, 0, 0);
    SquareAround00(d, s);
  }

  lemma SquareAround10(d: nat, s: seq<bool>)
    requires d == 2 && |s| == 4
    ensures Around(d, s, 1, 0) == Bit(s[0]) + Bit(s[2]) + Bit(s[3])
  {
  }

  /** On a 2×2 board cell (1, 0) has the other three cells as neighbours. */
  lemma SquareCount10(d: nat, s: seq<bool>)
    requires d == 2 && |s| == 4
    ensures LiveNeighbours(d, s, Index(d, 1, 0)) == Bit(s[0]) + Bit(s[2]) + Bit(s[3])
  {
    LiveNeighboursFormula(d, s, 1, 0);
    SquareAround10(d, s);
  }

  lemma SquareAround01(d: nat, s: seq<bool>)
    requires d == 2 && |s| == 4
    ensures Around(d, s, 0, 1) == Bit(s[0]) + Bit(s[1]) + Bit(s[3])
  {
  }

  /** On a 2×2 board cell (0, 1) has the other three cells as neighbours. */
  lemma SquareCount01(d: nat, s: seq<bool>)
    requires d == 2 && |s| == 4
    ensures LiveNeighbours(d, s, Index(d, 0, 1)) == Bit(s[0]) + Bit(s[1]) + Bit(s[3])
  {
    LiveNeighboursFormula(d, s, 0, 1);
    SquareAround01(d, s);
  }

  lemma SquareAround11(d: nat, s: seq<bool>)
    requires d == 2 && |s| == 4
    ensures Around(d, s, 1, 1) == Bit(s[0]) + Bit(s[1]) + Bit(s[2])
  {
  }

  /** On a 2×2 board cell (1, 1) has the other three cells as neighbours. */
  lemma SquareCount11(d: nat, s: seq<bool>)
    requires d == 2 && |s| == 4
    ensures LiveNeighbours(d, s, Index(d, 1, 1)) == Bit(s[0]) + Bit(s[1]) + Bit(s[2])
  {
    LiveNeighboursFormula(d, s, 1, 1);
    SquareAround11(d, s);
  }

  lemma SoleSurvivorStep(d: nat, s: seq<bool>)
    requires d == 2 && s == [F, F, F, T]
    ensures NextState(d, s) == [F, F, F, F]
  {
    SquareCount00(d, s); SquareCount10(d, s); SquareCount01(d, s); SquareCount11(d, s);
  }

  /** Rule 1: a sole live cell dies. */
  lemma SoleSurvivorDies()
    ensures State(Generate(New(2, [F, F, F, T]))) == [F, F, F, F]
  {
    SoleSurvivorStep(2, [F, F, F, T]);
  }

  lemma TwoSurvivorsStep(d: nat, s: seq<bool>)
    requires d == 2 && s == [F, F, T, T]
    ensures NextState(d, s) == [F, F, F, F]
  {
    SquareCount00(d, s); SquareCount10(d, s); SquareCount01(d, s); SquareCount11(d, s);
  }

  /** Rule 1: two live cells side by side both die. */
  lemma TwoSurvivorsDie()
    ensures State(Generate(New(2, [F, F, T, T]))) == [F, F, F, F]
  {
    TwoSurvivorsStep(2, [F, F, T, T]);
  }

  lemma TwoNeighboursLiveAndThreeStep(d: nat, s: seq<bool>)
    requires d == 2 && s == [F, T, T, T]
    ensures NextState(d, s) == [T, T, T, T]
  {
    SquareCount00(d, s); SquareCount10(d, s); SquareCount01(d, s); SquareCount11(d, s);
  }

  /** Rules 2 and 4: live cells with two live neighbours live on, and the dead
      cell with three live neighbours comes alive. */
  lemma TwoNeighboursLiveAndThreeRevive()
    ensures State(Generate(New(2, [F, T, T, T]))) == [T, T, T, T]
  {
    TwoNeighboursLiveAndThreeStep(2, [F, T, T, T]);
  }

  lemma ThreeNeighboursStep(d: nat, s: seq<bool>)
    requires d == 2 && s == [T, T, T, T]
    ensures NextState(d, s) == [T, T, T, T]
  {
    SquareCount00(d, s); SquareCount10(d, s); SquareCount01(d, s); SquareCount11(d, s);
  }

  /** Rule 2: live cells with three live neighbours live on. */
  lemma ThreeNeighboursLive()
    ensures State(Generate(New(2, [T, T, T, T]))) == [T, T, T, T]
  {
    ThreeNeighboursStep(2, [T, T, T, T]);
  }

  /** The 3×3 board of the overcrowding example. */
  predicate Crowded(d: nat, s: seq<bool>) {
    d == 3 && s == [T, T, F, T, T, T, F, F, F]
  }

  lemma CrowdedAround00(d: nat, s: seq<bool>)
    requires Crowded(d, s)
    ensures Around(d, s, 0, 0) == 3
  {
  }

  lemma CrowdedCount00(d: nat, s: seq<bool>)
    requires Crowded(d, s)
    ensures LiveNeighbours(d, s, Index(d, 0, 0)) == 3
  {
    LiveNeighboursFormula(d, s, 0, 0);
    CrowdedAround00(d, s);
  }

  lemma CrowdedAround10(d: nat, s: seq<bool>)
    requires Crowded(d, s)
    ensures Around(d, s, 1, 0) == 4
  {
  }

  lemma CrowdedCount10(d: nat, s: seq<bool>)
    requires Crowded(d, s)
    ensures LiveNeighbours(d, s, Index(d, 1, 0)) == 4
  {
    LiveNeighboursFormula(d, s, 1, 0);
    CrowdedAround10(d, s);
  }

  lemma CrowdedAround20(d: nat, s: seq<bool>)
    requires Crowded(d, s)
    ensures Around(d, s, 2, 0) == 3
  {
  }

  lemma CrowdedCount20(d: nat, s: seq<bool>)
    requires Crowded(d, s)
    ensures LiveNeighbours(d, s, Index(d, 2, 0)) == 3
  {
    LiveNeighboursFormula(d, s, 2, 0);
    CrowdedAround20(d, s);
  }

  lemma CrowdedAround01(d: nat, s: seq<bool>)
    requires Crowded(d, s)
    ensures Around(d, s, 0, 1) == 3
  {
  }

  lemma CrowdedCount01(d: nat, s: seq<bool>)
    requires Crowded(d, s)
    ensures LiveNeighbours(d, s, Index(d, 0, 1)) == 3
  {
    LiveNeighboursFormula(d, s, 0, 1);
    CrowdedAround01(d, s);
  }

  lemma CrowdedAround11(d: nat, s: seq<bool>)
    requires Crowded(d, s)
    ensures Around(d, s, 1, 1) == 4
  {
  }

  lemma CrowdedCount11(d: nat, s: seq<bool>)
    requires Crowded(d, s)
    ensures LiveNeighbours(d, s, Index(d, 1, 1)) == 4
  {
    LiveNeighboursFormula(d, s, 1, 1);
    CrowdedAround11(d, s);
  }

  lemma CrowdedAround21(d: nat, s: seq<bool>)
    requires Crowded(d, s)
    ensures Around(d, s, 2, 1) == 2
  {
  }

  lemma CrowdedCount21(d: nat, s: seq<bool>)
    requires Crowded(d, s)
    ensures LiveNeighbours(d, s, Index(d, 2, 1)) == 2
  {
    LiveNeighboursFormula(d, s, 2, 1);
    CrowdedAround21(d, s);
  }

  lemma CrowdedAround02(d: nat, s: seq<bool>)
    requires Crowded(d, s)
    ensures Around(d, s, 0, 2) == 2
  {
  }

  lemma CrowdedCount02(d: nat, s: seq<bool>)
    requires Crowded(d, s)
    ensures LiveNeighbours(d, s, Index(d, 0, 2)) == 2
  {
    LiveNeighboursFormula(d, s, 0, 2);
    CrowdedAround02(d, s);
  }

  lemma CrowdedAround12(d: nat, s: seq<bool>)
    requires Crowded(d, s)
    ensures Around(d, s, 1, 2) == 3
  {
  }

  lemma CrowdedCount12(d: nat, s: seq<bool>)
    requires Crowded(d, s)
    ensures LiveNeighbours(d, s, Index(d, 1, 2)) == 3
  {
    LiveNeighboursFormula(d, s, 1, 2);
    CrowdedAround12(d, s);
  }

  lemma CrowdedAround22(d: nat, s: seq<bool>)
    requires Crowded(d, s)
    ensures Around(d, s, 2, 2) == 2
  {
  }

  lemma CrowdedCount22(d: nat, s: seq<bool>)
    requires Crowded(d, s)
    ensures LiveNeighbours(d, s, Index(d, 2, 2)) == 2
  {
    LiveNeighboursFormula(d, s, 2, 2);
    CrowdedAround22(d, s);
  }

  /** One generation of the crowded board: the counts are 3, 4, 3 / 3, 4, 2 / 2, 3, 2. */
  lemma CrowdedStep(d: nat, s: seq<bool>)
    requires Crowded(d, s)
    ensures NextState(d, s) == [T, F, T, T, F, T, F, T, F]
  {
    CrowdedCount00(d, s); CrowdedCount10(d, s); CrowdedCount20(d, s);
    CrowdedCount01(d, s); CrowdedCount11(d, s); CrowdedCount21(d, s);
    CrowdedCount02(d, s); CrowdedCount12(d, s); CrowdedCount22(d, s);
  }

  /** Rule 3: the cells with four or more live neighbours die, while a dead
      cell with three comes alive. */
  lemma OvercrowdedCellsDie()
    ensures State(Generate(New(3, [T, T, F, T, T, T, F, F, F]))) == [T, F, T, T, F, T, F, T, F]
  {
    CrowdedStep(3, [T, T, F, T, T, T, F, F, F]);
  }

  /** The corners of the 5×5 board. */
  lemma CornersOfFive()
    ensures Corners(5) == [T, F, F, F, T, F, F, F, F, F, F, F, F, F, F, F, F, F, F, F, T, F, F, F, T]
  {
    var c := Corners(5);
    forall i | 0 <= i < 25
      ensures c[i] == [T, F, F, F, T, F, F, F, F, F, F, F, F, F, F, F, F, F, F, F, T, F, F, F, T][i]
    {
      assert IsCorner(5, i) <==> i in {0, 4, 20, 24};
    }
  }

  /** Big grids: the full 5×5 board keeps only its four corners, and those die
      out in the generation after. */
  lemma BigGridGenerations()
    ensures State(Generate(New(5, [T, T, T, T, T, T, T, T, T, T, T, T, T, T, T, T, T, T, T, T, T, T, T, T, T]))) == [T, F, F, F, T, F, F, F, F, F, F, F, F, F, F, F, F, F, F, F, T, F, F, F, T]
    ensures State(Generate(Generate(New(5, [T, T, T, T, T, T, T, T, T, T, T, T, T, T, T, T, T, T, T, T, T, T, T, T, T])))) == [F, F, F, F, F, F, F, F, F, F, F, F, F, F, F, F, F, F, F, F, F, F, F, F, F]
  {
    var s := [T, T, T, T, T, T, T, T, T, T, T, T, T, T, T, T, T, T, T, T, T, T, T, T, T];
    assert s == AllAlive(25);
    FullBoardLeavesCorners(5);
    CornersDieOut(5);
    CornersOfFive();
    var g := Generate(New(5, s));
    assert State(g) == Corners(5);
    assert [F, F, F, F, F, F, F, F, F, F, F, F, F, F, F, F, F, F, F, F, F, F, F, F, F] == AllDead(25);
  }
}
