/** The Life transition on a snapshot: the row-major sequence of statuses
    of a `d×d` board (`true` is alive). Every next status is computed from
    the one snapshot of the previous generation. */
module Rules {
  import opened Coords
  import opened Neighbours

  /** A board of `n` dead cells. */
  function AllDead(n: nat): (s: seq<bool>)
    ensures |s| == n
    ensures forall i :: 0 <= i < n ==> !s[i]
  {
    seq(n, _ => false)
  }

  /** A board of `n` live cells. */
  function AllAlive(n: nat): (s: seq<bool>)
    ensures |s| == n
    ensures forall i :: 0 <= i < n ==> s[i]
  {
    seq(n, _ => true)
  }

  /** Number of the listed cells that are alive in `s`; an index outside `s`
      names no cell and counts as dead. */
  function LiveCount(s: seq<bool>, idxs: seq<nat>): (n: nat)
    ensures n <= |idxs|
  {
    if idxs == [] then 0
    else (if idxs[0] < |s| && s[idxs[0]] then 1 else 0) + LiveCount(s, idxs[1..])
  }

  /** Number of live neighbours of cell `i` in snapshot `s`. */
  function LiveNeighbours(d: nat, s: seq<bool>, i: nat): (n: nat)
    requires |s| == d * d && i < d * d
    ensures n <= 8
  {
    LiveCount(s, NeighbourIndices(d, i))
  }

  /** 1 when (col, row) is on the board and alive in `s`, else 0. */
  function LiveAt(d: nat, s: seq<bool>, col: int, row: int): nat
    requires |s| == d * d
  {
    if OnBoard(d, col, row) then
      IndexOnBoard(d, col, row);
      if s[Index(d, col, row)] then 1 else 0
    else 0
  }

  /** Live cells reached from (col, row) by the offsets `offs`. */
  function SumLive(d: nat, s: seq<bool>, col: nat, row: nat, offs: seq<(int, int)>): nat
    requires |s| == d * d
  {
    if offs == [] then 0
    else LiveAt(d, s, col + offs[0].1, row + offs[0].0) + SumLive(d, s, col, row, offs[1..])
  }

  /** The four rules, as the next status of a cell with `n` live neighbours. */
  function NextStatus(alive: bool, n: nat): (r: bool)
    ensures alive && n < 2 ==> !r
    ensures alive && (n == 2 || n == 3) ==> r
    ensures alive && n > 3 ==> !r
    ensures !alive ==> (r <==> n == 3)
  {
    n == 3 || (alive && n == 2)
  }

  /** One generation: every cell's next status from the previous snapshot. */
  function NextState(d: nat, s: seq<bool>): (t: seq<bool>)
    requires |s| == d * d
    ensures |t| == |s|
    ensures forall i :: 0 <= i < |s| ==>
              (t[i] <==> LiveNeighbours(d, s, i) == 3 || (s[i] && LiveNeighbours(d, s, i) == 2))
  {
    seq(|s|, i requires 0 <= i < |s| => NextStatus(s[i], LiveNeighbours(d, s, i)))
  }

  /** Counting only reads the listed cells. */
  lemma {:induction false} LiveCountAgree(s: seq<bool>, t: seq<bool>, idxs: seq<nat>)
    requires forall k :: 0 <= k < |idxs| ==> idxs[k] < |s| && idxs[k] < |t|
    requires forall k :: 0 <= k < |idxs| ==> s[idxs[k]] == t[idxs[k]]
    ensures LiveCount(s, idxs) == LiveCount(t, idxs)
  {
    if idxs != [] {
      LiveCountAgree(s, t, idxs[1..]);
    }
  }

  /** Counting the clipped neighbours is summing over all offsets, the
      off-board ones counting zero. */
  lemma {:induction false} LiveCountClip(d: nat, s: seq<bool>, col: nat, row: nat, offs: seq<(int, int)>)
    requires |s| == d * d
    ensures LiveCount(s, Clip(d, col, row, offs)) == SumLive(d, s, col, row, offs)
  {
    if offs != [] {
      LiveCountClip(d, s, col, row, offs[1..]);
      var c, r := col + offs[0].1, row + offs[0].0;
      if OnBoard(d, c, r) {
        IndexOnBoard(d, c, r);
        var ns := Clip(d, col, row, offs);
        assert ns[1..] == Clip(d, col, row, offs[1..]);
      }
    }
  }

  /** Reference count: the live cells among the eight positions around
      (col, row), written out one by one; positions off the board count as
      dead. */
  function Around(d: nat, s: seq<bool>, col: nat, row: nat): nat
    requires |s| == d * d
  {
    LiveAt(d, s, col - 1, row - 1) + LiveAt(d, s, col, row - 1) + LiveAt(d, s, col + 1, row - 1)
    + LiveAt(d, s, col - 1, row) + LiveAt(d, s, col + 1, row)
    + LiveAt(d, s, col - 1, row + 1) + LiveAt(d, s, col, row + 1) + LiveAt(d, s, col + 1, row + 1)
  }

  /** The neighbour count of the cell at (col, row) is the reference count. */
  lemma LiveNeighboursFormula(d: nat, s: seq<bool>, col: nat, row: nat)
    requires |s| == d * d && col < d && row < d
    ensures Index(d, col, row) < d * d
    ensures LiveNeighbours(d, s, Index(d, col, row)) == Around(d, s, col, row)
  {
    IndexOnBoard(d, col, row);
    CoordsOfIndex(d, col, row);
    LiveCountClip(d, s, col, row, Offsets);
    var o := Offsets;
    assert o[8..] == [];
    assert forall k | 0 <= k < 8 :: o[k..][1..] == o[k + 1..];
    assert SumLive(d, s, col, row, o[7..]) == LiveAt(d, s, col + 1, row + 1);
    assert SumLive(d, s, col, row, o[6..]) == LiveAt(d, s, col, row + 1) + SumLive(d, s, col, row, o[7..]);
    assert SumLive(d, s, col, row, o[5..]) == LiveAt(d, s, col - 1, row + 1) + SumLive(d, s, col, row, o[6..]);
    assert SumLive(d, s, col, row, o[4..]) == LiveAt(d, s, col + 1, row) + SumLive(d, s, col, row, o[5..]);
    assert SumLive(d, s, col, row, o[3..]) == LiveAt(d, s, col - 1, row) + SumLive(d, s, col, row, o[4..]);
    assert SumLive(d, s, col, row, o[2..]) == LiveAt(d, s, col + 1, row - 1) + SumLive(d, s, col, row, o[3..]);
    assert SumLive(d, s, col, row, o[1..]) == LiveAt(d, s, col, row - 1) + SumLive(d, s, col, row, o[2..]);
    assert SumLive(d, s, col, row, o) == LiveAt(d, s, col - 1, row - 1) + SumLive(d, s, col, row, o[1..]);
  }

  /** No live cell among the listed ones gives a count of zero. */
  lemma {:induction false} LiveCountNone(s: seq<bool>, idxs: seq<nat>)
    requires forall k :: 0 <= k < |idxs| ==> idxs[k] < |s| && !s[idxs[k]]
    ensures LiveCount(s, idxs) == 0
  {
    if idxs != [] {
      LiveCountNone(s, idxs[1..]);
    }
  }

  /** All listed cells alive gives the length of the list. */
  lemma {:induction false} LiveCountAll(s: seq<bool>, idxs: seq<nat>)
    requires forall k :: 0 <= k < |idxs| ==> idxs[k] < |s| && s[idxs[k]]
    ensures LiveCount(s, idxs) == |idxs|
  {
    if idxs != [] {
      LiveCountAll(s, idxs[1..]);
    }
  }

  /** A count of two or more exhibits two different list positions holding live cells. */
  lemma {:induction false} LiveCountTwo(s: seq<bool>, idxs: seq<nat>) returns (p: nat, q: nat)
    requires forall k :: 0 <= k < |idxs| ==> idxs[k] < |s|
    requires LiveCount(s, idxs) >= 2
    ensures p < q < |idxs| && s[idxs[p]] && s[idxs[q]]
  {
    if s[idxs[0]] && LiveCount(s, idxs[1..]) >= 1 {
      var k := LiveOne(s, idxs[1..]);
      p, q := 0, k + 1;
    } else {
      p, q := LiveCountTwo(s, idxs[1..]);
      p, q := p + 1, q + 1;
    }
  }

  /** A positive count exhibits a list position holding a live cell. */
  lemma {:induction false} LiveOne(s: seq<bool>, idxs: seq<nat>) returns (p: nat)
    requires forall k :: 0 <= k < |idxs| ==> idxs[k] < |s|
    requires LiveCount(s, idxs) >= 1
    ensures p < |idxs| && s[idxs[p]]
  {
    if s[idxs[0]] {
      p := 0;
    } else {
      p := LiveOne(s, idxs[1..]);
      p := p + 1;
    }
  }

  /** Locality: the next status of cell `i` depends only on the previous
      status of `i` and of its neighbours. Two snapshots that agree there
      agree on the next status of `i`, however they differ elsewhere. */
  lemma StepIsLocal(d: nat, s: seq<bool>, t: seq<bool>, i: nat)
    requires |s| == d * d && |t| == d * d && i < d * d
    requires s[i] == t[i]
    requires forall j: nat :: j < d * d && IsNeighbour(d, i, j) ==> s[j] == t[j]
    ensures NextState(d, s)[i] == NextState(d, t)[i]
  {
    var ns := NeighbourIndices(d, i);
    NeighboursOnBoard(d, i);
    forall k | 0 <= k < |ns|
      ensures s[ns[k]] == t[ns[k]]
    {
      NeighbourSound(d, i, ns[k]);
    }
    LiveCountAgree(s, t, ns);
  }

  /** A board with no live cell stays without a live cell: nothing can be born. */
  lemma AllDeadIsFixed(d: nat)
    ensures NextState(d, AllDead(d * d)) == AllDead(d * d)
  {
    var s := AllDead(d * d);
    var t := NextState(d, s);
    forall i | 0 <= i < d * d
      ensures !t[i]
    {
      NeighboursOnBoard(d, i);
      LiveCountNone(s, NeighbourIndices(d, i));
    }
  }

  /** The status at corners of a `d×d` board (`d > 0`): alive exactly at the four corners. */
  function Corners(d: nat): (s: seq<bool>)
    requires d > 0
    ensures |s| == d * d
  {
    seq(d * d, i requires 0 <= i < d * d => IsCorner(d, i))
  }

  /** On a full board of side at least two, exactly the corners survive:
      they have three live neighbours, every other cell five or eight. */
  lemma FullBoardLeavesCorners(d: nat)
    requires d >= 2
    ensures NextState(d, AllAlive(d * d)) == Corners(d)
  {
    var s := AllAlive(d * d);
    forall i | 0 <= i < d * d
      ensures NextState(d, s)[i] == Corners(d)[i]
    {
      NeighbourCountByPosition(d, i);
      NeighboursOnBoard(d, i);
      LiveCountAll(s, NeighbourIndices(d, i));
    }
  }

  /** Two different corners of a board of side at least three are never neighbours
      of one cell at once. */
  lemma CornersApart(d: nat, i: nat, a: nat, b: nat)
    requires d >= 3 && i < d * d
    requires IsNeighbour(d, i, a) && IsNeighbour(d, i, b) && a != b
    requires IsCorner(d, a) && IsCorner(d, b)
    ensures d == 3
  {
    IndexOfCoords(d, a);
    IndexOfCoords(d, b);
  }

  /** On a board of side at least four, a board alive only at its corners dies
      out in one generation: no cell has more than one live neighbour. */
  lemma CornersDieOut(d: nat)
    requires d >= 4
    ensures NextState(d, Corners(d)) == AllDead(d * d)
  {
    var s := Corners(d);
    forall i | 0 <= i < d * d
      ensures !NextState(d, s)[i]
    {
      var ns := NeighbourIndices(d, i);
      NeighboursOnBoard(d, i);
      if LiveCount(s, ns) >= 2 {
        var p, q := LiveCountTwo(s, ns);
        NeighboursExact(d, i);
        assert ns[p] in ns && ns[q] in ns;
        CornersApart(d, i, ns[p], ns[q]);
      }
    }
  }
}
