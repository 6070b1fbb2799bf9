/** Text rendering of a snapshot: one newline-terminated line per row, top
    to bottom; each cell is two characters, a space followed by `o` when
    alive or by a space when dead. */
module Render {

  import opened Coords

  /** The two characters of one cell. */
  function CellText(alive: bool): string {
    if alive then " o" else "  "
  }

  /** One row without its newline. */
  function RowText(cells: seq<bool>): (t: string)
    ensures |t| == 2 * |cells|
  {
    if cells == [] then "" else CellText(cells[0]) + RowText(cells[1..])
  }

  /** Character `k` of a rendered row is `o` exactly when `k` is odd and cell
      `k / 2` is alive, and a space otherwise. */
  lemma {:induction false} RowLayout(cells: seq<bool>)
    ensures forall k :: 0 <= k < 2 * |cells| ==>
              RowText(cells)[k] == if k % 2 == 1 && cells[k / 2] then 'o' else ' '
  {
    if cells != [] {
      var rest := RowText(cells[1..]);
      var t := RowText(cells);
      RowLayout(cells[1..]);
      assert forall k :: 2 <= k < |t| ==> t[k] == rest[k - 2];
    }
  }

  /** Reads one rendered row back: the second character of every pair. */
  function ParseRow(line: string): (cells: seq<bool>)
    ensures |cells| == |line| / 2
    decreases |line|
  {
    if |line| < 2 then []
    else [line[1] == 'o'] + ParseRow(line[2..])
  }

  /** Reading a rendered row gives back the row. */
  lemma {:induction false} RowRoundTrip(cells: seq<bool>)
    ensures ParseRow(RowText(cells)) == cells
  {
    if cells != [] {
      var t := RowText(cells);
      assert t[2..] == RowText(cells[1..]);
      RowRoundTrip(cells[1..]);
    }
  }

  /** Width of one rendered line on a `d×d` board: two characters per cell
      and the newline. */
  function Width(d: nat): nat {
    2 * d + 1
  }

  /** Character `k` of the board text sits in line `k / w` at position
      `k % w`: the newline at the last position, otherwise the character the
      row's text has there. */
  function TextChar(d: nat, s: seq<bool>, k: nat): char
    requires |s| == d * d && k < d * Width(d)
  {
    var w := Width(d);
    assert d > 0;
    var r, j := Row(w, k), Col(w, k);
    DivBelow(w, d, k);
    if j == 2 * d then '\n'
    else if j % 2 == 1 && (IndexOnBoard(d, j / 2, r); s[Index(d, j / 2, r)]) then 'o'
    else ' '
  }

  /** `to_s` of a `d×d` board: the text of every row, top to bottom, each
      followed by a newline. */
  function Text(d: nat, s: seq<bool>): (t: string)
    requires |s| == d * d
    ensures |t| == d * Width(d)
  {
    seq(d * Width(d), k requires 0 <= k < d * Width(d) => TextChar(d, s, k))
  }

  /** Reads a board text back: cell (col, row) is alive exactly when the
      second of its two characters is `o`. */
  function Parse(d: nat, text: string): (s: seq<bool>)
    requires |text| == d * Width(d)
    ensures |s| == d * d
  {
    seq(d * d, i requires 0 <= i < d * d =>
      IndexOfCoords(d, i);
      var k := Index(Width(d), 2 * Col(d, i) + 1, Row(d, i));
      MulBelow(Width(d), d, Row(d, i));
      text[k] == 'o')
  }

  /** Line `r` of the board text is row `r` of the snapshot followed by a
      newline, so rows appear top to bottom and every line is terminated. */
  lemma LineLayout(d: nat, s: seq<bool>, r: nat)
    requires |s| == d * d && r < d
    ensures Index(d, 0, r) + d <= |s|
    ensures Index(Width(d), 0, r) + Width(d) <= |Text(d, s)|
    ensures Text(d, s)[Index(Width(d), 0, r) .. Index(Width(d), 0, r) + Width(d)]
            == RowText(s[Index(d, 0, r) .. Index(d, 0, r) + d]) + "\n"
  {
    var w, t := Width(d), Text(d, s);
    var a, b := Index(w, 0, r), Index(d, 0, r);
    MulBelow(w, d, r);
    MulBelow(d, d, r);
    var row := s[b .. b + d];
    var line := RowText(row) + "\n";
    RowLayout(row);
    forall j | 0 <= j < w
      ensures t[a + j] == line[j]
    {
      CoordsOfIndex(w, j, r);
      assert a + j == Index(w, j, r);
      if j < 2 * d && j % 2 == 1 {
        assert row[j / 2] == s[Index(d, j / 2, r)];
      }
    }
  }

  /** Rendering loses nothing: reading the text back gives the snapshot. */
  lemma RenderRoundTrip(d: nat, s: seq<bool>)
    requires |s| == d * d
    ensures Parse(d, Text(d, s)) == s
  {
    var w, t := Width(d), Text(d, s);
    forall i | 0 <= i < d * d
      ensures Parse(d, t)[i] == s[i]
    {
      IndexOfCoords(d, i);
      var c, r := Col(d, i), Row(d, i);
      CoordsOfIndex(w, 2 * c + 1, r);
      assert (2 * c + 1) / 2 == c;
    }
  }
}
