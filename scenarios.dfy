// Worked examples on concrete boards.
module Scenarios {
  import opened Types
  import opened Constants
  import opened Board
  import opened Dealing
  import opened Scoring
  import opened GameModel

  /** Row 0 filled from column 2 on, column 0 filled from row 2 on, everything else empty. */
  function CornerGapBoard(): (g: Grid)
    ensures ValidGrid(g)
    ensures forall r, c :: InBoard(r, c) ==> g[r][c].filled == ((r == 0 && c >= 2) || (c == 0 && r >= 2))
  {
    var g: Grid := seq(N, r requires 0 <= r < N => seq(N, c requires 0 <= c < N =>
      if (r == 0 && c >= 2) || (c == 0 && r >= 2) then PlacedCell("x") else EmptyCell("e")));
    assert forall r, c :: InBoard(r, c) ==>
      g[r][c] == if (r == 0 && c >= 2) || (c == 0 && r >= 2) then PlacedCell("x") else EmptyCell("e");
    g
  }

  /** The catalog's 2x2 square. */
  function Square(id: int, theme: Theme): Block
  {
    MakeBlock(SIMPLE[3], id, theme)
  }

  /** With row 0 and column 0 the only full lines, the scans up to `k` find just those. */
  lemma {:induction false} OnlyFirstLines(g: Grid, k: int)
    requires ValidGrid(g) && 1 <= k <= N && RowFull(g, 0) && ColFull(g, 0)
    requires forall x :: 1 <= x < k ==> !RowFull(g, x) && !ColFull(g, x)
    ensures FullRowsBelow(g, k) == [0] && FullColsBelow(g, k) == [0]
  {
    if k > 1 {
      OnlyFirstLines(g, k - 1);
    }
  }

  /** The square occupies exactly offsets (0..1, 0..1). */
  lemma SquareOccupies(id: int, theme: Theme)
    ensures var b := Square(id, theme);
      b.width == 2 && b.height == 2 && b.shape == [[1, 1], [1, 1]] &&
      forall r, c :: Occupied(b, r, c) <==> 0 <= r <= 1 && 0 <= c <= 1
  {
  }

  /** After the square lands at (0, 0), a cell is filled iff it is in the square or in the gap board's pattern. */
  lemma GapBoardAfterSquare(id: int, theme: Theme)
    ensures var b := Square(id, theme);
      var g := Edit(CornerGapBoard(), Piece(b, 0, 0), Fill(b.color));
      forall r, c :: InBoard(r, c) ==>
        g[r][c].filled == ((r <= 1 && c <= 1) || (r == 0 && c >= 2) || (c == 0 && r >= 2))
  {
    var b := Square(id, theme);
    SquareOccupies(id, theme);
    var board: Grid := CornerGapBoard();
    var g: Grid := Edit(board, Piece(b, 0, 0), Fill(b.color));
    forall r, c | InBoard(r, c)
      ensures g[r][c].filled == ((r <= 1 && c <= 1) || (r == 0 && c >= 2) || (c == 0 && r >= 2))
    {
      assert g[r][c] == if Occupied(b, r, c) then PlacedCell(b.color) else board[r][c];
    }
  }

  /** A board filled exactly where the square and the gap board are has row 0 and column 0 as its only full lines. */
  lemma ClosedGapLines(g: Grid)
    requires ValidGrid(g)
    requires forall r, c :: InBoard(r, c) ==>
      g[r][c].filled == ((r <= 1 && c <= 1) || (r == 0 && c >= 2) || (c == 0 && r >= 2))
    ensures FullRows(g) == [0] && FullCols(g) == [0]
  {
    forall x | 1 <= x < N
      ensures !RowFull(g, x) && !ColFull(g, x)
    {
      var y := if x == 1 then 2 else 1;
      assert !g[x][y].filled && !g[y][x].filled;
    }
    OnlyFirstLines(g, N);
  }

  /** The square fits the gap at (0, 0). */
  lemma SquareFitsGap(id: int, theme: Theme)
    ensures CanPlace(Square(id, theme), 0, 0, CornerGapBoard())
  {
    SquareOccupies(id, theme);
  }

  /** The square dropped into the gap completes exactly row 0 and column 0. */
  lemma GapClosingLines(id: int, theme: Theme)
    ensures var b := Square(id, theme);
      CanPlace(b, 0, 0, CornerGapBoard()) &&
      var g := Edit(CornerGapBoard(), Piece(b, 0, 0), Fill(b.color));
      FullRows(g) == [0] && FullCols(g) == [0]
  {
    SquareFitsGap(id, theme);
    GapBoardAfterSquare(id, theme);
    var b := Square(id, theme);
    ClosedGapLines(Edit(CornerGapBoard(), Piece(b, 0, 0), Fill(b.color)));
  }

  /** The square has four occupied cells. */
  lemma SquareCellCount()
    ensures CountShape([[1, 1], [1, 1]]) == 4
  {
    var row: seq<int> := [1, 1];
    var one: seq<int> := [1];
    assert row[..1] == one && one[..0] == [];
    assert CountRow(row) == 2;
    var rows: seq<seq<int>> := [row, row];
    var top: seq<seq<int>> := [row];
    assert rows[..1] == top && top[..0] == [];
  }

  /** A four-cell piece completing one row and one column scores 4 + 100 * 2 * 2 + 50 = 454. */
  lemma CornerGapScores454(s: State, id: int, picks: seq<int>)
    requires s.grid == CornerGapBoard() && !s.Locked() && ValidPicks(s.difficulty, picks)
    ensures PlaceBlock(s, Square(id, s.theme), 0, 0, picks).score == s.score + 454
  {
    var b := Square(id, s.theme);
    GapClosingLines(id, s.theme);
    assert PlaceOk(s, b, 0, 0);
    var g := AfterPlacement(s, b, 0, 0);
    assert |FullRows(g)| + |FullCols(g)| == 2;
    PlaceScores(s, b, 0, 0, picks);
    SquareCellCount();
    assert Points(4, 2) == 454;
  }
}
