// The board as the engine holds it, a 10x10 array, and the nested loops
// that read and rewrite it. Each loop is proved against the value-level
// definition in module Board.
module GridOps {
  import opened Types
  import opened Constants
  import opened Board

  predicate Square(a: array2<Cell>)
  {
    a.Length0 == N && a.Length1 == N
  }

  /** The value the array holds. */
  ghost function Snapshot(a: array2<Cell>): (g: Grid)
    reads a
    requires Square(a)
    ensures ValidGrid(g)
    ensures forall r, c :: InBoard(r, c) ==> g[r][c] == a[r, c]
  {
    seq(N, r reads a => seq(N, c reads a => if InBoard(r, c) then a[r, c] else EmptyCell("")))
  }

  /** `deepCopyGrid`: the board as a value. */
  method CopyGrid(a: array2<Cell>) returns (g: Grid)
    requires Square(a)
    ensures g == Snapshot(a)
  {
    g := [];
    for r := 0 to N
      invariant |g| == r
      invariant forall i :: 0 <= i < r ==> |g[i]| == N && forall c :: 0 <= c < N ==> g[i][c] == a[i, c]
    {
      var row: seq<Cell> := [];
      for c := 0 to N
        invariant |row| == c
        invariant forall k :: 0 <= k < c ==> row[k] == a[r, k]
      {
        row := row + [a[r, c]];
      }
      g := g + [row];
    }
    GridExt(g, Snapshot(a));
  }

  /** Writes a board value into the array (a continuation restoring the board its closure captured). */
  method Load(a: array2<Cell>, g: Grid)
    requires Square(a) && ValidGrid(g)
    modifies a
    ensures Snapshot(a) == g
  {
    for r := 0 to N
      invariant forall i, j :: InBoard(i, j) ==> a[i, j] == if i < r then g[i][j] else old(a[i, j])
    {
      for c := 0 to N
        invariant forall i, j :: InBoard(i, j) ==> a[i, j] == if i < r || (i == r && j < c) then g[i][j] else old(a[i, j])
      {
        a[r, c] := g[r][c];
      }
    }
    GridExt(Snapshot(a), g);
  }

  /** `canPlaceBlock`: scans the shape row by row and stops at the first bad offset. */
  method CanPlaceBlock(b: Block, row: int, col: int, a: array2<Cell>) returns (ok: bool)
    requires Square(a) && WellFormed(b)
    ensures ok == CanPlace(b, row, col, Snapshot(a))
  {
    ghost var g: Grid := Snapshot(a);
    for r := 0 to b.height
      invariant forall i, j :: 0 <= i < r && Occupied(b, i, j) ==>
        InBoard(row + i, col + j) && !g[row + i][col + j].filled
    {
      for c := 0 to b.width
        invariant forall i, j :: (0 <= i < r || (i == r && j < c)) && Occupied(b, i, j) ==>
          InBoard(row + i, col + j) && !g[row + i][col + j].filled
      {
        if b.shape[r][c] != 0 {
          var gridRow, gridCol := row + r, col + c;
          if gridRow < 0 || gridRow >= N || gridCol < 0 || gridCol >= N || a[gridRow, gridCol].filled {
            assert Occupied(b, r, c);
            return false;
          }
        }
      }
    }
    return true;
  }

  /** `currentGrid[r].every(cell => cell.isFilled)`. */
  method RowIsFull(a: array2<Cell>, r: int) returns (full: bool)
    requires Square(a) && 0 <= r < N
    ensures full == RowFull(Snapshot(a), r)
  {
    for c := 0 to N
      invariant forall j :: 0 <= j < c ==> a[r, j].filled
    {
      if !a[r, c].filled {
        return false;
      }
    }
    return true;
  }

  /** `currentGrid.every(row => row[c].isFilled)`. */
  method ColIsFull(a: array2<Cell>, c: int) returns (full: bool)
    requires Square(a) && 0 <= c < N
    ensures full == ColFull(Snapshot(a), c)
  {
    for r := 0 to N
      invariant forall i :: 0 <= i < r ==> a[i, c].filled
    {
      if !a[r, c].filled {
        return false;
      }
    }
    return true;
  }

  /** `checkForClears`: the full rows, then the full columns, each scanned in ascending order. */
  method CheckForClears(a: array2<Cell>) returns (rows: seq<int>, cols: seq<int>)
    requires Square(a)
    ensures rows == FullRows(Snapshot(a)) && cols == FullCols(Snapshot(a))
  {
    ghost var g: Grid := Snapshot(a);
    rows := [];
    for r := 0 to N
      invariant rows == FullRowsBelow(g, r)
    {
      var full := RowIsFull(a, r);
      if full {
        rows := rows + [r];
      }
    }
    cols := [];
    for c := 0 to N
      invariant cols == FullColsBelow(g, c)
    {
      var full := ColIsFull(a, c);
      if full {
        cols := cols + [c];
      }
    }
  }

  /** `isMovePossible`: tries every piece at every anchor of its bounding-box range, stopping at the first fit. */
  method IsMovePossible(bs: seq<Block>, a: array2<Cell>) returns (ok: bool)
    requires Square(a) && forall i :: 0 <= i < |bs| ==> WellFormed(bs[i])
    ensures ok == MovePossible(bs, Snapshot(a))
  {
    ghost var g: Grid := Snapshot(a);
    if |bs| == 0 {
      return false;
    }
    for i := 0 to |bs|
      invariant forall k, r, c :: 0 <= k < i && 0 <= r <= N - bs[k].height && 0 <= c <= N - bs[k].width ==>
        !CanPlace(bs[k], r, c, g)
    {
      var b := bs[i];
      var r := 0;
      while r <= N - b.height
        invariant forall k, r', c :: 0 <= k < i && 0 <= r' <= N - bs[k].height && 0 <= c <= N - bs[k].width ==>
          !CanPlace(bs[k], r', c, g)
        invariant forall r', c :: 0 <= r' < r && 0 <= c <= N - b.width ==> !CanPlace(b, r', c, g)
        decreases N - b.height - r
      {
        var c := 0;
        while c <= N - b.width
          invariant forall r', c' :: (0 <= r' < r || (r' == r && 0 <= c' < c)) && 0 <= c' <= N - b.width ==>
            !CanPlace(b, r', c', g)
          decreases N - b.width - c
        {
          ok := CanPlaceBlock(b, r, c, a);
          if ok {
            return true;
          }
          c := c + 1;
        }
        r := r + 1;
      }
    }
    return false;
  }

  /** The placement loop of `placeBlock`: fills every occupied offset and counts them. */
  method PlacePiece(a: array2<Cell>, b: Block, row: int, col: int) returns (placed: nat)
    requires Square(a) && WellFormed(b) && CanPlace(b, row, col, Snapshot(a))
    modifies a
    ensures Snapshot(a) == Edit(old(Snapshot(a)), Piece(b, row, col), Fill(b.color))
    ensures placed == CountShape(b.shape)
  {
    ghost var g: Grid := Snapshot(a);
    placed := 0;
    for r := 0 to b.height
      invariant forall i, j :: InBoard(i, j) ==>
        a[i, j] == if Occupied(b, i - row, j - col) && i - row < r then PlacedCell(b.color) else g[i][j]
      invariant placed == CountShape(b.shape[..r])
    {
      var n := PlaceRow(a, b, row, col, r);
      CountShapeStep(b.shape, r);
      placed := placed + n;
    }
    assert b.shape[..b.height] == b.shape;
    GridExt(Snapshot(a), Edit(g, Piece(b, row, col), Fill(b.color)));
  }

  /** One shape row of the placement loop: fills its occupied offsets and counts them. */
  method PlaceRow(a: array2<Cell>, b: Block, row: int, col: int, r: int) returns (n: nat)
    requires Square(a) && WellFormed(b) && 0 <= r < b.height
    requires forall c :: Occupied(b, r, c) ==> InBoard(row + r, col + c)
    modifies a
    ensures forall i, j :: InBoard(i, j) ==>
      a[i, j] == if i - row == r && Occupied(b, r, j - col) then PlacedCell(b.color) else old(a[i, j])
    ensures n == CountRow(b.shape[r])
  {
    n := 0;
    for c := 0 to b.width
      invariant forall i, j :: InBoard(i, j) ==>
        a[i, j] == if i - row == r && Occupied(b, r, j - col) && j - col < c then PlacedCell(b.color) else old(a[i, j])
      invariant n == CountRow(b.shape[r][..c])
    {
      CountRowStep(b.shape[r], c);
      if b.shape[r][c] != 0 {
        assert Occupied(b, r, c);
        a[row + r, col + c] := PlacedCell(b.color);
        n := n + 1;
      }
    }
    assert b.shape[r][..b.width] == b.shape[r];
  }

  /** The offset loops of `updateHint` and `flashBadPlacement`: `op` on every in-board occupied offset. */
  method EditPiece(a: array2<Cell>, b: Block, row: int, col: int, op: CellOp)
    requires Square(a) && WellFormed(b)
    modifies a
    ensures Snapshot(a) == Edit(old(Snapshot(a)), Piece(b, row, col), op)
  {
    ghost var g: Grid := Snapshot(a);
    for r := 0 to b.height
      invariant forall i, j :: InBoard(i, j) ==>
        a[i, j] == if Occupied(b, i - row, j - col) && i - row < r then Apply(op, g[i][j]) else g[i][j]
    {
      EditPieceRow(a, b, row, col, r, op);
    }
    GridExt(Snapshot(a), Edit(g, Piece(b, row, col), op));
  }

  /** One shape row of those loops: `op` on its in-board occupied offsets. */
  method EditPieceRow(a: array2<Cell>, b: Block, row: int, col: int, r: int, op: CellOp)
    requires Square(a) && WellFormed(b) && 0 <= r < b.height
    modifies a
    ensures forall i, j :: InBoard(i, j) ==>
      a[i, j] == if i - row == r && Occupied(b, r, j - col) then Apply(op, old(a[i, j])) else old(a[i, j])
  {
    for c := 0 to b.width
      invariant forall i, j :: InBoard(i, j) ==>
        a[i, j] == if i - row == r && Occupied(b, r, j - col) && j - col < c then Apply(op, old(a[i, j])) else old(a[i, j])
    {
      if b.shape[r][c] != 0 {
        var gridRow, gridCol := row + r, col + c;
        if InBoard(gridRow, gridCol) {
          a[gridRow, gridCol] := Apply(op, a[gridRow, gridCol]);
        }
      }
    }
  }

  /** The -1..1 loops of `useBoom` and the boom preview: `op` on the in-board cells of the 3x3 area. */
  method EditArea(a: array2<Cell>, row: int, col: int, op: CellOp)
    requires Square(a)
    modifies a
    ensures Snapshot(a) == Edit(old(Snapshot(a)), Area(row, col), op)
  {
    ghost var g: Grid := Snapshot(a);
    for dr := -1 to 2
      invariant forall i, j :: InBoard(i, j) ==>
        a[i, j] == if i < row + dr && InRegion(Area(row, col), i, j) then Apply(op, g[i][j]) else g[i][j]
    {
      for dc := -1 to 2
        invariant forall i, j :: InBoard(i, j) ==>
          a[i, j] == if InRegion(Area(row, col), i, j) && (i < row + dr || (i == row + dr && j < col + dc))
                     then Apply(op, g[i][j]) else g[i][j]
      {
        if InBoard(row + dr, col + dc) {
          a[row + dr, col + dc] := Apply(op, a[row + dr, col + dc]);
        }
      }
    }
    GridExt(Snapshot(a), Edit(g, Area(row, col), op));
  }

  /** `op` on one board cell. */
  method EditCell(a: array2<Cell>, row: int, col: int, op: CellOp)
    requires Square(a) && InBoard(row, col)
    modifies a
    ensures Snapshot(a) == Edit(old(Snapshot(a)), Single(row, col), op)
  {
    ghost var g: Grid := Snapshot(a);
    a[row, col] := Apply(op, a[row, col]);
    GridExt(Snapshot(a), Edit(g, Single(row, col), op));
  }

  /** Every op, applied twice to a cell, acts as once (so a cell on two lines is treated once). */
  lemma ApplyIdempotent(op: CellOp, cell: Cell)
    ensures Apply(op, Apply(op, cell)) == Apply(op, cell)
  {
  }

  /** `clearedRows.forEach(...)` then `clearedCols.forEach(...)`: `op` on every cell of those lines. */
  method EditLines(a: array2<Cell>, rows: seq<int>, cols: seq<int>, op: CellOp)
    requires Square(a)
    requires forall k :: 0 <= k < |rows| ==> 0 <= rows[k] < N
    requires forall k :: 0 <= k < |cols| ==> 0 <= cols[k] < N
    modifies a
    ensures Snapshot(a) == Edit(old(Snapshot(a)), Lines(rows, cols), op)
  {
    ghost var g: Grid := Snapshot(a);
    forall cell: Cell
      ensures Apply(op, Apply(op, cell)) == Apply(op, cell)
    {
      ApplyIdempotent(op, cell);
    }
    for k := 0 to |rows|
      invariant forall i, j :: InBoard(i, j) ==>
        a[i, j] == if i in rows[..k] then Apply(op, g[i][j]) else g[i][j]
    {
      EditRow(a, rows[k], op);
      assert rows[..k + 1] == rows[..k] + [rows[k]];
    }
    assert rows[..|rows|] == rows;
    for k := 0 to |cols|
      invariant forall i, j :: InBoard(i, j) ==>
        a[i, j] == if i in rows || j in cols[..k] then Apply(op, g[i][j]) else g[i][j]
    {
      EditCol(a, cols[k], op);
      assert cols[..k + 1] == cols[..k] + [cols[k]];
    }
    assert cols[..|cols|] == cols;
    GridExt(Snapshot(a), Edit(g, Lines(rows, cols), op));
  }

  /** One cleared row: `op` on each of its cells. */
  method EditRow(a: array2<Cell>, r: int, op: CellOp)
    requires Square(a) && 0 <= r < N
    modifies a
    ensures forall i, j :: InBoard(i, j) ==> a[i, j] == if i == r then Apply(op, old(a[i, j])) else old(a[i, j])
  {
    for c := 0 to N
      invariant forall i, j :: InBoard(i, j) ==>
        a[i, j] == if i == r && j < c then Apply(op, old(a[i, j])) else old(a[i, j])
    {
      a[r, c] := Apply(op, a[r, c]);
    }
  }

  /** One cleared column: `op` on each of its cells. */
  method EditCol(a: array2<Cell>, c: int, op: CellOp)
    requires Square(a) && 0 <= c < N
    modifies a
    ensures forall i, j :: InBoard(i, j) ==> a[i, j] == if j == c then Apply(op, old(a[i, j])) else old(a[i, j])
  {
    for r := 0 to N
      invariant forall i, j :: InBoard(i, j) ==>
        a[i, j] == if j == c && i < r then Apply(op, old(a[i, j])) else old(a[i, j])
    {
      a[r, c] := Apply(op, a[r, c]);
    }
  }

  /** The whole-board maps: the preview reset and the two timers. */
  method EditAll(a: array2<Cell>, op: CellOp)
    requires Square(a)
    modifies a
    ensures Snapshot(a) == Edit(old(Snapshot(a)), Whole, op)
  {
    ghost var g: Grid := Snapshot(a);
    for r := 0 to N
      invariant forall i, j :: InBoard(i, j) ==> a[i, j] == if i < r then Apply(op, g[i][j]) else g[i][j]
    {
      for c := 0 to N
        invariant forall i, j :: InBoard(i, j) ==>
          a[i, j] == if i < r || (i == r && j < c) then Apply(op, g[i][j]) else g[i][j]
      {
        a[r, c] := Apply(op, a[r, c]);
      }
    }
    GridExt(Snapshot(a), Edit(g, Whole, op));
  }
}
