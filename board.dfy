// The board as a value: a 10x10 matrix of cells, the single edit primitive
// every placement, clear, explosion and preview is defined through, the
// placement test, the full-line scan and the move-availability oracle.
module Board {
  import opened Types
  import opened Constants

  const N := GRID_SIZE

  type Grid = seq<seq<Cell>>

  ghost predicate ValidGrid(g: Grid)
  {
    |g| == N && forall r :: 0 <= r < N ==> |g[r]| == N
  }

  predicate InBoard(r: int, c: int)
  {
    0 <= r < N && 0 <= c < N
  }

  /** The canonical empty cell of a theme (`createEmptyCell`). */
  function EmptyCell(emptyClass: string): Cell
  {
    Cell(false, emptyClass, NoHint, false, false, false, false)
  }

  /** The cell a placement writes: filled, the piece's colour, marked just placed. */
  function PlacedCell(color: string): Cell
  {
    Cell(true, color, NoHint, false, true, false, false)
  }

  /** The number of non-zero entries of one shape row. */
  function CountRow(row: seq<int>): nat
  {
    if row == [] then 0 else CountRow(row[..|row| - 1]) + (if row[|row| - 1] != 0 then 1 else 0)
  }

  /** The number of occupied offsets of a shape: the cells a placement fills. */
  function CountShape(rows: seq<seq<int>>): nat
  {
    if rows == [] then 0 else CountShape(rows[..|rows| - 1]) + CountRow(rows[|rows| - 1])
  }

  /** Counting one more entry of a row. */
  lemma CountRowStep(row: seq<int>, c: int)
    requires 0 <= c < |row|
    ensures CountRow(row[..c + 1]) == CountRow(row[..c]) + (if row[c] != 0 then 1 else 0)
  {
    assert row[..c + 1][..c] == row[..c];
  }

  /** Counting one more row of a shape. */
  lemma CountShapeStep(rows: seq<seq<int>>, r: int)
    requires 0 <= r < |rows|
    ensures CountShape(rows[..r + 1]) == CountShape(rows[..r]) + CountRow(rows[r])
  {
    assert rows[..r + 1][..r] == rows[..r];
  }

  /** The board `createEmptyGrid` builds. */
  function EmptyGrid(emptyClass: string): (g: Grid)
    ensures ValidGrid(g)
    ensures forall r, c :: InBoard(r, c) ==> !g[r][c].filled
  {
    seq(N, r => seq(N, c => EmptyCell(emptyClass)))
  }

  /** What one step does to one cell. */
  datatype CellOp =
    | Fill(color: string)       // a placement
    | Reset(emptyClass: string) // a cleared line, an explosion, a dissolve
    | MarkHint(h: Hint)         // a preview or a rejected-drop flash
    | DropHint                  // the preview reset at the start of updateHint
    | DropBadHint               // the flash timer
    | DropJustPlaced            // the placement-pop timer
    | MarkClearing              // the line-clear animation
    | MarkExploding             // the boom animation
    | MarkDissolving            // the single-clear animation

  function Apply(op: CellOp, cell: Cell): Cell
  {
    match op
    case Fill(color) => PlacedCell(color)
    case Reset(e) => EmptyCell(e)
    case MarkHint(h) => cell.(hint := h)
    case DropHint => cell.(hint := NoHint)
    case DropBadHint => if cell.hint == Bad then cell.(hint := NoHint) else cell
    case DropJustPlaced => cell.(justPlaced := false)
    case MarkClearing => cell.(clearing := true)
    case MarkExploding => cell.(exploding := true)
    case MarkDissolving => cell.(dissolving := true)
  }

  /** Ops that touch only presentation state, never `filled` or `color`. */
  predicate Cosmetic(op: CellOp)
  {
    !op.Fill? && !op.Reset?
  }

  /** Which board cells one step touches. */
  datatype Region =
    | Piece(block: Block, row: int, col: int) // the occupied offsets of a piece anchored at (row, col)
    | Area(row: int, col: int)                // the 3x3 neighbourhood of (row, col)
    | Single(row: int, col: int)
    | Lines(rows: seq<int>, cols: seq<int>)   // whole rows and whole columns
    | Whole

  predicate InRegion(reg: Region, r: int, c: int)
  {
    match reg
    case Piece(b, row, col) => Occupied(b, r - row, c - col)
    case Area(row, col) => row - 1 <= r <= row + 1 && col - 1 <= c <= col + 1
    case Single(row, col) => r == row && c == col
    case Lines(rows, cols) => r in rows || c in cols
    case Whole => true
  }

  /** The board after applying `op` to every board cell of `reg`; the one edit primitive. */
  function Edit(g: Grid, reg: Region, op: CellOp): (e: Grid)
    requires ValidGrid(g)
    ensures ValidGrid(e)
  {
    seq(N, r requires 0 <= r < N =>
      seq(N, c requires 0 <= c < N =>
        if InRegion(reg, r, c) then Apply(op, g[r][c]) else g[r][c]))
  }

  lemma GridExt(a: Grid, b: Grid)
    requires ValidGrid(a) && ValidGrid(b)
    requires forall r, c :: InBoard(r, c) ==> a[r][c] == b[r][c]
    ensures a == b
  {
    forall r | 0 <= r < N
      ensures a[r] == b[r]
    {
      assert forall c :: 0 <= c < N ==> a[r][c] == b[r][c];
    }
  }

  // ---------------------------------------------------------------- placement

  /** `canPlaceBlock`: every occupied offset lands on an in-bounds, unfilled cell. */
  ghost predicate CanPlace(b: Block, row: int, col: int, g: Grid)
    requires ValidGrid(g)
  {
    forall r, c :: Occupied(b, r, c) ==>
      InBoard(row + r, col + c) && !g[row + r][col + c].filled
  }

  /** Same `filled` and `color` in every cell: what gameplay sees of a board. */
  ghost predicate SameContents(a: Grid, b: Grid)
    requires ValidGrid(a) && ValidGrid(b)
  {
    forall r, c :: InBoard(r, c) ==> a[r][c].filled == b[r][c].filled && a[r][c].color == b[r][c].color
  }

  lemma CosmeticEditKeepsContents(g: Grid, reg: Region, op: CellOp)
    requires ValidGrid(g) && Cosmetic(op)
    ensures SameContents(g, Edit(g, reg, op))
  {
  }

  /** The placement test reads only `filled`, so a preview cannot change its answer. */
  lemma CanPlaceReadsOnlyFill(b: Block, row: int, col: int, g: Grid, h: Grid)
    requires ValidGrid(g) && ValidGrid(h) && SameContents(g, h)
    ensures CanPlace(b, row, col, g) == CanPlace(b, row, col, h)
  {
    if CanPlace(b, row, col, g) {
      forall r, c | Occupied(b, r, c)
        ensures InBoard(row + r, col + c) && !h[row + r][col + c].filled
      {
        assert InBoard(row + r, col + c) && !g[row + r][col + c].filled;
      }
    } else {
      var r, c :| Occupied(b, r, c) && !(InBoard(row + r, col + c) && !g[row + r][col + c].filled);
      assert !(InBoard(row + r, col + c) && !h[row + r][col + c].filled);
    }
  }

  /**
   * A successful placement fills exactly the image of the piece's occupied
   * offsets with its colour: each lands on the board and was empty before,
   * now holds the placed cell, and every cell outside the image is untouched.
   */
  lemma PlacementFillsExactlyThePiece(b: Block, row: int, col: int, g: Grid)
    requires ValidGrid(g) && CanPlace(b, row, col, g)
    ensures forall r, c :: Occupied(b, r, c) ==>
      InBoard(row + r, col + c) && !g[row + r][col + c].filled &&
      Edit(g, Piece(b, row, col), Fill(b.color))[row + r][col + c] == PlacedCell(b.color)
    ensures forall r, c :: InBoard(r, c) && !Occupied(b, r - row, c - col) ==>
      Edit(g, Piece(b, row, col), Fill(b.color))[r][c] == g[r][c]
    ensures forall r, c :: InBoard(r, c) ==>
      (Edit(g, Piece(b, row, col), Fill(b.color))[r][c].filled <==> g[r][c].filled || Occupied(b, r - row, c - col))
  {
    var e: Grid := Edit(g, Piece(b, row, col), Fill(b.color));
    forall r, c | Occupied(b, r, c)
      ensures InBoard(row + r, col + c) && e[row + r][col + c] == PlacedCell(b.color)
    {
      assert InRegion(Piece(b, row, col), row + r, col + c);
    }
  }

  /** A placed piece cannot be placed again at the same anchor (if it occupies anything). */
  lemma PlacedPieceBlocksItsAnchor(b: Block, row: int, col: int, g: Grid, r0: int, c0: int)
    requires ValidGrid(g) && Occupied(b, r0, c0)
    ensures !CanPlace(b, row, col, Edit(g, Piece(b, row, col), Fill(b.color)))
  {
    var e: Grid := Edit(g, Piece(b, row, col), Fill(b.color));
    if InBoard(row + r0, col + c0) {
      assert InRegion(Piece(b, row, col), row + r0, col + c0);
      assert e[row + r0][col + c0].filled;
    }
  }

  // --------------------------------------------------------------- line clears

  ghost predicate RowFull(g: Grid, r: int)
    requires ValidGrid(g) && 0 <= r < N
  {
    forall c :: 0 <= c < N ==> g[r][c].filled
  }

  ghost predicate ColFull(g: Grid, c: int)
    requires ValidGrid(g) && 0 <= c < N
  {
    forall r :: 0 <= r < N ==> g[r][c].filled
  }

  /** The full rows below `k`, in the order the scan finds them. */
  ghost function FullRowsBelow(g: Grid, k: int): seq<int>
    requires ValidGrid(g) && 0 <= k <= N
  {
    if k == 0 then [] else FullRowsBelow(g, k - 1) + (if RowFull(g, k - 1) then [k - 1] else [])
  }

  ghost function FullColsBelow(g: Grid, k: int): seq<int>
    requires ValidGrid(g) && 0 <= k <= N
  {
    if k == 0 then [] else FullColsBelow(g, k - 1) + (if ColFull(g, k - 1) then [k - 1] else [])
  }

  /** `checkForClears(...).clearedRows`. */
  ghost function FullRows(g: Grid): seq<int>
    requires ValidGrid(g)
  {
    FullRowsBelow(g, N)
  }

  /** `checkForClears(...).clearedCols`. */
  ghost function FullCols(g: Grid): seq<int>
    requires ValidGrid(g)
  {
    FullColsBelow(g, N)
  }

  predicate StrictlyIncreasing(s: seq<int>)
  {
    forall i, j :: 0 <= i < j < |s| ==> s[i] < s[j]
  }

  lemma {:induction false} FullRowsBelowSpec(g: Grid, k: int)
    requires ValidGrid(g) && 0 <= k <= N
    ensures forall x :: x in FullRowsBelow(g, k) <==> 0 <= x < k && RowFull(g, x)
    ensures StrictlyIncreasing(FullRowsBelow(g, k))
  {
    if k > 0 {
      FullRowsBelowSpec(g, k - 1);
      var s := FullRowsBelow(g, k - 1);
      forall i | 0 <= i < |s|
        ensures s[i] < k - 1
      {
        assert s[i] in s;
      }
    }
  }

  lemma {:induction false} FullColsBelowSpec(g: Grid, k: int)
    requires ValidGrid(g) && 0 <= k <= N
    ensures forall x :: x in FullColsBelow(g, k) <==> 0 <= x < k && ColFull(g, x)
    ensures StrictlyIncreasing(FullColsBelow(g, k))
  {
    if k > 0 {
      FullColsBelowSpec(g, k - 1);
      var s := FullColsBelow(g, k - 1);
      forall i | 0 <= i < |s|
        ensures s[i] < k - 1
      {
        assert s[i] in s;
      }
    }
  }

  /**
   * Row r is reported iff all ten of its cells are filled, column c likewise,
   * and both lists are strictly ascending (so without duplicates).
   */
  lemma FullLinesSpec(g: Grid)
    requires ValidGrid(g)
    ensures forall r :: r in FullRows(g) <==> 0 <= r < N && RowFull(g, r)
    ensures forall c :: c in FullCols(g) <==> 0 <= c < N && ColFull(g, c)
    ensures StrictlyIncreasing(FullRows(g)) && StrictlyIncreasing(FullCols(g))
  {
    FullRowsBelowSpec(g, N);
    FullColsBelowSpec(g, N);
  }

  /** The clear resolution: every cell of a reported row or column becomes the empty cell. */
  ghost function ClearLines(g: Grid, emptyClass: string): (e: Grid)
    requires ValidGrid(g)
    ensures ValidGrid(e)
  {
    Edit(g, Lines(FullRows(g), FullCols(g)), Reset(emptyClass))
  }

  /**
   * After the clear, a cell of a cleared row or column is exactly the empty
   * cell (an intersection cell too, once), and every other cell is unchanged.
   */
  lemma ClearLinesExact(g: Grid, emptyClass: string)
    requires ValidGrid(g)
    ensures forall r, c :: InBoard(r, c) ==>
      ClearLines(g, emptyClass)[r][c] ==
        if RowFull(g, r) || ColFull(g, c) then EmptyCell(emptyClass) else g[r][c]
  {
    FullLinesSpec(g);
  }

  lemma {:induction false} NoFullLinesBelow(g: Grid, k: int)
    requires ValidGrid(g) && 0 <= k <= N
    requires forall x :: 0 <= x < k ==> !RowFull(g, x) && !ColFull(g, x)
    ensures FullRowsBelow(g, k) == [] && FullColsBelow(g, k) == []
  {
    if k > 0 {
      NoFullLinesBelow(g, k - 1);
    }
  }

  /** Clearing the full lines leaves no full line behind. */
  lemma ClearLeavesNoFullLine(g: Grid, emptyClass: string)
    requires ValidGrid(g)
    ensures FullRows(ClearLines(g, emptyClass)) == []
    ensures FullCols(ClearLines(g, emptyClass)) == []
  {
    var e: Grid := ClearLines(g, emptyClass);
    ClearLinesExact(g, emptyClass);
    forall r | 0 <= r < N
      ensures !RowFull(e, r)
    {
      if RowFull(g, r) {
        assert InBoard(r, 0) && RowFull(g, r);
        assert e[r][0] == EmptyCell(emptyClass);
      } else {
        var c :| 0 <= c < N && !g[r][c].filled;
        assert !ColFull(g, c);
        assert e[r][c] == g[r][c];
      }
    }
    forall c | 0 <= c < N
      ensures !ColFull(e, c)
    {
      if ColFull(g, c) {
        assert !e[0][c].filled;
      } else {
        var r :| 0 <= r < N && !g[r][c].filled;
        assert !RowFull(g, r);
        assert e[r][c] == g[r][c];
      }
    }
    NoFullLinesBelow(e, N);
  }

  /** A reset over a region overrides whatever an animation marked there first. */
  lemma ResetOverridesMark(g: Grid, reg: Region, op: CellOp, emptyClass: string)
    requires ValidGrid(g)
    ensures Edit(Edit(g, reg, op), reg, Reset(emptyClass)) == Edit(g, reg, Reset(emptyClass))
  {
    GridExt(Edit(Edit(g, reg, op), reg, Reset(emptyClass)), Edit(g, reg, Reset(emptyClass)));
  }

  /**
   * Restoring a captured board with its pop marks dropped and then emptying
   * `reg`: the cells of `reg` are the empty cell, whatever mark `op` had laid
   * on them, and every other cell is as captured without its pop mark.
   */
  lemma RestoreExact(g: Grid, reg: Region, op: CellOp, emptyClass: string)
    requires ValidGrid(g)
    ensures forall r, c :: InBoard(r, c) ==>
      Edit(Edit(Edit(g, reg, op), Whole, DropJustPlaced), reg, Reset(emptyClass))[r][c] ==
        if InRegion(reg, r, c) then EmptyCell(emptyClass) else g[r][c].(justPlaced := false)
  {
  }

  /** A board restored without pop marks and then partly emptied has no pop mark. */
  lemma RestoredHasNoPopMark(g: Grid, reg: Region, emptyClass: string)
    requires ValidGrid(g)
    ensures forall r, c :: InBoard(r, c) ==> !Edit(Edit(g, Whole, DropJustPlaced), reg, Reset(emptyClass))[r][c].justPlaced
  {
  }

  /**
   * The line clear on a restored board: marking the full lines, dropping the
   * pop marks and emptying those lines is the clear without pop marks; it
   * empties exactly the cells of full lines and leaves no full line.
   */
  lemma ClearAfterRestore(g: Grid, emptyClass: string)
    requires ValidGrid(g)
    ensures var lines := Lines(FullRows(g), FullCols(g));
      var u := Edit(Edit(Edit(g, lines, MarkClearing), Whole, DropJustPlaced), lines, Reset(emptyClass));
      u == Edit(ClearLines(g, emptyClass), Whole, DropJustPlaced) &&
      (forall r, c :: InBoard(r, c) ==>
        u[r][c] == if RowFull(g, r) || ColFull(g, c) then EmptyCell(emptyClass) else g[r][c].(justPlaced := false)) &&
      FullRows(u) == [] && FullCols(u) == []
  {
    var lines := Lines(FullRows(g), FullCols(g));
    var cleared: Grid := ClearLines(g, emptyClass);
    var u: Grid := Edit(Edit(Edit(g, lines, MarkClearing), Whole, DropJustPlaced), lines, Reset(emptyClass));
    var v: Grid := Edit(cleared, Whole, DropJustPlaced);
    FullLinesSpec(g);
    forall r, c | InBoard(r, c)
      ensures u[r][c] == v[r][c]
      ensures u[r][c] == if RowFull(g, r) || ColFull(g, c) then EmptyCell(emptyClass) else g[r][c].(justPlaced := false)
    {
      assert InRegion(lines, r, c) == (RowFull(g, r) || ColFull(g, c));
    }
    GridExt(u, v);
    ClearLeavesNoFullLine(g, emptyClass);
    MarkingKeepsFullLines(cleared, Whole, DropJustPlaced);
  }

  /** Applying `op` to the full lines touches exactly the cells of full rows and full columns. */
  lemma EditFullLines(g: Grid, op: CellOp)
    requires ValidGrid(g)
    ensures forall r, c :: InBoard(r, c) ==>
      Edit(g, Lines(FullRows(g), FullCols(g)), op)[r][c] ==
        if RowFull(g, r) || ColFull(g, c) then Apply(op, g[r][c]) else g[r][c]
  {
    FullLinesSpec(g);
  }

  /** The clearing marks touch no full-line status, so the clear sees the same lines. */
  lemma MarkingKeepsFullLines(g: Grid, reg: Region, op: CellOp)
    requires ValidGrid(g) && Cosmetic(op)
    ensures FullRows(Edit(g, reg, op)) == FullRows(g)
    ensures FullCols(Edit(g, reg, op)) == FullCols(g)
  {
    var e: Grid := Edit(g, reg, op);
    SameContentsSameLines(g, e, N);
  }

  lemma {:induction false} SameContentsSameLines(g: Grid, h: Grid, k: int)
    requires ValidGrid(g) && ValidGrid(h) && SameContents(g, h) && 0 <= k <= N
    ensures FullRowsBelow(g, k) == FullRowsBelow(h, k)
    ensures FullColsBelow(g, k) == FullColsBelow(h, k)
  {
    if k > 0 {
      SameContentsSameLines(g, h, k - 1);
      SameContentsSameFull(g, h, k - 1);
    }
  }

  lemma SameContentsSameFull(g: Grid, h: Grid, x: int)
    requires ValidGrid(g) && ValidGrid(h) && SameContents(g, h) && 0 <= x < N
    ensures RowFull(g, x) == RowFull(h, x) && ColFull(g, x) == ColFull(h, x)
  {
    assert forall c :: 0 <= c < N ==> g[x][c].filled == h[x][c].filled;
    assert forall r :: 0 <= r < N ==> g[r][x].filled == h[r][x].filled;
  }

  // ------------------------------------------------------- move availability

  /**
   * `isMovePossible`: some piece fits at some anchor whose bounding box lies on
   * the board. An empty list has no such piece.
   */
  ghost predicate MovePossible(bs: seq<Block>, g: Grid)
    requires ValidGrid(g)
  {
    exists i, r, c :: 0 <= i < |bs| && 0 <= r <= N - bs[i].height && 0 <= c <= N - bs[i].width &&
      CanPlace(bs[i], r, c, g)
  }

  /** Whether a move exists depends only on which cells are filled. */
  lemma MovePossibleReadsOnlyFill(bs: seq<Block>, g: Grid, h: Grid)
    requires ValidGrid(g) && ValidGrid(h) && SameContents(g, h)
    ensures MovePossible(bs, g) == MovePossible(bs, h)
  {
    forall i, r, c | 0 <= i < |bs|
      ensures CanPlace(bs[i], r, c, g) == CanPlace(bs[i], r, c, h)
    {
      CanPlaceReadsOnlyFill(bs[i], r, c, g, h);
    }
  }

  ghost predicate RowUsed(b: Block, r: int)
  {
    exists c :: Occupied(b, r, c)
  }

  ghost predicate ColUsed(b: Block, c: int)
  {
    exists r :: Occupied(b, r, c)
  }

  /** Something in the first and last row and in the first and last column of the box. */
  ghost predicate Tight(b: Block)
  {
    b.height > 0 && b.width > 0 &&
    RowUsed(b, 0) && RowUsed(b, b.height - 1) && ColUsed(b, 0) && ColUsed(b, b.width - 1)
  }

  /** For a tight piece every valid anchor lies in the range the oracle scans. */
  lemma FittingAnchorInScanRange(b: Block, row: int, col: int, g: Grid)
    requires ValidGrid(g) && Tight(b) && CanPlace(b, row, col, g)
    ensures 0 <= row <= N - b.height && 0 <= col <= N - b.width
  {
    var c0 :| Occupied(b, 0, c0);
    var c1 :| Occupied(b, b.height - 1, c1);
    var r0 :| Occupied(b, r0, 0);
    var r1 :| Occupied(b, r1, b.width - 1);
    assert InBoard(row, col + c0);
    assert InBoard(row + b.height - 1, col + c1);
    assert InBoard(row + r0, col);
    assert InBoard(row + r1, col + b.width - 1);
  }

  /**
   * The oracle's bounded scan loses nothing: for tight pieces a move exists iff
   * some piece fits at some anchor anywhere.
   */
  lemma MovePossibleIffSomeAnchor(bs: seq<Block>, g: Grid)
    requires ValidGrid(g)
    requires forall i :: 0 <= i < |bs| ==> Tight(bs[i])
    ensures MovePossible(bs, g) <==> exists i, r, c :: 0 <= i < |bs| && CanPlace(bs[i], r, c, g)
  {
    if exists i, r, c :: 0 <= i < |bs| && CanPlace(bs[i], r, c, g) {
      var i, r, c :| 0 <= i < |bs| && CanPlace(bs[i], r, c, g);
      FittingAnchorInScanRange(bs[i], r, c, g);
    }
  }

  ghost predicate AllFilled(g: Grid)
    requires ValidGrid(g)
  {
    forall r, c :: InBoard(r, c) ==> g[r][c].filled
  }

  /** On a full board no piece that occupies a cell can move: the game is over. */
  lemma NoMoveOnFullBoard(bs: seq<Block>, g: Grid)
    requires ValidGrid(g) && AllFilled(g)
    requires forall i :: 0 <= i < |bs| ==> exists r, c :: Occupied(bs[i], r, c)
    ensures !MovePossible(bs, g)
  {
    forall i, row, col | 0 <= i < |bs|
      ensures !CanPlace(bs[i], row, col, g)
    {
      var r, c :| Occupied(bs[i], r, c);
      assert !(InBoard(row + r, col + c) && !g[row + r][col + c].filled);
    }
  }

  /** A piece whose box is at most the board fits at the corner of a board with no filled cell. */
  lemma FitsOnEmptyBoard(b: Block, g: Grid)
    requires ValidGrid(g) && b.height <= N && b.width <= N
    requires forall r, c :: InBoard(r, c) ==> !g[r][c].filled
    ensures CanPlace(b, 0, 0, g) && MovePossible([b], g)
  {
    assert 0 <= 0 <= N - b.height || b.height <= 0;
    assert CanPlace([b][0], 0, 0, g);
    assert 0 <= N - [b][0].height && 0 <= N - [b][0].width;
  }

  // -------------------------------------------------------------- preview hints

  /**
   * `updateHint` with the guard the caller evidently intends: every hint is
   * dropped, then a piece preview marks the in-board occupied offsets `Good`
   * iff the piece fits, a boom preview marks the 3x3 area of an on-board
   * target, and a single-clear preview marks a filled target.
   */
  ghost function Hinted(g: Grid, block: Option<Block>, row: int, col: int, armed: Option<PowerUpType>): (e: Grid)
    requires ValidGrid(g)
    ensures ValidGrid(e)
  {
    var cleared := Edit(g, Whole, DropHint);
    if block.Some? && row >= 0 && col >= 0 then
      Edit(cleared, Piece(block.value, row, col), MarkHint(if CanPlace(block.value, row, col, cleared) then Good else Bad))
    else if armed == Some(Boom) && InBoard(row, col) then
      Edit(cleared, Area(row, col), MarkHint(Good))
    else if armed == Some(SingleClear) && InBoard(row, col) && g[row][col].filled then
      Edit(cleared, Single(row, col), MarkHint(Good))
    else
      cleared
  }

  /** `updateHint` as written: its boom branch also runs for an off-board target. */
  ghost function HintedAsWritten(g: Grid, block: Option<Block>, row: int, col: int, armed: Option<PowerUpType>): (e: Grid)
    requires ValidGrid(g)
    ensures ValidGrid(e)
  {
    var cleared := Edit(g, Whole, DropHint);
    if block.Some? && row >= 0 && col >= 0 then
      Edit(cleared, Piece(block.value, row, col), MarkHint(if CanPlace(block.value, row, col, cleared) then Good else Bad))
    else if armed == Some(Boom) then
      Edit(cleared, Area(row, col), MarkHint(Good))
    else if armed == Some(SingleClear) && InBoard(row, col) && g[row][col].filled then
      Edit(cleared, Single(row, col), MarkHint(Good))
    else
      cleared
  }

  /**
   * As written, the hint reset called with the off-board position (-1, -1)
   * while boom is armed leaves cell (0, 0) marked `Good`.
   */
  lemma ClearHintAsWrittenMarksCorner(g: Grid)
    requires ValidGrid(g)
    ensures HintedAsWritten(g, None, -1, -1, Some(Boom))[0][0].hint == Good
  {
  }

  /** With the guard, a power-up preview at an off-board position leaves no hint anywhere. */
  lemma OffBoardPreviewClearsAllHints(g: Grid, row: int, col: int, armed: Option<PowerUpType>)
    requires ValidGrid(g) && !InBoard(row, col)
    ensures forall r, c :: InBoard(r, c) ==> Hinted(g, None, row, col, armed)[r][c].hint == NoHint
  {
  }

  /** `e` differs from `g` at most in hints. */
  ghost predicate HintsOnly(g: Grid, e: Grid)
    requires ValidGrid(g) && ValidGrid(e)
  {
    forall r, c :: InBoard(r, c) ==> e[r][c] == g[r][c].(hint := e[r][c].hint)
  }

  lemma HintEditHintsOnly(g: Grid, reg: Region, op: CellOp)
    requires ValidGrid(g) && (op.MarkHint? || op.DropHint?)
    ensures HintsOnly(g, Edit(g, reg, op))
  {
  }

  lemma HintsOnlyTrans(g: Grid, h: Grid, e: Grid)
    requires ValidGrid(g) && ValidGrid(h) && ValidGrid(e) && HintsOnly(g, h) && HintsOnly(h, e)
    ensures HintsOnly(g, e)
  {
    forall r, c | InBoard(r, c)
      ensures e[r][c] == g[r][c].(hint := e[r][c].hint)
    {
      assert h[r][c] == g[r][c].(hint := h[r][c].hint);
    }
  }

  /** The off-board guard changes only the boom preview at an off-board target. */
  lemma HintFixIsMinimal(g: Grid, block: Option<Block>, row: int, col: int, armed: Option<PowerUpType>)
    requires ValidGrid(g)
    ensures InBoard(row, col) || armed != Some(Boom) || (block.Some? && row >= 0 && col >= 0) ==>
      Hinted(g, block, row, col, armed) == HintedAsWritten(g, block, row, col, armed)
  {
  }

  /** A preview changes no cell's `filled` or `color` (nor any animation flag). */
  lemma HintedKeepsCells(g: Grid, block: Option<Block>, row: int, col: int, armed: Option<PowerUpType>)
    requires ValidGrid(g)
    ensures forall r, c :: InBoard(r, c) ==>
      Hinted(g, block, row, col, armed)[r][c] == g[r][c].(hint := Hinted(g, block, row, col, armed)[r][c].hint)
  {
    var cleared: Grid := Edit(g, Whole, DropHint);
    var h: Grid := Hinted(g, block, row, col, armed);
    HintEditHintsOnly(g, Whole, DropHint);
    if block.Some? && row >= 0 && col >= 0 {
      var mark := if CanPlace(block.value, row, col, cleared) then Good else Bad;
      HintEditHintsOnly(cleared, Piece(block.value, row, col), MarkHint(mark));
      HintsOnlyTrans(g, cleared, h);
    } else if armed == Some(Boom) && InBoard(row, col) {
      HintEditHintsOnly(cleared, Area(row, col), MarkHint(Good));
      HintsOnlyTrans(g, cleared, h);
    } else if armed == Some(SingleClear) && InBoard(row, col) && g[row][col].filled {
      HintEditHintsOnly(cleared, Single(row, col), MarkHint(Good));
      HintsOnlyTrans(g, cleared, h);
    }
    assert HintsOnly(g, h);
  }

  /** A piece preview marks exactly the in-board occupied offsets, `Good` iff the piece fits. */
  lemma PiecePreviewMarks(g: Grid, b: Block, row: int, col: int, armed: Option<PowerUpType>)
    requires ValidGrid(g) && row >= 0 && col >= 0
    ensures forall r, c :: InBoard(r, c) ==>
      Hinted(g, Some(b), row, col, armed)[r][c].hint ==
        if Occupied(b, r - row, c - col) then (if CanPlace(b, row, col, g) then Good else Bad) else NoHint
  {
    var cleared: Grid := Edit(g, Whole, DropHint);
    CosmeticEditKeepsContents(g, Whole, DropHint);
    CanPlaceReadsOnlyFill(b, row, col, g, cleared);
    var mark := if CanPlace(b, row, col, g) then Good else Bad;
    var h: Grid := Hinted(g, Some(b), row, col, armed);
    assert h == Edit(cleared, Piece(b, row, col), MarkHint(mark));
    forall r, c | InBoard(r, c)
      ensures h[r][c].hint == if Occupied(b, r - row, c - col) then mark else NoHint
    {
      assert cleared[r][c].hint == NoHint;
    }
  }

  /**
   * Without a piece to preview, an armed boom marks exactly the in-board cells
   * of the 3x3 area of an on-board target, an armed single clear marks exactly
   * a filled on-board target, and nothing else is marked.
   */
  lemma PowerUpPreviewMarks(g: Grid, block: Option<Block>, row: int, col: int, armed: Option<PowerUpType>)
    requires ValidGrid(g) && (block.None? || row < 0 || col < 0)
    ensures forall r, c :: InBoard(r, c) ==>
      Hinted(g, block, row, col, armed)[r][c].hint ==
        if (armed == Some(Boom) && InBoard(row, col) && InRegion(Area(row, col), r, c)) ||
           (armed == Some(SingleClear) && InBoard(row, col) && g[row][col].filled && r == row && c == col)
        then Good else NoHint
  {
    var cleared: Grid := Edit(g, Whole, DropHint);
    assert forall r, c :: InBoard(r, c) ==> cleared[r][c].hint == NoHint;
  }

  /** Recomputing a preview with the same arguments changes nothing. */
  lemma HintedIdempotent(g: Grid, block: Option<Block>, row: int, col: int, armed: Option<PowerUpType>)
    requires ValidGrid(g)
    ensures Hinted(Hinted(g, block, row, col, armed), block, row, col, armed) == Hinted(g, block, row, col, armed)
  {
    var h: Grid := Hinted(g, block, row, col, armed);
    var hh: Grid := Hinted(h, block, row, col, armed);
    var cg: Grid := Edit(g, Whole, DropHint);
    var ch: Grid := Edit(h, Whole, DropHint);
    HintedKeepsCells(g, block, row, col, armed);
    GridExt(cg, ch);
    GridExt(hh, h);
  }
}
