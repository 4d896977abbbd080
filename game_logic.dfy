// The session object: the hook's state as fields, the board as a 10x10
// array, and each command as a method that updates them in place. Every
// method is proved to move the session exactly as the matching transition
// of GameModel says, and to keep the invariant.
module GameLogic {
  import opened Types
  import opened Constants
  import opened Board
  import opened Dealing
  import opened Scoring
  import opened GridOps
  import opened GameModel

  class Session {
    const difficulty: Difficulty
    const theme: Theme
    const grid: array2<Cell>
    var score: nat
    var highScore: nat
    var available: seq<Block>
    var gameOver: bool
    var phase: Phase
    var counts: Inventory
    var active: Option<PowerUpType>
    var nextId: int

    /** The session as a value. */
    ghost function Model(): State
      reads this, grid
      requires Square(grid)
    {
      State(difficulty, theme, Snapshot(grid), score, highScore, available, gameOver, phase, counts, active, nextId)
    }

    ghost predicate Valid()
      reads this, grid
    {
      Square(grid) && Inv(Model())
    }

    /** A new hook: an empty board, the saved high score, then the reset effect. */
    constructor (difficulty: Difficulty, theme: Theme, savedHighScore: nat, picks: seq<int>)
      requires ValidPicks(difficulty, picks)
      ensures Valid() && fresh(grid)
      ensures Model() == Initial(difficulty, theme, savedHighScore, picks)
    {
      this.difficulty := difficulty;
      this.theme := theme;
      grid := new Cell[N, N]((r, c) => EmptyCell(theme.emptyCellClass));
      score := 0;
      highScore := savedHighScore;
      available := [];
      gameOver := false;
      phase := Idle;
      counts := INITIAL_POWERUP_COUNTS;
      active := None;
      nextId := 0;
      new;
      ResetGame(picks);
    }

    /** `generateNewBlocks`: three draws from the pool, each dealt with a fresh identity. */
    method GenerateNewBlocks(picks: seq<int>) returns (blocks: seq<Block>)
      requires Square(grid) && ValidPicks(difficulty, picks)
      modifies this
      ensures Model() == GameModel.GenerateNewBlocks(old(Model()), picks)
      ensures blocks == available
    {
      var pool := Pool(difficulty);
      blocks := [];
      for i := 0 to 3
        invariant blocks == Deal(difficulty, theme, picks, nextId)[..i]
      {
        blocks := blocks + [MakeBlock(pool[picks[i]], nextId + i, theme)];
      }
      available := blocks;
      nextId := nextId + 3;
    }

    /** `resetGame`. */
    method ResetGame(picks: seq<int>)
      requires Valid() && ValidPicks(difficulty, picks)
      modifies this, grid
      ensures Valid()
      ensures Model() == GameModel.ResetGame(old(Model()), picks)
    {
      ghost var s := Model();
      Load(grid, EmptyGrid(theme.emptyCellClass));
      score := 0;
      gameOver := false;
      var _ := GenerateNewBlocks(picks);
      active := None;
      counts := INITIAL_POWERUP_COUNTS;
      StepPreservesInv(s, Restart, picks);
    }

    /** `checkGameState` on the board as it now is. */
    method CheckGameState(remaining: seq<Block>, picks: seq<int>)
      requires Valid() && ValidPicks(difficulty, picks)
      requires |remaining| <= 3 && PiecesOk(remaining) && DistinctIds(remaining)
      modifies this
      ensures Valid()
      ensures Model() == GameModel.CheckGameState(old(Model()), remaining, picks)
    {
      ghost var s := Model();
      var nextBlocks := remaining;
      if |remaining| == 0 {
        nextBlocks := GenerateNewBlocks(picks);
        DealOk(difficulty, theme, picks, s.nextId);
      } else {
        available := remaining;
      }
      var movable := IsMovePossible(nextBlocks, grid);
      if !movable {
        gameOver := true;
      }
      CheckGameStateKeepsInv(s, remaining, picks);
    }

    /** `placeBlock`: false, with nothing changed, while locked or where the piece does not fit. */
    method PlaceBlock(b: Block, row: int, col: int, picks: seq<int>) returns (ok: bool)
      requires Valid() && ValidPicks(difficulty, picks) && WellFormed(b)
      modifies this, grid
      ensures Valid()
      ensures ok == PlaceOk(old(Model()), b, row, col)
      ensures Model() == GameModel.PlaceBlock(old(Model()), b, row, col, picks)
    {
      if phase.Animating? {
        PlaceRefused(Model(), b, row, col, picks);
        return false;
      }
      ok := CanPlaceBlock(b, row, col, grid);
      if !ok {
        PlaceRefused(Model(), b, row, col, picks);
        return;
      }
      ghost var s := Model();
      var rows, cols, remaining := FillAndScore(b, row, col);
      ghost var newGrid := AfterPlacement(s, b, row, col);
      ghost var newScore: nat := score;
      assert highScore == NextHighScore(s.highScore, newScore);
      ghost var scored := s.(score := newScore, highScore := NextHighScore(s.highScore, newScore));
      assert Model() == scored.(grid := newGrid);
      PlaceBlockOutcome(s, b, row, col, picks, rows, cols, newScore);
      RemainingOk(s.available, b.id);
      ghost var t := GameModel.PlaceBlock(s, b, row, col, picks);
      if |rows| + |cols| > 0 {
        FullLinesSpec(newGrid);
        assert forall k :: 0 <= k < |rows| ==> rows[k] in rows;
        assert forall k :: 0 <= k < |cols| ==> cols[k] in cols;
        StartLineClear(rows, cols, remaining);
        assert Model() == t;
      } else {
        assert t == GameModel.CheckGameState(scored.(grid := newGrid), remaining, picks);
        CheckGameState(remaining, picks);
      }
      PlaceKeepsInv(s, b, row, col, picks);
    }

    /** The placement loop, the trio filter, the line scan and the score update of `placeBlock`. */
    method FillAndScore(b: Block, row: int, col: int) returns (rows: seq<int>, cols: seq<int>, remaining: seq<Block>)
      requires Valid() && WellFormed(b) && PlaceOk(Model(), b, row, col)
      modifies this, grid
      ensures Valid()
      ensures var s := old(Model());
        var newGrid := AfterPlacement(s, b, row, col);
        var newScore := s.score + Points(CountShape(b.shape), |rows| + |cols|);
        rows == FullRows(newGrid) && cols == FullCols(newGrid) && remaining == WithoutId(s.available, b.id) &&
        Model() == s.(grid := newGrid, score := newScore, highScore := NextHighScore(s.highScore, newScore))
    {
      ghost var s := Model();
      var placed := PlacePiece(grid, b, row, col);
      ghost var newGrid: Grid := Snapshot(grid);
      assert newGrid == AfterPlacement(s, b, row, col);
      remaining := WithoutId(available, b.id);
      rows, cols := CheckForClears(grid);
      var newScore := score + Points(placed, |rows| + |cols|);
      score := newScore;
      if newScore > highScore {
        highScore := newScore;
      }
      assert highScore == NextHighScore(s.highScore, newScore);
      assert Model() == s.(grid := newGrid, score := newScore, highScore := NextHighScore(s.highScore, newScore));
    }

    /** The clearing marks of `placeBlock`: lock, mark the completed lines, and schedule their clear. */
    method StartLineClear(rows: seq<int>, cols: seq<int>, remaining: seq<Block>)
      requires Valid() && !phase.Animating? && LinesInRange(rows) && LinesInRange(cols)
      requires |remaining| <= 3 && PiecesOk(remaining) && DistinctIds(remaining)
      modifies this, grid
      ensures Valid()
      ensures var clearing := Edit(old(Model()).grid, Lines(rows, cols), MarkClearing);
        Model() == old(Model()).(grid := clearing, phase := Animating(LineClear(clearing, rows, cols, remaining)))
    {
      EditLines(grid, rows, cols, MarkClearing);
      var clearingGrid := CopyGrid(grid);
      phase := Animating(LineClear(clearingGrid, rows, cols, remaining));
    }

    /** The pending timer fires: the captured board without pop marks, its marked cells emptied, then the follow-up check. */
    method Resolve(picks: seq<int>)
      requires Valid() && phase.Animating? && ValidPicks(difficulty, picks)
      modifies this, grid
      ensures Valid()
      ensures Model() == GameModel.Resolve(old(Model()), picks)
    {
      ghost var s := Model();
      var e := theme.emptyCellClass;
      match phase.effect {
        case LineClear(base, rows, cols, remaining) =>
          Load(grid, base);
          EditAll(grid, DropJustPlaced);
          EditLines(grid, rows, cols, Reset(e));
          phase := Idle;
          CheckGameState(remaining, picks);
        case Explosion(base, row, col, blocks) =>
          Load(grid, base);
          EditAll(grid, DropJustPlaced);
          EditArea(grid, row, col, Reset(e));
          phase := Idle;
          var movable := IsMovePossible(blocks, grid);
          if !movable {
            gameOver := true;
          }
        case Dissolution(base, row, col, blocks) =>
          Load(grid, base);
          EditAll(grid, DropJustPlaced);
          EditCell(grid, row, col, Reset(e));
          phase := Idle;
          var movable := IsMovePossible(blocks, grid);
          if !movable {
            gameOver := true;
          }
      }
      ResolveKeepsInv(s, picks);
    }

    /** `updateHint`, with the boom preview confined to on-board targets. */
    method UpdateHint(block: Option<Block>, row: int, col: int)
      requires Valid() && (block.Some? ==> WellFormed(block.value))
      modifies grid
      ensures Valid()
      ensures Model() == GameModel.UpdateHint(old(Model()), block, row, col)
    {
      ghost var s := Model();
      EditAll(grid, DropHint);
      if block.Some? && row >= 0 && col >= 0 {
        var isValid := CanPlaceBlock(block.value, row, col, grid);
        EditPiece(grid, block.value, row, col, MarkHint(if isValid then Good else Bad));
      } else if active == Some(Boom) && InBoard(row, col) {
        EditArea(grid, row, col, MarkHint(Good));
      } else if active == Some(SingleClear) && InBoard(row, col) && grid[row, col].filled {
        EditCell(grid, row, col, MarkHint(Good));
      }
    }

    /** `activatePowerUp`. */
    method ActivatePowerUp(kind: PowerUpType)
      requires Valid()
      modifies this
      ensures Valid()
      ensures Model() == GameModel.ActivatePowerUp(old(Model()), kind)
    {
      if counts.Get(kind) > 0 {
        active := if active == Some(kind) then None else Some(kind);
      }
    }

    /** `useReshuffle`. */
    method UseReshuffle(picks: seq<int>)
      requires Valid() && ValidPicks(difficulty, picks)
      modifies this
      ensures Valid()
      ensures Model() == GameModel.UseReshuffle(old(Model()), picks)
    {
      ghost var s := Model();
      if counts.reshuffle > 0 && !phase.Animating? {
        counts := counts.Spend(Reshuffle);
        var newBlocks := GenerateNewBlocks(picks);
        DealOk(difficulty, theme, picks, s.nextId);
        var movable := IsMovePossible(newBlocks, grid);
        if !movable {
          gameOver := true;
        }
      }
      StepPreservesInv(s, Shuffle, picks);
    }

    /** `useBoom`: spend a use, disarm, mark the area exploding and lock until `Resolve`. */
    method UseBoom(row: int, col: int)
      requires Valid()
      modifies this, grid
      ensures Valid()
      ensures Model() == GameModel.UseBoom(old(Model()), row, col)
    {
      if counts.boom <= 0 {
        return;
      }
      counts := counts.Spend(Boom);
      active := None;
      EditArea(grid, row, col, MarkExploding);
      var tempGrid := CopyGrid(grid);
      phase := Animating(Explosion(tempGrid, row, col, available));
    }

    /** `useSingleClear`: on a filled on-board cell, spend a use, disarm, mark it dissolving and lock. */
    method UseSingleClear(row: int, col: int)
      requires Valid()
      modifies this, grid
      ensures Valid()
      ensures Model() == GameModel.UseSingleClear(old(Model()), row, col)
    {
      if counts.singleClear <= 0 || !(InBoard(row, col) && grid[row, col].filled) {
        return;
      }
      counts := counts.Spend(SingleClear);
      active := None;
      EditCell(grid, row, col, MarkDissolving);
      var tempGrid := CopyGrid(grid);
      phase := Animating(Dissolution(tempGrid, row, col, available));
    }

    /** `handleGridInteraction`. */
    method HandleGridInteraction(row: int, col: int)
      requires Valid()
      modifies this, grid
      ensures Valid()
      ensures Model() == GameModel.HandleGridInteraction(old(Model()), row, col)
    {
      if phase.Animating? || active.None? {
        return;
      }
      match active.value {
        case Boom => UseBoom(row, col);
        case SingleClear => UseSingleClear(row, col);
        case Reshuffle =>
      }
    }

    /** `flashBadPlacement`. */
    method FlashBadPlacement(b: Block, row: int, col: int)
      requires Valid() && WellFormed(b)
      modifies grid
      ensures Valid()
      ensures Model() == GameModel.FlashBadPlacement(old(Model()), b, row, col)
    {
      EditPiece(grid, b, row, col, MarkHint(Bad));
    }

    /** The flash timer. */
    method ExpireBadFlash()
      requires Valid()
      modifies grid
      ensures Valid()
      ensures Model() == GameModel.ExpireBadFlash(old(Model()))
    {
      EditAll(grid, DropBadHint);
    }

    /** The place-pop timer. */
    method ExpirePlacePop()
      requires Valid()
      modifies grid
      ensures Valid()
      ensures Model() == GameModel.ExpirePlacePop(old(Model()))
    {
      EditAll(grid, DropJustPlaced);
    }
  }
}
