// The game session as a value: what `useGameLogic` holds in its state
// hooks, and each of its commands as a transition on that value. The
// timers become a phase: a command that starts an animation locks the
// session and records the continuation it scheduled; `Resolve` runs it.
module GameModel {
  import opened Types
  import opened Constants
  import opened Board
  import opened Dealing
  import opened Scoring
  import opened CatalogFacts

  /**
   * A scheduled continuation, with the values its closure captured: the
   * board it was built from and the pieces it goes on with.
   */
  datatype Effect =
    | LineClear(base: Grid, rows: seq<int>, cols: seq<int>, remaining: seq<Block>)
    | Explosion(base: Grid, row: int, col: int, blocks: seq<Block>)
    | Dissolution(base: Grid, row: int, col: int, blocks: seq<Block>)

  /** `isInteractionLocked`, together with the continuation that will release it. */
  datatype Phase = Idle | Animating(effect: Effect)

  datatype State = State(
    difficulty: Difficulty,
    theme: Theme,
    grid: Grid,
    score: nat,
    highScore: nat,
    available: seq<Block>,
    gameOver: bool,
    phase: Phase,
    counts: Inventory,
    active: Option<PowerUpType>,
    nextId: int)
  {
    predicate Locked()
    {
      phase.Animating?
    }

    function EmptyClass(): string
    {
      theme.emptyCellClass
    }
  }

  /** A piece as the catalog deals it. */
  ghost predicate PieceOk(b: Block)
  {
    WellFormed(b) && Tight(b) && 1 <= b.height <= 5 && 1 <= b.width <= 5
  }

  ghost predicate PiecesOk(bs: seq<Block>)
  {
    forall i :: 0 <= i < |bs| ==> PieceOk(bs[i])
  }

  predicate LinesInRange(lines: seq<int>)
  {
    forall k :: 0 <= k < |lines| ==> 0 <= lines[k] < N
  }

  ghost predicate EffectOk(e: Effect)
  {
    match e
    case LineClear(base, rows, cols, remaining) =>
      ValidGrid(base) && LinesInRange(rows) && LinesInRange(cols) && PiecesOk(remaining) &&
      |remaining| <= 3 && DistinctIds(remaining)
    case Explosion(base, _, _, blocks) => ValidGrid(base) && PiecesOk(blocks)
    case Dissolution(base, row, col, blocks) => ValidGrid(base) && InBoard(row, col) && PiecesOk(blocks)
  }

  /** What every reachable session satisfies. */
  ghost predicate Inv(s: State)
  {
    ValidGrid(s.grid) && s.counts.NonNegative() &&
    |s.available| <= 3 && PiecesOk(s.available) && DistinctIds(s.available) &&
    (s.phase.Animating? ==> EffectOk(s.phase.effect))
  }

  // ------------------------------------------------------------ the commands

  /** `generateNewBlocks`: a fresh trio drawn from the difficulty's pool. */
  function GenerateNewBlocks(s: State, picks: seq<int>): State
    requires ValidPicks(s.difficulty, picks)
  {
    s.(available := Deal(s.difficulty, s.theme, picks, s.nextId), nextId := s.nextId + 3)
  }

  /** `resetGame`: an empty board, score 0, the initial power-ups, a fresh trio; the high score and any pending timer stay. */
  function ResetGame(s: State, picks: seq<int>): State
    requires ValidPicks(s.difficulty, picks)
  {
    GenerateNewBlocks(
      s.(grid := EmptyGrid(s.EmptyClass()), score := 0, gameOver := false, active := None,
         counts := INITIAL_POWERUP_COUNTS),
      picks)
  }

  /** The session a fresh hook reaches: the saved high score loaded, then the reset. */
  function Initial(difficulty: Difficulty, theme: Theme, savedHighScore: nat, picks: seq<int>): State
    requires ValidPicks(difficulty, picks)
  {
    var s := State(difficulty, theme, EmptyGrid(theme.emptyCellClass), 0, savedHighScore, [], false, Idle,
                   INITIAL_POWERUP_COUNTS, None, 0);
    ResetGame(s, picks)
  }

  /** `checkGameState` on the current board: refill an empty trio, then flag game over when no move exists. */
  ghost function CheckGameState(s: State, remaining: seq<Block>, picks: seq<int>): State
    requires ValidGrid(s.grid) && ValidPicks(s.difficulty, picks)
  {
    var t := if |remaining| == 0 then GenerateNewBlocks(s, picks) else s.(available := remaining);
    if MovePossible(t.available, t.grid) then t else t.(gameOver := true)
  }

  /** `placeBlock` is refused while locked and where the piece does not fit. */
  ghost predicate PlaceOk(s: State, b: Block, row: int, col: int)
    requires ValidGrid(s.grid)
  {
    !s.Locked() && CanPlace(b, row, col, s.grid)
  }

  /** The board right after the placement loop. */
  function AfterPlacement(s: State, b: Block, row: int, col: int): Grid
    requires ValidGrid(s.grid)
  {
    Edit(s.grid, Piece(b, row, col), Fill(b.color))
  }

  /**
   * `placeBlock`: fill the piece, score it, drop it from the trio; with lines
   * completed, mark them and lock until `Resolve`, otherwise go on at once.
   */
  ghost function PlaceBlock(s: State, b: Block, row: int, col: int, picks: seq<int>): State
    requires ValidGrid(s.grid) && ValidPicks(s.difficulty, picks)
  {
    if !PlaceOk(s, b, row, col) then s
    else
      var newGrid := AfterPlacement(s, b, row, col);
      var remaining := WithoutId(s.available, b.id);
      var rows, cols := FullRows(newGrid), FullCols(newGrid);
      var lines := |rows| + |cols|;
      var newScore := s.score + Points(CountShape(b.shape), lines);
      var scored := s.(score := newScore, highScore := NextHighScore(s.highScore, newScore));
      if lines > 0 then
        var clearing := Edit(newGrid, Lines(rows, cols), MarkClearing);
        scored.(grid := clearing, phase := Animating(LineClear(clearing, rows, cols, remaining)))
      else
        CheckGameState(scored.(grid := newGrid), remaining, picks)
  }

  /** The two outcomes of an accepted placement, each in terms of the board after the placement loop. */
  lemma PlaceBlockOutcome(s: State, b: Block, row: int, col: int, picks: seq<int>, rows: seq<int>, cols: seq<int>, newScore: nat)
    requires ValidGrid(s.grid) && ValidPicks(s.difficulty, picks) && PlaceOk(s, b, row, col)
    requires rows == FullRows(AfterPlacement(s, b, row, col)) && cols == FullCols(AfterPlacement(s, b, row, col))
    requires newScore == s.score + Points(CountShape(b.shape), |rows| + |cols|)
    ensures var newGrid := AfterPlacement(s, b, row, col);
      var scored := s.(score := newScore, highScore := NextHighScore(s.highScore, newScore));
      var clearing := Edit(newGrid, Lines(rows, cols), MarkClearing);
      PlaceBlock(s, b, row, col, picks) ==
        if |rows| + |cols| > 0
        then scored.(grid := clearing, phase := Animating(LineClear(clearing, rows, cols, WithoutId(s.available, b.id))))
        else CheckGameState(scored.(grid := newGrid), WithoutId(s.available, b.id), picks)
  {
  }

  /** The check after an explosion or a dissolve: the captured pieces against the new board, no refill. */
  ghost function Settle(s: State, g: Grid, blocks: seq<Block>): State
    requires ValidGrid(g)
  {
    var t := s.(grid := g, phase := Idle);
    if MovePossible(blocks, g) then t else t.(gameOver := true)
  }

  /**
   * The pending timer fires: the captured board, with the pop marks that the
   * place-pop timer had already dropped dropped again, its marked cells
   * emptied, then unlocked.
   */
  ghost function Resolve(s: State, picks: seq<int>): State
    requires s.Locked() && EffectOk(s.phase.effect) && ValidPicks(s.difficulty, picks)
  {
    var e := s.EmptyClass();
    match s.phase.effect
    case LineClear(base, rows, cols, remaining) =>
      var g := Edit(Edit(base, Whole, DropJustPlaced), Lines(rows, cols), Reset(e));
      CheckGameState(s.(grid := g, phase := Idle), remaining, picks)
    case Explosion(base, row, col, blocks) => Settle(s, Edit(Edit(base, Whole, DropJustPlaced), Area(row, col), Reset(e)), blocks)
    case Dissolution(base, row, col, blocks) => Settle(s, Edit(Edit(base, Whole, DropJustPlaced), Single(row, col), Reset(e)), blocks)
  }

  /** The continuation as written: it restores the captured board as captured, pop marks included. */
  ghost function ResolveAsWritten(s: State, picks: seq<int>): State
    requires s.Locked() && EffectOk(s.phase.effect) && ValidPicks(s.difficulty, picks)
  {
    var e := s.EmptyClass();
    match s.phase.effect
    case LineClear(base, rows, cols, remaining) =>
      CheckGameState(s.(grid := Edit(base, Lines(rows, cols), Reset(e)), phase := Idle), remaining, picks)
    case Explosion(base, row, col, blocks) => Settle(s, Edit(base, Area(row, col), Reset(e)), blocks)
    case Dissolution(base, row, col, blocks) => Settle(s, Edit(base, Single(row, col), Reset(e)), blocks)
  }

  /** `updateHint` (with the off-board guard on the boom preview). */
  ghost function UpdateHint(s: State, block: Option<Block>, row: int, col: int): State
    requires ValidGrid(s.grid)
  {
    s.(grid := Hinted(s.grid, block, row, col, s.active))
  }

  /** `activatePowerUp`: with uses left, arm the kind, or disarm it when it is already armed. */
  function ActivatePowerUp(s: State, kind: PowerUpType): State
  {
    if s.counts.Get(kind) > 0 then s.(active := if s.active == Some(kind) then None else Some(kind)) else s
  }

  /** `useReshuffle`: with a use left and unlocked, spend it on a fresh trio and check for a move. */
  ghost function UseReshuffle(s: State, picks: seq<int>): State
    requires ValidGrid(s.grid) && ValidPicks(s.difficulty, picks)
  {
    if s.counts.reshuffle > 0 && !s.Locked() then
      var t := GenerateNewBlocks(s.(counts := s.counts.Spend(Reshuffle)), picks);
      if MovePossible(t.available, t.grid) then t else t.(gameOver := true)
    else s
  }

  /** `useBoom`: with a use left, spend it, disarm, mark the 3x3 area exploding and lock. */
  function UseBoom(s: State, row: int, col: int): State
    requires ValidGrid(s.grid)
  {
    if s.counts.boom <= 0 then s
    else
      var temp := Edit(s.grid, Area(row, col), MarkExploding);
      s.(counts := s.counts.Spend(Boom), active := None, grid := temp,
         phase := Animating(Explosion(temp, row, col, s.available)))
  }

  /** `useSingleClear`: with a use left and a filled on-board target, spend it, disarm, mark it and lock. */
  function UseSingleClear(s: State, row: int, col: int): State
    requires ValidGrid(s.grid)
  {
    if s.counts.singleClear <= 0 || !(InBoard(row, col) && s.grid[row][col].filled) then s
    else
      var temp := Edit(s.grid, Single(row, col), MarkDissolving);
      s.(counts := s.counts.Spend(SingleClear), active := None, grid := temp,
         phase := Animating(Dissolution(temp, row, col, s.available)))
  }

  /** `handleGridInteraction`: a board click fires the armed boom or single clear, unless locked. */
  function HandleGridInteraction(s: State, row: int, col: int): State
    requires ValidGrid(s.grid)
  {
    if s.Locked() || s.active.None? then s
    else
      match s.active.value
      case Boom => UseBoom(s, row, col)
      case SingleClear => UseSingleClear(s, row, col)
      case Reshuffle => s
  }

  /** `flashBadPlacement`: mark the in-board occupied offsets `Bad`. */
  function FlashBadPlacement(s: State, b: Block, row: int, col: int): State
    requires ValidGrid(s.grid)
  {
    s.(grid := Edit(s.grid, Piece(b, row, col), MarkHint(Bad)))
  }

  /** The flash timer: every `Bad` hint on the board at that moment is dropped. */
  function ExpireBadFlash(s: State): State
    requires ValidGrid(s.grid)
  {
    s.(grid := Edit(s.grid, Whole, DropBadHint))
  }

  /** The place-pop timer: every just-placed mark on the board at that moment is dropped. */
  function ExpirePlacePop(s: State): State
    requires ValidGrid(s.grid)
  {
    s.(grid := Edit(s.grid, Whole, DropJustPlaced))
  }

  /** Everything a player or a timer can do to a session. */
  datatype Action =
    | Place(block: Block, row: int, col: int)
    | Finish
    | Preview(hintBlock: Option<Block>, hintRow: int, hintCol: int)
    | Activate(kind: PowerUpType)
    | Shuffle
    | Interact(targetRow: int, targetCol: int)
    | Flash(flashBlock: Block, flashRow: int, flashCol: int)
    | Unflash
    | Unpop
    | Restart

  ghost function Step(s: State, a: Action, picks: seq<int>): State
    requires Inv(s) && ValidPicks(s.difficulty, picks) && (a.Finish? ==> s.Locked())
  {
    match a
    case Place(b, row, col) => PlaceBlock(s, b, row, col, picks)
    case Finish => Resolve(s, picks)
    case Preview(b, row, col) => UpdateHint(s, b, row, col)
    case Activate(kind) => ActivatePowerUp(s, kind)
    case Shuffle => UseReshuffle(s, picks)
    case Interact(row, col) => HandleGridInteraction(s, row, col)
    case Flash(b, row, col) => FlashBadPlacement(s, b, row, col)
    case Unflash => ExpireBadFlash(s)
    case Unpop => ExpirePlacePop(s)
    case Restart => ResetGame(s, picks)
  }

  // ------------------------------------------------------- invariants kept

  /** A dealt trio satisfies the trio part of the invariant. */
  lemma DealOk(d: Difficulty, theme: Theme, picks: seq<int>, firstId: int)
    requires ValidPicks(d, picks)
    ensures var t := Deal(d, theme, picks, firstId); |t| == 3 && PiecesOk(t) && DistinctIds(t)
  {
    DealSpec(d, theme, picks, firstId);
    DealtPiecesOk(d, theme, picks, firstId);
  }

  /** Dropping the placed piece keeps the trio part of the invariant. */
  lemma RemainingOk(bs: seq<Block>, id: int)
    requires |bs| <= 3 && PiecesOk(bs) && DistinctIds(bs)
    ensures var t := WithoutId(bs, id); |t| <= 3 && PiecesOk(t) && DistinctIds(t)
  {
    WithoutIdSpec(bs, id);
    WithoutIdKeepsDistinct(bs, id);
    var t := WithoutId(bs, id);
    forall i | 0 <= i < |t|
      ensures PieceOk(t[i])
    {
      assert t[i] in t;
    }
  }

  lemma CheckGameStateKeepsInv(s: State, remaining: seq<Block>, picks: seq<int>)
    requires Inv(s) && ValidPicks(s.difficulty, picks)
    requires |remaining| <= 3 && PiecesOk(remaining) && DistinctIds(remaining)
    ensures Inv(CheckGameState(s, remaining, picks))
  {
    DealOk(s.difficulty, s.theme, picks, s.nextId);
  }

  /** An accepted or refused placement keeps the invariant. */
  lemma PlaceKeepsInv(s: State, b: Block, row: int, col: int, picks: seq<int>)
    requires Inv(s) && ValidPicks(s.difficulty, picks)
    ensures Inv(PlaceBlock(s, b, row, col, picks))
  {
    if PlaceOk(s, b, row, col) {
      var newGrid := AfterPlacement(s, b, row, col);
      var remaining := WithoutId(s.available, b.id);
      RemainingOk(s.available, b.id);
      FullLinesSpec(newGrid);
      var rows, cols := FullRows(newGrid), FullCols(newGrid);
      var newScore := s.score + Points(CountShape(b.shape), |rows| + |cols|);
      var scored := s.(score := newScore, highScore := NextHighScore(s.highScore, newScore));
      PlaceBlockOutcome(s, b, row, col, picks, rows, cols, newScore);
      if |rows| + |cols| == 0 {
        CheckGameStateKeepsInv(scored.(grid := newGrid), remaining, picks);
      } else {
        assert forall k :: 0 <= k < |rows| ==> rows[k] in rows;
        assert forall k :: 0 <= k < |cols| ==> cols[k] in cols;
        var clearing := Edit(newGrid, Lines(rows, cols), MarkClearing);
        assert EffectOk(LineClear(clearing, rows, cols, remaining));
      }
    }
  }

  /** Running the pending continuation keeps the invariant. */
  lemma ResolveKeepsInv(s: State, picks: seq<int>)
    requires Inv(s) && ValidPicks(s.difficulty, picks) && s.Locked()
    ensures Inv(Resolve(s, picks))
  {
    match s.phase.effect {
      case LineClear(base, rows, cols, remaining) =>
        var e := s.EmptyClass();
        var g := Edit(Edit(base, Whole, DropJustPlaced), Lines(rows, cols), Reset(e));
        CheckGameStateKeepsInv(s.(grid := g, phase := Idle), remaining, picks);
      case Explosion(_, _, _, _) =>
      case Dissolution(_, _, _, _) =>
    }
  }

  /** Every command and timer keeps the invariant; in particular no power-up count goes below zero. */
  lemma StepPreservesInv(s: State, a: Action, picks: seq<int>)
    requires Inv(s) && ValidPicks(s.difficulty, picks) && (a.Finish? ==> s.Locked())
    ensures Inv(Step(s, a, picks))
  {
    match a
    case Place(b, row, col) => PlaceKeepsInv(s, b, row, col, picks);
    case Finish => ResolveKeepsInv(s, picks);
    case Preview(_, _, _) =>
    case Activate(_) =>
    case Shuffle =>
      DealOk(s.difficulty, s.theme, picks, s.nextId);
    case Interact(_, _) =>
    case Flash(_, _, _) =>
    case Unflash =>
    case Unpop =>
    case Restart =>
      DealOk(s.difficulty, s.theme, picks, s.nextId);
  }

  /** A fresh session satisfies the invariant and starts as the source's initial state. */
  lemma InitialSpec(difficulty: Difficulty, theme: Theme, savedHighScore: nat, picks: seq<int>)
    requires ValidPicks(difficulty, picks)
    ensures var s := Initial(difficulty, theme, savedHighScore, picks);
      Inv(s) && s.score == 0 && s.highScore == savedHighScore && !s.gameOver && !s.Locked() &&
      s.counts == Inventory(2, 2, 3) && s.active == None && |s.available| == 3 &&
      (forall r, c :: InBoard(r, c) ==> s.grid[r][c] == EmptyCell(theme.emptyCellClass))
  {
    DealOk(difficulty, theme, picks, 0);
  }

  /** On an empty board every dealt trio has a move, so a new game never opens already lost. */
  lemma ResetLeavesAMove(s: State, picks: seq<int>)
    requires ValidPicks(s.difficulty, picks)
    ensures var t := ResetGame(s, picks); MovePossible(t.available, t.grid)
  {
    var t := ResetGame(s, picks);
    DealSpec(s.difficulty, s.theme, picks, s.nextId);
    PoolInCatalog(s.difficulty);
    var def := Pool(s.difficulty)[picks[0]];
    CatalogFitsEmptyBoard(s.nextId, s.theme, t.grid);
    assert [t.available[0]] == [MakeBlock(def, s.nextId, s.theme)];
    assert MovePossible([t.available[0]], t.grid);
    var r, c :| 0 <= r <= N - t.available[0].height && 0 <= c <= N - t.available[0].width &&
      CanPlace(t.available[0], r, c, t.grid);
  }

  // ------------------------------------------------------- score and gating

  /** Only a restart lowers the score, and the high score never falls; it rises only to a new score above it. */
  lemma ScoreMonotone(s: State, a: Action, picks: seq<int>)
    requires Inv(s) && ValidPicks(s.difficulty, picks) && (a.Finish? ==> s.Locked())
    ensures var t := Step(s, a, picks);
      (!a.Restart? ==> t.score >= s.score) &&
      t.highScore >= s.highScore &&
      (t.highScore != s.highScore ==> t.highScore == t.score && t.score > s.highScore)
  {
    match a
    case Place(b, row, col) =>
    case Finish =>
      match s.phase.effect {
        case LineClear(_, _, _, _) =>
        case Explosion(_, _, _, _) =>
        case Dissolution(_, _, _, _) =>
      }
    case Preview(_, _, _) =>
    case Activate(_) =>
    case Shuffle =>
    case Interact(_, _) =>
    case Flash(_, _, _) =>
    case Unflash =>
    case Unpop =>
    case Restart =>
  }

  /** Only a restart refills power-ups; every other step spends at most one use of one kind. */
  lemma CountsOnlyFall(s: State, a: Action, picks: seq<int>)
    requires Inv(s) && ValidPicks(s.difficulty, picks) && (a.Finish? ==> s.Locked())
    ensures var t := Step(s, a, picks);
      !a.Restart? ==>
        (forall k :: s.counts.Get(k) - 1 <= t.counts.Get(k) <= s.counts.Get(k)) &&
        (forall k, k' :: k != k' && t.counts.Get(k) < s.counts.Get(k) ==> t.counts.Get(k') == s.counts.Get(k'))
  {
    match a
    case Place(b, row, col) =>
    case Finish =>
      match s.phase.effect {
        case LineClear(_, _, _, _) =>
        case Explosion(_, _, _, _) =>
        case Dissolution(_, _, _, _) =>
      }
    case Preview(_, _, _) =>
    case Activate(_) =>
    case Shuffle =>
    case Interact(_, _) =>
    case Flash(_, _, _) =>
    case Unflash =>
    case Unpop =>
    case Restart =>
  }

  /** Only a placement adds to the score and only a restart resets it; every other step keeps it. */
  lemma ScoreOnlyFromPlacement(s: State, a: Action, picks: seq<int>)
    requires Inv(s) && ValidPicks(s.difficulty, picks) && (a.Finish? ==> s.Locked())
    ensures !a.Place? && !a.Restart? ==> Step(s, a, picks).score == s.score
  {
    match a
    case Place(_, _, _) =>
    case Finish =>
      match s.phase.effect {
        case LineClear(_, _, _, _) =>
        case Explosion(_, _, _, _) =>
        case Dissolution(_, _, _, _) =>
      }
    case Preview(_, _, _) =>
    case Activate(_) =>
    case Shuffle =>
    case Interact(_, _) =>
    case Flash(_, _, _) =>
    case Unflash =>
    case Unpop =>
    case Restart =>
  }

  /** Once the game is over it stays over until a restart. */
  lemma GameOverSticks(s: State, a: Action, picks: seq<int>)
    requires Inv(s) && ValidPicks(s.difficulty, picks) && (a.Finish? ==> s.Locked())
    ensures s.gameOver && !a.Restart? ==> Step(s, a, picks).gameOver
  {
    match a
    case Place(_, _, _) =>
    case Finish =>
      match s.phase.effect {
        case LineClear(_, _, _, _) =>
        case Explosion(_, _, _, _) =>
        case Dissolution(_, _, _, _) =>
      }
    case Preview(_, _, _) =>
    case Activate(_) =>
    case Shuffle =>
    case Interact(_, _) =>
    case Flash(_, _, _) =>
    case Unflash =>
    case Unpop =>
    case Restart =>
  }

  // ------------------------------------------------------------- placement

  /** A refused placement changes nothing. */
  lemma PlaceRefused(s: State, b: Block, row: int, col: int, picks: seq<int>)
    requires ValidGrid(s.grid) && ValidPicks(s.difficulty, picks) && !PlaceOk(s, b, row, col)
    ensures PlaceBlock(s, b, row, col, picks) == s
  {
  }

  /** An accepted placement adds the move's points and updates the high score only when it is beaten. */
  lemma PlaceScores(s: State, b: Block, row: int, col: int, picks: seq<int>)
    requires ValidGrid(s.grid) && ValidPicks(s.difficulty, picks) && PlaceOk(s, b, row, col)
    ensures var g := AfterPlacement(s, b, row, col);
      var t := PlaceBlock(s, b, row, col, picks);
      var lines := |FullRows(g)| + |FullCols(g)|;
      t.score == s.score + Points(CountShape(b.shape), lines) &&
      t.highScore == (if t.score > s.highScore then t.score else s.highScore) &&
      t.counts == s.counts && t.active == s.active
  {
  }

  /**
   * A placement that completes no line: exactly the piece's offsets are filled
   * with its colour, only the placed identity leaves the trio (refilled when it
   * empties), and the game is over exactly when the new trio has no move.
   */
  lemma PlaceWithoutClear(s: State, b: Block, row: int, col: int, picks: seq<int>)
    requires ValidGrid(s.grid) && ValidPicks(s.difficulty, picks) && PlaceOk(s, b, row, col)
    requires var g := AfterPlacement(s, b, row, col); FullRows(g) == [] && FullCols(g) == []
    ensures var t := PlaceBlock(s, b, row, col, picks);
      var remaining := WithoutId(s.available, b.id);
      !t.Locked() &&
      (forall r, c :: Occupied(b, r, c) ==> InBoard(row + r, col + c) && t.grid[row + r][col + c] == PlacedCell(b.color)) &&
      (forall r, c :: InBoard(r, c) && !Occupied(b, r - row, c - col) ==> t.grid[r][c] == s.grid[r][c]) &&
      t.available == (if remaining == [] then Deal(s.difficulty, s.theme, picks, s.nextId) else remaining) &&
      t.gameOver == (s.gameOver || !MovePossible(t.available, t.grid))
  {
    PlacementFillsExactlyThePiece(b, row, col, s.grid);
  }

  /**
   * A placement that completes lines locks with exactly those lines marked
   * clearing and records the continuation; the trio is not yet updated.
   */
  lemma PlaceLocksForClear(s: State, b: Block, row: int, col: int, picks: seq<int>)
    requires ValidGrid(s.grid) && ValidPicks(s.difficulty, picks) && PlaceOk(s, b, row, col)
    requires var g := AfterPlacement(s, b, row, col); FullRows(g) != [] || FullCols(g) != []
    ensures var g := AfterPlacement(s, b, row, col);
      var t := PlaceBlock(s, b, row, col, picks);
      ValidGrid(t.grid) && t.Locked() && t.available == s.available && t.gameOver == s.gameOver &&
      t.phase.effect == LineClear(t.grid, FullRows(g), FullCols(g), WithoutId(s.available, b.id)) &&
      LinesInRange(FullRows(g)) && LinesInRange(FullCols(g)) &&
      (forall r, c :: InBoard(r, c) ==>
        t.grid[r][c] == if RowFull(g, r) || ColFull(g, c) then g[r][c].(clearing := true) else g[r][c])
  {
    var g := AfterPlacement(s, b, row, col);
    var rows, cols := FullRows(g), FullCols(g);
    var newScore := s.score + Points(CountShape(b.shape), |rows| + |cols|);
    PlaceBlockOutcome(s, b, row, col, picks, rows, cols, newScore);
    var clearing := Edit(g, Lines(rows, cols), MarkClearing);
    var scored := s.(score := newScore, highScore := NextHighScore(s.highScore, newScore));
    var t := PlaceBlock(s, b, row, col, picks);
    assert t == scored.(grid := clearing, phase := Animating(LineClear(clearing, rows, cols, WithoutId(s.available, b.id))));
    EditFullLines(g, MarkClearing);
    FullLinesSpec(g);
    assert forall k :: 0 <= k < |rows| ==> rows[k] in rows;
    assert forall k :: 0 <= k < |cols| ==> cols[k] in cols;
  }

  /**
   * When the line-clear timer fires, every cell of a completed row or column
   * is the empty cell, every other cell is as placed without its pop mark, no
   * full line is left,
   * the trio loses the placed piece (refilled when empty) and game over is set
   * iff no move is left.
   */
  lemma PlaceThenClear(s: State, b: Block, row: int, col: int, picks: seq<int>, picks2: seq<int>)
    requires Inv(s) && ValidPicks(s.difficulty, picks) && ValidPicks(s.difficulty, picks2)
    requires PlaceOk(s, b, row, col)
    requires var g := AfterPlacement(s, b, row, col); FullRows(g) != [] || FullCols(g) != []
    ensures var g := AfterPlacement(s, b, row, col);
      var remaining := WithoutId(s.available, b.id);
      var t := PlaceBlock(s, b, row, col, picks);
      t.Locked() && EffectOk(t.phase.effect) &&
      var u := Resolve(t, picks2);
      !u.Locked() && u.score == t.score && u.grid == Edit(ClearLines(g, s.EmptyClass()), Whole, DropJustPlaced) &&
      (forall r, c :: InBoard(r, c) ==>
        u.grid[r][c] == if RowFull(g, r) || ColFull(g, c) then EmptyCell(s.EmptyClass()) else g[r][c].(justPlaced := false)) &&
      FullRows(u.grid) == [] && FullCols(u.grid) == [] &&
      u.available == (if remaining == [] then Deal(s.difficulty, s.theme, picks2, s.nextId) else remaining) &&
      u.gameOver == (s.gameOver || !MovePossible(u.available, u.grid))
  {
    var g := AfterPlacement(s, b, row, col);
    var e := s.EmptyClass();
    var rows, cols := FullRows(g), FullCols(g);
    PlaceLocksForClear(s, b, row, col, picks);
    RemainingOk(s.available, b.id);
    var t := PlaceBlock(s, b, row, col, picks);
    ClearAfterRestore(g, e);
    var restored: Grid := Edit(Edit(t.grid, Whole, DropJustPlaced), Lines(rows, cols), Reset(e));
    assert Resolve(t, picks2) == CheckGameState(t.(grid := restored, phase := Idle), WithoutId(s.available, b.id), picks2);
  }

  /** With distinct identities, placing the k-th piece of the trio removes that piece and only it. */
  lemma PlacedPieceLeavesTrio(s: State, k: int)
    requires DistinctIds(s.available) && 0 <= k < |s.available|
    ensures WithoutId(s.available, s.available[k].id) == s.available[..k] + s.available[k + 1..]
  {
    WithoutIdDropsOne(s.available, k);
  }

  /** `checkGameState`: an empty trio is replaced by exactly three fresh pieces, and game over is set iff no move is left. */
  lemma CheckGameStateSpec(s: State, remaining: seq<Block>, picks: seq<int>)
    requires ValidGrid(s.grid) && ValidPicks(s.difficulty, picks) && PiecesOk(remaining)
    ensures var t := CheckGameState(s, remaining, picks);
      t.grid == s.grid && t.score == s.score && t.phase == s.phase &&
      (|remaining| == 0 ==> |t.available| == 3 && DistinctIds(t.available) && t.nextId == s.nextId + 3) &&
      (|remaining| > 0 ==> t.available == remaining) &&
      t.gameOver == (s.gameOver || !exists i, r, c :: 0 <= i < |t.available| && CanPlace(t.available[i], r, c, t.grid))
  {
    DealOk(s.difficulty, s.theme, picks, s.nextId);
    var t := CheckGameState(s, remaining, picks);
    MovePossibleIffSomeAnchor(t.available, t.grid);
  }

  // -------------------------------------------------------------- power-ups

  /**
   * Arming toggles only with uses left. Pressing the same power-up twice
   * restores the session, unless another kind was armed (it is then replaced
   * and the second press disarms).
   */
  lemma ActivateToggles(s: State, kind: PowerUpType)
    ensures var t := ActivatePowerUp(s, kind);
      (s.counts.Get(kind) <= 0 ==> t == s) &&
      (s.counts.Get(kind) > 0 ==>
        t == s.(active := if s.active == Some(kind) then None else Some(kind)) &&
        ActivatePowerUp(t, kind) == (if s.active == None || s.active == Some(kind) then s else s.(active := None)))
  {
  }

  /** A reshuffle acts only with a use left and unlocked; it spends one use and deals three pieces. */
  lemma ReshuffleSpec(s: State, picks: seq<int>)
    requires Inv(s) && ValidPicks(s.difficulty, picks)
    ensures var t := UseReshuffle(s, picks);
      (s.counts.reshuffle > 0 && !s.Locked() ==>
        t.counts == s.counts.Spend(Reshuffle) && t.available == Deal(s.difficulty, s.theme, picks, s.nextId) &&
        |t.available| == 3 && t.grid == s.grid && t.active == s.active &&
        t.gameOver == (s.gameOver || !MovePossible(t.available, s.grid))) &&
      (s.counts.reshuffle <= 0 || s.Locked() ==> t == s)
  {
    DealOk(s.difficulty, s.theme, picks, s.nextId);
  }

  /**
   * A boom with a use left spends it, disarms and locks; when its timer fires
   * the in-board cells of the 3x3 area are the empty cell, the rest of the
   * board is as it was (without pop marks), the lock is released, and game
   * over is set iff none of the captured pieces fits.
   */
  lemma BoomThenSettle(s: State, row: int, col: int, picks: seq<int>)
    requires ValidGrid(s.grid) && ValidPicks(s.difficulty, picks) && s.counts.boom > 0
    ensures var t := UseBoom(s, row, col);
      t.counts == s.counts.Spend(Boom) && t.active == None && t.Locked() && EffectOk(t.phase.effect) == PiecesOk(s.available) &&
      (PiecesOk(s.available) ==>
        var u := Resolve(t, picks);
        !u.Locked() && u.counts == t.counts && u.available == s.available &&
        (forall r, c :: InBoard(r, c) ==>
          u.grid[r][c] == if InRegion(Area(row, col), r, c) then EmptyCell(s.EmptyClass()) else s.grid[r][c].(justPlaced := false)) &&
        u.score == s.score && u.gameOver == (s.gameOver || !MovePossible(s.available, u.grid)))
  {
    RestoreExact(s.grid, Area(row, col), MarkExploding, s.EmptyClass());
  }

  /** At a corner the boom reaches exactly four cells. */
  lemma CornerBoomReachesFour()
    ensures forall r, c :: InBoard(r, c) && InRegion(Area(0, 0), r, c) <==> 0 <= r <= 1 && 0 <= c <= 1
  {
  }

  /**
   * A single clear acts only with a use left on a filled on-board cell; when
   * its timer fires that cell alone is the empty cell, the trio and score are
   * kept, and game over is set iff none of the captured pieces fits.
   */
  lemma SingleClearThenSettle(s: State, row: int, col: int, picks: seq<int>)
    requires ValidGrid(s.grid) && ValidPicks(s.difficulty, picks)
    ensures var t := UseSingleClear(s, row, col);
      (s.counts.singleClear <= 0 || !InBoard(row, col) || !s.grid[row][col].filled ==> t == s) &&
      (s.counts.singleClear > 0 && InBoard(row, col) && s.grid[row][col].filled && PiecesOk(s.available) ==>
        t.counts == s.counts.Spend(SingleClear) && t.active == None && t.Locked() && EffectOk(t.phase.effect) &&
        var u := Resolve(t, picks);
        !u.Locked() && u.counts == t.counts && u.available == s.available && u.score == s.score &&
        (forall r, c :: InBoard(r, c) ==>
          u.grid[r][c] == if r == row && c == col then EmptyCell(s.EmptyClass()) else s.grid[r][c].(justPlaced := false)) &&
        u.gameOver == (s.gameOver || !MovePossible(s.available, u.grid)))
  {
    RestoreExact(s.grid, Single(row, col), MarkDissolving, s.EmptyClass());
  }

  /** A board click does nothing while locked or with nothing armed (nor with reshuffle armed). */
  lemma InteractionGated(s: State, row: int, col: int)
    requires ValidGrid(s.grid)
    ensures s.Locked() || s.active == None || s.active == Some(Reshuffle) ==> HandleGridInteraction(s, row, col) == s
  {
  }

  /**
   * A board click changes the session exactly when it is unlocked and fires:
   * an armed boom with a use left, or an armed single clear with a use left
   * on a filled on-board cell.
   */
  lemma InteractionActs(s: State, row: int, col: int)
    requires ValidGrid(s.grid)
    ensures HandleGridInteraction(s, row, col) != s <==>
      !s.Locked() &&
      ((s.active == Some(Boom) && s.counts.boom > 0) ||
       (s.active == Some(SingleClear) && s.counts.singleClear > 0 && InBoard(row, col) && s.grid[row][col].filled))
  {
    if !s.Locked() && s.active == Some(Boom) && s.counts.boom > 0 {
      assert HandleGridInteraction(s, row, col).counts.boom == s.counts.boom - 1;
    } else if !s.Locked() && s.active == Some(SingleClear) && s.counts.singleClear > 0 &&
              InBoard(row, col) && s.grid[row][col].filled {
      assert HandleGridInteraction(s, row, col).counts.singleClear == s.counts.singleClear - 1;
    }
  }

  // --------------------------------------------------------------- pop marks

  /** A piece cell off the completed lines is captured by the line-clear continuation freshly placed. */
  lemma PlacedCellOutsideLines(s: State, b: Block, row: int, col: int, picks: seq<int>, r0: int, c0: int)
    requires ValidGrid(s.grid) && ValidPicks(s.difficulty, picks)
    requires PlaceOk(s, b, row, col) && Occupied(b, r0, c0) && InBoard(row + r0, col + c0)
    requires var g := AfterPlacement(s, b, row, col);
      (FullRows(g) != [] || FullCols(g) != []) && !RowFull(g, row + r0) && !ColFull(g, col + c0)
    ensures var p := PlaceBlock(s, b, row, col, picks);
      ValidGrid(p.grid) && p.Locked() && p.phase.effect.LineClear? &&
      p.phase.effect.base == p.grid && p.phase.effect.remaining == WithoutId(s.available, b.id) &&
      LinesInRange(p.phase.effect.rows) && LinesInRange(p.phase.effect.cols) &&
      p.grid[row + r0][col + c0] == PlacedCell(b.color) &&
      !InRegion(Lines(p.phase.effect.rows, p.phase.effect.cols), row + r0, col + c0)
  {
    var g := AfterPlacement(s, b, row, col);
    var rows, cols := FullRows(g), FullCols(g);
    var p := PlaceBlock(s, b, row, col, picks);
    PlaceLocksForClear(s, b, row, col, picks);
    assert p.grid[row + r0][col + c0] == g[row + r0][col + c0];
    assert g[row + r0][col + c0] == PlacedCell(b.color) by {
      assert InRegion(Piece(b, row, col), row + r0, col + c0);
    }
    FullLinesSpec(g);
    assert row + r0 !in rows && col + c0 !in cols;
  }

  /** As written, a pop mark on the captured board off the cleared lines survives the place-pop timer's drop. */
  lemma CapturedPopMarkReturns(p: State, picks: seq<int>, r: int, c: int)
    requires ValidGrid(p.grid) && p.Locked() && EffectOk(p.phase.effect) && p.phase.effect.LineClear?
    requires ValidPicks(p.difficulty, picks) && p.phase.effect.base == p.grid && InBoard(r, c)
    requires p.grid[r][c].justPlaced && !InRegion(Lines(p.phase.effect.rows, p.phase.effect.cols), r, c)
    ensures var t := ExpirePlacePop(p);
      t.Locked() && EffectOk(t.phase.effect) && !t.grid[r][c].justPlaced &&
      var u := ResolveAsWritten(t, picks);
      ValidGrid(u.grid) && u.grid[r][c].justPlaced
  {
    PopExpiryDrops(p);
    ClearedAsCaptured(ExpirePlacePop(p), picks);
  }

  /**
   * As written, the line-clear continuation brings the pop mark back: the
   * place-pop timer fires first and drops it, then the continuation restores
   * the board captured at placement, where every cell of the piece outside the
   * cleared lines is still marked just placed.
   */
  lemma PopMarkComesBack(s: State, b: Block, row: int, col: int, picks: seq<int>, picks2: seq<int>, r0: int, c0: int)
    requires Inv(s) && ValidPicks(s.difficulty, picks) && ValidPicks(s.difficulty, picks2)
    requires PlaceOk(s, b, row, col) && Occupied(b, r0, c0) && InBoard(row + r0, col + c0)
    requires var g := AfterPlacement(s, b, row, col);
      (FullRows(g) != [] || FullCols(g) != []) && !RowFull(g, row + r0) && !ColFull(g, col + c0)
    ensures var p := PlaceBlock(s, b, row, col, picks);
      ValidGrid(p.grid) && p.grid[row + r0][col + c0].justPlaced &&
      var t := ExpirePlacePop(p);
      t.Locked() && EffectOk(t.phase.effect) && !t.grid[row + r0][col + c0].justPlaced &&
      var u := ResolveAsWritten(t, picks2);
      ValidGrid(u.grid) && u.grid[row + r0][col + c0].justPlaced
  {
    var p := PlaceBlock(s, b, row, col, picks);
    PlacedCellOutsideLines(s, b, row, col, picks, r0, c0);
    RemainingOk(s.available, b.id);
    CapturedPopMarkReturns(p, picks2, row + r0, col + c0);
  }

  /** The place-pop timer drops exactly the pop marks and touches nothing else, the pending continuation included. */
  lemma PopExpiryDrops(s: State)
    requires ValidGrid(s.grid)
    ensures var t := ExpirePlacePop(s);
      t == s.(grid := t.grid) && ValidGrid(t.grid) &&
      forall r, c :: InBoard(r, c) ==> t.grid[r][c] == s.grid[r][c].(justPlaced := false)
  {
  }

  /** As written, the line-clear continuation's board is the captured board with the lines emptied. */
  lemma ClearedAsCaptured(s: State, picks: seq<int>)
    requires s.Locked() && EffectOk(s.phase.effect) && ValidPicks(s.difficulty, picks) && s.phase.effect.LineClear?
    ensures var u := ResolveAsWritten(s, picks);
      ValidGrid(u.grid) && u.grid == Edit(s.phase.effect.base, Lines(s.phase.effect.rows, s.phase.effect.cols), Reset(s.EmptyClass()))
  {
  }

  /** With the correction, no cell is marked just placed once a continuation has run. */
  lemma NoPopMarkAfterResolve(s: State, picks: seq<int>)
    requires s.Locked() && EffectOk(s.phase.effect) && ValidPicks(s.difficulty, picks)
    ensures var u := Resolve(s, picks);
      ValidGrid(u.grid) && forall r, c :: InBoard(r, c) ==> !u.grid[r][c].justPlaced
  {
    var e := s.EmptyClass();
    match s.phase.effect {
      case LineClear(base, rows, cols, remaining) =>
        var g := Edit(Edit(base, Whole, DropJustPlaced), Lines(rows, cols), Reset(e));
        RestoredHasNoPopMark(base, Lines(rows, cols), e);
        assert Resolve(s, picks) == CheckGameState(s.(grid := g, phase := Idle), remaining, picks);
      case Explosion(base, row, col, _) =>
        RestoredHasNoPopMark(base, Area(row, col), e);
      case Dissolution(base, row, col, _) =>
        RestoredHasNoPopMark(base, Single(row, col), e);
    }
  }

  /** The correction changes nothing but the pop marks: cells, trio, score and game over are as written. */
  lemma ResolveFixIsMinimal(s: State, picks: seq<int>)
    requires s.Locked() && EffectOk(s.phase.effect) && ValidPicks(s.difficulty, picks)
    ensures var w := ResolveAsWritten(s, picks);
      ValidGrid(w.grid) && Resolve(s, picks) == w.(grid := Edit(w.grid, Whole, DropJustPlaced))
  {
    var e := s.EmptyClass();
    var (base, reg, bs) :=
      match s.phase.effect
      case LineClear(base, rows, cols, remaining) => (base, Lines(rows, cols), remaining)
      case Explosion(base, row, col, blocks) => (base, Area(row, col), blocks)
      case Dissolution(base, row, col, blocks) => (base, Single(row, col), blocks);
    var fixed: Grid := Edit(Edit(base, Whole, DropJustPlaced), reg, Reset(e));
    var written: Grid := Edit(base, reg, Reset(e));
    GridExt(fixed, Edit(written, Whole, DropJustPlaced));
    CosmeticEditKeepsContents(written, Whole, DropJustPlaced);
    if s.phase.effect.LineClear? {
      var t := if |bs| == 0 then GenerateNewBlocks(s, picks) else s.(available := bs);
      MovePossibleReadsOnlyFill(t.available, written, fixed);
    } else {
      MovePossibleReadsOnlyFill(bs, written, fixed);
    }
  }

  // ---------------------------------------------------------------- previews

  /** A preview changes only hints, and recomputing it changes nothing. */
  lemma PreviewSpec(s: State, block: Option<Block>, row: int, col: int)
    requires ValidGrid(s.grid)
    ensures var t := UpdateHint(s, block, row, col);
      SameContents(s.grid, t.grid) && UpdateHint(t, block, row, col) == t &&
      t.score == s.score && t.available == s.available && t.phase == s.phase
  {
    HintedKeepsCells(s.grid, block, row, col, s.active);
    HintedIdempotent(s.grid, block, row, col, s.active);
  }

  /** A bad-placement flash and its expiry touch only hints: the cell contents and lines are kept. */
  lemma FlashSpec(s: State, b: Block, row: int, col: int)
    requires ValidGrid(s.grid)
    ensures var t := FlashBadPlacement(s, b, row, col);
      SameContents(s.grid, t.grid) && SameContents(t.grid, ExpireBadFlash(t).grid) &&
      (forall r, c :: InBoard(r, c) ==> ExpireBadFlash(t).grid[r][c].hint != Bad)
  {
    CosmeticEditKeepsContents(s.grid, Piece(b, row, col), MarkHint(Bad));
    CosmeticEditKeepsContents(Edit(s.grid, Piece(b, row, col), MarkHint(Bad)), Whole, DropBadHint);
  }
}
