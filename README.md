# Block Blast game engine, modelled and verified in Dafny

This project models the engine of a Block Blast style puzzle. The engine is
the `useGameLogic` hook and the static data it reads.

- **Board.** A 10x10 grid of cells. Each cell carries a filled flag, an opaque
  colour token, a preview hint (none, good or bad) and four animation flags
  (clearing, just placed, exploding, dissolving).
- **Trio.** The player is offered three pieces. Each piece is dealt from a
  catalog chosen by difficulty: easy uses the simple tier; medium adds the
  medium tier; hard adds the complex tier too.
- **Placing a piece.** This is refused while the session is locked, and
  wherever an occupied offset of the piece would leave the board or land on a
  filled cell. Otherwise the piece's cells are filled with its colour.
- **Line clears.** Any row or column that becomes full is marked clearing and
  the session locks. When the animation timer fires, those lines become empty
  cells.
- **Score.** A move scores one point per placed cell, plus
  `100·L² + 50·(L−1)` when it completes `L > 0` lines. The high score rises
  only when the new score beats it.
- **After every move.** An empty trio is refilled, and the game is over when
  no piece of the trio fits anywhere.
- **Power-ups.** Three kinds, with limited uses:
  - *Boom* empties a 3x3 area.
  - *Reshuffle* deals a new trio.
  - *Single clear* empties one filled cell.
- **Hints.** Hovering previews a placement by marking cells good or bad. A
  failed drop flashes the piece's cells bad.

## Layers

The model has three layers.

- **The board as a value** (`Board`).
  - `Grid = seq<seq<Cell>>`.
  - Every in-place change a command makes to the board is one primitive,
    `Edit(g, region, op)`. Three steps instead replace the whole board: a
    reset installs `EmptyGrid`, a finished animation restores the board its
    continuation captured, and `GridOps.Load` writes such a board back.
  - The queries `CanPlace`, `FullRows`/`FullCols` and `MovePossible` are
    defined on it, with their lemmas.
- **The board as the engine holds it** (`GridOps`).
  - An `array2<Cell>`, read and rewritten by the nested loops of the source.
  - Each loop is proved against the value layer through `Snapshot(a)`.
  - The read-only loops `CanPlaceBlock`, `CheckForClears` and
    `IsMovePossible` are exactly the hook's queries.
- **The session.**
  - `GameModel` gives each hook command as a transition on a `State` value.
  - `GameLogic.Session` is a class with the hook's state as fields and the board as the array.
  - Each method of the class is proved to move the session exactly as the
    transition says. It also keeps the invariant `Inv`:
    - the board is 10x10;
    - no power-up count is negative;
    - at most three pieces, each well formed and at most 5x5, with distinct ids;
    - a pending continuation is well formed.

## Modelling decisions

- **Timers.**
  - The source's `setTimeout` continuations are a phase: `Idle`, or
    `Animating(effect)`, where `isInteractionLocked` is `phase.Animating?`.
  - The effect records what the closure captured: the board it was built from,
    the lines or target, and the pieces it goes on with.
  - `Resolve` runs the continuation. It rebuilds the board from the captured
    copy, as the source does, so hints drawn during the animation are dropped.
    It also drops the pop marks on that copy, which the source does not (see
    "Findings"); `ResolveAsWritten` is the continuation as written.
- **The short timers.** The place-pop and bad-flash timers do not lock. They
  are the separate commands `ExpirePlacePop` and `ExpireBadFlash`, which act on
  the board as it is when they fire.
- **Randomness.**
  - The three `Math.random` draws become a caller-supplied `picks` (three
    indexes into the pool). `Math.floor(Math.random() * n)` always lands in
    `[0, n)`, so `ValidPicks` is what the source guarantees.
  - `Date.now() + i` identities become a session counter `nextId`.
- **Constants.**
  - `GRID_SIZE`, the three catalog tiers, `SCORING` and `INITIAL_POWERUP_COUNTS`
    are the literal constants of `Constants`.
  - Each theme keeps its name, empty-cell token and colour map.
- **Line clears.** On the line-clear path the source updates the trio only
  inside the continuation (through `checkGameState`). So during the animation
  the model still offers the placed piece, as the source does.
- **Reset.** `resetGame` does not cancel a pending timer and does not clear
  the lock, and neither does the model: a continuation scheduled before a
  reset stays pending, and when it fires it overwrites the fresh board with
  the board it captured.
- **Boom gating.** `useBoom` is gated only by its count. The lock is checked
  by `handleGridInteraction`, its only caller.
- **Order of updates.** On a placement without a line clear, the model
  updates the score and high score before the follow-up check, while the
  source runs `checkGameState` (hooks/useGameLogic.ts:248) before `setScore`
  (hooks/useGameLogic.ts:251-252). The two touch disjoint state, so the
  resulting session is the same.

## Model

| member | source | states |
|---|---|---|
| Types.Inventory.Spend | hooks/useGameLogic.ts:310 | spending lowers exactly the chosen count by one and leaves the others |
| Board.EmptyCell | hooks/useGameLogic.ts:17-26 | defines the empty cell: unfilled, the theme's empty token, no hint, no animation flag |
| Board.PlacedCell | hooks/useGameLogic.ts:175-180 | defines a freshly placed cell: filled with the piece's colour, no hint, marked just placed |
| Board.CountShape | hooks/useGameLogic.ts:172-183 | defines the number of occupied cells of a shape, the `blocksPlaced` count of a well-formed piece |
| Board.EmptyGrid | hooks/useGameLogic.ts:5-15 | the new board is 10x10 with no filled cell |
| Board.CanPlace | hooks/useGameLogic.ts:94-116 | defines the placement test: every occupied offset lies on the board on an unfilled cell |
| Board.CanPlaceReadsOnlyFill | hooks/useGameLogic.ts:94-116 | the placement test depends only on the cells' filled flags, so it ignores hints and animation marks |
| Board.PlacementFillsExactlyThePiece | hooks/useGameLogic.ts:169-185 | each occupied offset becomes a filled cell of the piece's colour marked just placed; no other cell changes |
| Board.PlacedPieceBlocksItsAnchor | hooks/useGameLogic.ts:169-185 | once a non-empty piece is placed, the same piece no longer fits at the same anchor |
| Board.CosmeticEditKeepsContents | hooks/useGameLogic.ts:206-232 | hint and animation marks never change a cell's filled flag or colour |
| Board.FullRows | hooks/useGameLogic.ts:118-126 | defines the full rows in ascending order |
| Board.FullCols | hooks/useGameLogic.ts:118-135 | defines the full columns in ascending order |
| Board.FullRowsBelowSpec | hooks/useGameLogic.ts:122-126 | the row scan lists a row iff it is full, in strictly ascending order |
| Board.FullColsBelowSpec | hooks/useGameLogic.ts:128-132 | the column scan lists a column iff it is full, in strictly ascending order |
| Board.FullLinesSpec | hooks/useGameLogic.ts:118-135 | `checkForClears` lists exactly the full rows and the full columns, each list strictly ascending |
| Board.MarkingKeepsFullLines | hooks/useGameLogic.ts:206-232 | marking cells clearing does not change which lines are full |
| Board.ClearLines | hooks/useGameLogic.ts:234-241 | defines the clear: every cell of a full row or column becomes the empty cell |
| Board.ClearLinesExact | hooks/useGameLogic.ts:234-241 | after the clear, a cell on a full row or column is the empty cell (an intersection simply so), and every other cell is unchanged |
| Board.ClearLeavesNoFullLine | hooks/useGameLogic.ts:234-241 | after the clear no row or column is full |
| Board.ResetOverridesMark | hooks/useGameLogic.ts:235-241 | emptying cells that were marked first gives the same board as emptying them unmarked |
| Board.RestoreExact | hooks/useGameLogic.ts:233-361 | restoring a captured board without pop marks and emptying a region: the region is empty cells whatever mark it carried, every other cell is as captured without its pop mark |
| Board.RestoredHasNoPopMark | hooks/useGameLogic.ts:233-361 | such a restored board has no cell marked just placed |
| Board.ClearAfterRestore | hooks/useGameLogic.ts:206-241 | marking the full lines, restoring without pop marks and emptying the lines empties exactly the full lines and leaves no full line |
| Board.MovePossible | hooks/useGameLogic.ts:137-149 | defines move availability: some piece fits at some anchor whose bounding box lies on the board |
| Board.MovePossibleReadsOnlyFill | hooks/useGameLogic.ts:137-149 | whether a move exists depends only on the cells' filled flags |
| Board.FittingAnchorInScanRange | hooks/useGameLogic.ts:140-141 | for a tight piece every fitting anchor lies in the scanned range `0..N-height` x `0..N-width` |
| Board.MovePossibleIffSomeAnchor | hooks/useGameLogic.ts:137-149 | for tight pieces, the bounded scan finds a move iff some piece fits at some anchor |
| Board.NoMoveOnFullBoard | hooks/useGameLogic.ts:137-149 | on a completely filled board no piece with an occupied cell fits |
| Board.FitsOnEmptyBoard | hooks/useGameLogic.ts:137-149 | a piece no larger than the board fits at (0, 0) of a board with no filled cell |
| Board.Hinted | hooks/useGameLogic.ts:261-289 | defines the preview with the off-board guard on the boom branch: hints dropped, then the piece, boom or single-clear cells marked |
| Board.HintedAsWritten | hooks/useGameLogic.ts:261-289 | defines the preview as written, the boom branch unguarded |
| Board.HintFixIsMinimal | hooks/useGameLogic.ts:277-284 | the guard changes nothing but the boom preview at an off-board target |
| Board.HintedKeepsCells | hooks/useGameLogic.ts:261-289 | a preview changes only hints: filled flag, colour and animation flags stay |
| Board.PiecePreviewMarks | hooks/useGameLogic.ts:264-276 | a piece preview marks exactly the in-board occupied offsets, `Good` iff the piece fits, and clears every other hint |
| Board.PowerUpPreviewMarks | hooks/useGameLogic.ts:277-287 | without a piece preview, boom marks exactly the in-board 3x3 cells of an on-board target, single clear exactly a filled on-board target, and no other hint is left |
| Board.HintedIdempotent | hooks/useGameLogic.ts:261-289 | recomputing a preview with the same arguments changes nothing |
| Board.OffBoardPreviewClearsAllHints | hooks/useGameLogic.ts:277-287 | with the guard, a power-up preview at an off-board position leaves no hint on the board |
| Board.ClearHintAsWrittenMarksCorner | hooks/useGameLogic.ts:277-284 | as written, the hint reset at (-1, -1) with boom armed marks cell (0, 0) `Good` |
| GridOps.CopyGrid | hooks/useGameLogic.ts:34 | the copy is the board's value |
| GridOps.Load | hooks/useGameLogic.ts:243 | the array afterwards holds the given board |
| GridOps.CanPlaceBlock | hooks/useGameLogic.ts:94-116 | the early-exit scan returns true iff every occupied offset is in bounds on an unfilled cell; it reads the board only |
| GridOps.RowIsFull | hooks/useGameLogic.ts:123 | true iff every cell of the row is filled |
| GridOps.ColIsFull | hooks/useGameLogic.ts:129 | true iff every cell of the column is filled |
| GridOps.CheckForClears | hooks/useGameLogic.ts:118-135 | returns exactly the full rows and the full columns in scan order |
| GridOps.IsMovePossible | hooks/useGameLogic.ts:137-149 | false for no pieces; otherwise true iff some piece fits at an anchor in its bounded range |
| GridOps.PlacePiece | hooks/useGameLogic.ts:169-185 | fills the occupied offsets with the piece's colour, leaves every other cell, and counts the cells filled |
| GridOps.EditPiece | hooks/useGameLogic.ts:266-276 | applies the mark to the in-board occupied offsets only |
| GridOps.EditArea | hooks/useGameLogic.ts:315-321 | applies the change to the in-board cells of the 3x3 area only |
| GridOps.EditCell | hooks/useGameLogic.ts:350 | changes the one target cell only |
| GridOps.EditLines | hooks/useGameLogic.ts:211-231 | applies the change to every cell of the listed rows and columns only |
| GridOps.EditAll | hooks/useGameLogic.ts:262 | applies the change to every cell |
| Dealing.Pool | hooks/useGameLogic.ts:55-60 | defines the pool: the simple tier, plus the medium tier for medium, plus the medium and complex tiers for hard |
| Dealing.ColorOf | hooks/useGameLogic.ts:67 | defines the colour lookup: the theme's colour for the key, or the empty string |
| Dealing.MakeBlock | hooks/useGameLogic.ts:64-68 | defines a dealt piece: the definition with a fresh id and the theme's colour |
| Dealing.Deal | hooks/useGameLogic.ts:54-73 | defines the deal: the three drawn pool entries with ids `firstId`, `firstId + 1`, `firstId + 2` |
| Dealing.WithoutId | hooks/useGameLogic.ts:196 | defines the trio without the placed piece's id |
| Dealing.WithoutIdSpec | hooks/useGameLogic.ts:196 | the filter keeps exactly the pieces with another id and never grows the trio |
| Dealing.WithoutIdDropsOne | hooks/useGameLogic.ts:196 | with distinct ids, removing the k-th piece's id drops that piece and only it |
| Dealing.WithoutIdKeepsDistinct | hooks/useGameLogic.ts:196 | the remaining pieces keep distinct ids |
| Dealing.DealSpec | hooks/useGameLogic.ts:62-70 | a deal has three pieces with distinct fresh ids, each the drawn definition in the theme's colour |
| Scoring.Points | hooks/useGameLogic.ts:200-204 | points are at least the placed cells, with equality iff no line is completed |
| Scoring.PointsGrowWithLines | hooks/useGameLogic.ts:203-204 | each extra line in one move adds at least `100·(2L+1)` points |
| Scoring.NextHighScore | hooks/useGameLogic.ts:254-257 | the high score never falls and changes only to a new score above it |
| CatalogFacts.TierSizes | constants.ts:84-106 | the tiers hold 4, 6 and 7 shapes, so the easy, medium and hard pools hold 4, 10 and 17 |
| CatalogFacts.CatalogShapesOk | constants.ts:84-106 | every definition is a height x width matrix of 0/1 entries with at least one 1 |
| CatalogFacts.CatalogBounded | constants.ts:84-106 | every definition is between 1x1 and 5x5 |
| CatalogFacts.CatalogTight | constants.ts:84-106 | every shape touches all four edges of its bounding box |
| CatalogFacts.PoolInCatalog | hooks/useGameLogic.ts:55-60 | every pool entry is a catalog definition |
| CatalogFacts.DealtPiecesOk | hooks/useGameLogic.ts:63-70 | every dealt piece is well formed, tight and at most 5x5 |
| CatalogFacts.CatalogFitsEmptyBoard | constants.ts:84-106 | every catalog piece fits an empty board |
| CatalogFacts.CatalogUsesCatalogKeys | constants.ts:84-106 | the catalog uses only the seven colour keys CYAN, BLUE, RED, ORANGE, YELLOW, GREEN, PURPLE |
| CatalogFacts.ThemesDefineCatalogKeys | constants.ts:14-69 | every theme's colour map defines those seven keys |
| CatalogFacts.CatalogKeysInEveryTheme | constants.ts:14-69 | every catalog colour key is present in every theme, so no dealt piece gets the empty colour |
| GameModel.GenerateNewBlocks | hooks/useGameLogic.ts:54-73 | defines the refill: a fresh deal becomes the trio |
| GameModel.ResetGame | hooks/useGameLogic.ts:75-82 | defines the reset: empty board, score 0, not over, nothing armed, initial power-ups, a fresh trio |
| GameModel.Initial | hooks/useGameLogic.ts:36-86 | defines a fresh session: the saved high score loaded, then the reset |
| GameModel.CheckGameState | hooks/useGameLogic.ts:151-162 | defines the follow-up check: refill an empty trio, then game over when no move exists |
| GameModel.PlaceBlock | hooks/useGameLogic.ts:164-259 | defines the placement transition |
| GameModel.Settle | hooks/useGameLogic.ts:324-361 | defines the end of a power-up animation: the new board, unlocked, game over when the captured trio has no move |
| GameModel.Resolve | hooks/useGameLogic.ts:233-361 | defines the continuation with the correction of "Findings": the captured board without pop marks, its marked cells emptied, then the follow-up check |
| GameModel.ResolveAsWritten | hooks/useGameLogic.ts:233-361 | defines the continuation as written: the captured board as captured, its marked cells emptied, then the follow-up check |
| GameModel.UpdateHint | hooks/useGameLogic.ts:261-289 | defines the preview transition, with the guard |
| GameModel.ActivatePowerUp | hooks/useGameLogic.ts:291-295 | defines arming and disarming |
| GameModel.UseReshuffle | hooks/useGameLogic.ts:297-305 | defines the reshuffle transition |
| GameModel.UseBoom | hooks/useGameLogic.ts:307-340 | defines the boom transition up to its timer |
| GameModel.UseSingleClear | hooks/useGameLogic.ts:342-362 | defines the single-clear transition up to its timer |
| GameModel.HandleGridInteraction | hooks/useGameLogic.ts:364-375 | defines the board click dispatch |
| GameModel.FlashBadPlacement | hooks/useGameLogic.ts:377-390 | defines the bad flash |
| GameModel.ExpireBadFlash | hooks/useGameLogic.ts:391-393 | defines the flash timer |
| GameModel.ExpirePlacePop | hooks/useGameLogic.ts:188-194 | defines the place-pop timer |
| GameModel.Step | hooks/useGameLogic.ts:75-394 | defines every command and timer as one action |
| GameModel.StepPreservesInv | hooks/useGameLogic.ts:164-394 | every command and timer keeps the invariant; in particular no count goes below zero |
| GameModel.PlaceKeepsInv | hooks/useGameLogic.ts:164-259 | a placement, accepted or refused, keeps the invariant |
| GameModel.ResolveKeepsInv | hooks/useGameLogic.ts:234-246 | running a pending continuation keeps the invariant |
| GameModel.InitialSpec | hooks/useGameLogic.ts:36-86 | a new session has score 0, the saved high score, counts 2/2/3, an empty board, three pieces and no lock |
| GameModel.ResetLeavesAMove | hooks/useGameLogic.ts:75-82 | after a reset the dealt trio always has a move |
| GameModel.ScoreMonotone | hooks/useGameLogic.ts:251-257 | only a reset lowers the score; the high score never falls and rises only to a new score above it |
| GameModel.CountsOnlyFall | hooks/useGameLogic.ts:291-362 | only a reset refills power-ups; any other step spends at most one use of one kind |
| GameModel.ScoreOnlyFromPlacement | hooks/useGameLogic.ts:75-394 | every step other than a placement or a reset leaves the score unchanged |
| GameModel.GameOverSticks | hooks/useGameLogic.ts:75-394 | once the game is over, every step other than a reset leaves it over |
| GameModel.PlaceRefused | hooks/useGameLogic.ts:165-167 | a placement while locked or where the piece does not fit changes nothing |
| GameModel.PlaceScores | hooks/useGameLogic.ts:197-257 | an accepted placement adds the move's points, updates the high score only when beaten, and leaves the power-ups |
| GameModel.PlaceWithoutClear | hooks/useGameLogic.ts:247-249 | with no line completed: exactly the piece is filled, only the placed id leaves the trio (refilled when empty), and game over is set iff no move is left |
| GameModel.PlaceLocksForClear | hooks/useGameLogic.ts:206-232 | with lines completed: the session locks, exactly those lines are marked clearing, and the trio is not yet updated |
| GameModel.PlaceThenClear | hooks/useGameLogic.ts:234-246 | when the clear fires, cleared lines are empty cells, the rest is as placed without pop marks, no full line is left, the lock is released, and the trio and game over follow `checkGameState` |
| GameModel.PlacedPieceLeavesTrio | hooks/useGameLogic.ts:196 | placing the k-th piece of the trio drops that piece and only it |
| GameModel.CheckGameStateSpec | hooks/useGameLogic.ts:151-162 | an empty trio is replaced by exactly three fresh pieces; game over is set iff no piece fits anywhere |
| GameModel.ActivateToggles | hooks/useGameLogic.ts:291-295 | arming toggles only with uses left; pressing the same kind twice restores the session unless another kind was armed |
| GameModel.ReshuffleSpec | hooks/useGameLogic.ts:297-305 | a reshuffle acts only with a use left and unlocked: it spends one, deals three pieces, and sets game over iff they have no move |
| GameModel.BoomThenSettle | hooks/useGameLogic.ts:307-340 | a boom spends one use, disarms and locks; when it fires, the in-board 3x3 cells are empty, the rest is unchanged but for pop marks, trio and score are kept, and game over follows the captured trio |
| GameModel.CornerBoomReachesFour | hooks/useGameLogic.ts:315-321 | at a corner the boom reaches exactly the four in-board cells |
| GameModel.SingleClearThenSettle | hooks/useGameLogic.ts:342-362 | a single clear acts only with a use left on a filled on-board cell; when it fires that cell alone is emptied (pop marks dropped), trio, counts and score are kept, and game over follows the captured trio |
| GameModel.InteractionGated | hooks/useGameLogic.ts:364-375 | a board click does nothing while locked, with nothing armed, or with reshuffle armed |
| GameModel.InteractionActs | hooks/useGameLogic.ts:307-375 | a board click changes the session exactly when unlocked with boom armed and a use left, or single clear armed, a use left and a filled on-board target |
| GameModel.PreviewSpec | hooks/useGameLogic.ts:261-289 | a preview never changes a cell's filled flag or colour, is idempotent, and leaves score, trio and lock |
| GameModel.FlashSpec | hooks/useGameLogic.ts:377-394 | the bad flash and its expiry never change a cell's filled flag or colour, and afterwards no cell is marked bad |
| GameModel.PopExpiryDrops | hooks/useGameLogic.ts:188-194 | the place-pop timer drops exactly the pop marks and changes nothing else, the pending continuation included |
| GameModel.PlacedCellOutsideLines | hooks/useGameLogic.ts:169-232 | with lines completed, a piece cell off those lines is captured by the continuation as a freshly placed cell |
| GameModel.ClearedAsCaptured | hooks/useGameLogic.ts:234-243 | as written, the line-clear continuation's board is the captured board with the lines emptied |
| GameModel.CapturedPopMarkReturns | hooks/useGameLogic.ts:188-243 | as written, a pop mark on the captured board off the cleared lines is absent after the place-pop timer and back after the continuation |
| GameModel.PopMarkComesBack | hooks/useGameLogic.ts:188-243 | as written, after a line-clearing placement, its place-pop timer and its continuation, a piece cell off the cleared lines is marked just placed again |
| GameModel.NoPopMarkAfterResolve | hooks/useGameLogic.ts:233-361 | with the correction, no cell is marked just placed after any continuation |
| GameModel.ResolveFixIsMinimal | hooks/useGameLogic.ts:233-361 | the correction differs from the continuation as written only in the dropped pop marks: cells, trio, score and game over agree |
| GameLogic.Session.constructor | hooks/useGameLogic.ts:36-86 | the new session is the initial state: saved high score loaded, then reset |
| GameLogic.Session.GenerateNewBlocks | hooks/useGameLogic.ts:54-73 | the loop deals the three drawn definitions with fresh ids and makes them the trio |
| GameLogic.Session.ResetGame | hooks/useGameLogic.ts:75-82 | the session becomes the reset state and keeps the invariant |
| GameLogic.Session.CheckGameState | hooks/useGameLogic.ts:151-162 | the session becomes the `checkGameState` transition of the current board |
| GameLogic.Session.PlaceBlock | hooks/useGameLogic.ts:164-259 | returns true iff unlocked and the piece fits, and the session becomes the placement transition |
| GameLogic.Session.FillAndScore | hooks/useGameLogic.ts:169-205 | fills the piece, computes the trio without its id, finds the full lines and adds the move's points, updating the high score only when beaten |
| GameLogic.Session.StartLineClear | hooks/useGameLogic.ts:206-232 | marks the lines clearing and locks with the clear scheduled on that board |
| GameLogic.Session.Resolve | hooks/useGameLogic.ts:233-361 | the pending continuation runs as the resolve transition: captured board without pop marks, marked cells emptied, follow-up check, unlocked |
| GameLogic.Session.UpdateHint | hooks/useGameLogic.ts:261-289 | the board becomes the preview of the current board |
| GameLogic.Session.ActivatePowerUp | hooks/useGameLogic.ts:291-295 | the armed power-up toggles exactly as the transition says |
| GameLogic.Session.UseReshuffle | hooks/useGameLogic.ts:297-305 | the session becomes the reshuffle transition |
| GameLogic.Session.UseBoom | hooks/useGameLogic.ts:307-322 | the session becomes the boom transition |
| GameLogic.Session.UseSingleClear | hooks/useGameLogic.ts:342-351 | the session becomes the single-clear transition |
| GameLogic.Session.HandleGridInteraction | hooks/useGameLogic.ts:364-375 | the click dispatches exactly as the transition says |
| GameLogic.Session.FlashBadPlacement | hooks/useGameLogic.ts:377-390 | marks the in-board occupied offsets `Bad` |
| GameLogic.Session.ExpireBadFlash | hooks/useGameLogic.ts:391-393 | drops every `Bad` hint |
| GameLogic.Session.ExpirePlacePop | hooks/useGameLogic.ts:188-194 | drops every just-placed mark |
| Scenarios.GapClosingLines | hooks/useGameLogic.ts:118-135 | the 2x2 square dropped into the corner gap completes exactly row 0 and column 0 |
| Scenarios.CornerGapScores454 | hooks/useGameLogic.ts:197-205 | that four-cell move completing one row and one column scores 454 |

## Left out

- Rendering, components, audio callbacks, persistence (`localStorage`),
  settings and the game-over modal are outside the engine. The saved high
  score is a constructor argument.
- The timer durations and the `clearAnimationDelay` stagger only change
  presentation timing, so they are not modelled. Their `maxDelay` is not
  modelled either.
- `Math.random` and `Date.now` become caller-supplied draws and a counter. The
  model does not say which trio is dealt, only that a deal is three pool
  entries with fresh distinct ids.
- Concurrency between timers: the model has at most one pending continuation.
  That is all the source allows too: a pending continuation keeps the session
  locked, a reset neither schedules a timer nor clears the lock, and nothing
  else can start one while it is locked. What a reset does not undo is kept:
  the pending continuation survives it and later overwrites the fresh board
  with the board it captured.
- React batching and stale closures beyond the captured board and trio are
  not modelled. The commands run one after another on the current state.
- Theme fields other than the empty-cell token and the colour map (display
  name, background and grid classes, line-clear class) are not modelled.
- `GameLogic.Session.PlaceBlock`, `GameLogic.Session.UpdateHint`,
  `GameLogic.Session.FlashBadPlacement`, `GameLogic.Session.FillAndScore`,
  `GridOps.CanPlaceBlock`,
  `GridOps.IsMovePossible`, `GridOps.PlacePiece` and `GridOps.EditPiece`:
  require the piece (every piece, for `IsMovePossible`) to be well formed, a
  `height` x `width` shape. The source would throw on a shorter shape, and
  every dealt piece is well formed (`CatalogFacts.DealtPiecesOk`).
- `GameModel.PlaceBlock`: scores `CountShape(b.shape)`, the number of 1
  entries of the whole shape. That equals the source's `blocksPlaced`, which
  counts only inside the `height` x `width` box, for a well-formed piece only.
- `GameLogic.Session.UpdateHint`: implements the corrected boom guard of the
  finding below. The as-written behaviour is kept as `Board.HintedAsWritten`.

## Findings

| source | as written | input that shows it | evidently intended | confidence | as-written member | corrected member |
|---|---|---|---|---|---|---|
| hooks/useGameLogic.ts:188-235 | the line-clear continuation restores a copy of `clearingGrid`, which was built before the place-pop timer dropped the just-placed marks | a placement that completes a line and leaves some of its cells outside that line: the place-pop timer (250, 200 or 150 ms) fires before the continuation (`maxDelay` plus 600, 500 or 350 ms, constants.ts:123-138), so the surviving piece cells come back marked just placed, and components/Grid.tsx:29 keeps drawing them with the pop animation until the next placement | the pop mark lasts only for the place-pop interval | high (not executed) | GameModel.PopMarkComesBack | GameModel.NoPopMarkAfterResolve |
| hooks/useGameLogic.ts:277-284 | the boom preview branch runs for any position | App.tsx:139-141 clears hints with `updateHint(null, -1, -1)` when the pointer leaves the board (components/Grid.tsx:44); with boom armed, offset (+1, +1) of (-1, -1) is cell (0, 0), which is marked `good` | clearing the hint leaves no hint on the board | high (not executed) | Board.ClearHintAsWrittenMarksCorner | Board.OffBoardPreviewClearsAllHints |
