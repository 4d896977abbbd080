// Points for a placement and the high-score update.
module Scoring {
  import opened Constants

  /**
   * The points of a placement that filled `placedCells` cells and completed
   * `lines` rows and columns together: one per cell, plus a quadratic line
   * reward and a combo bonus when at least one line is completed.
   */
  function Points(placedCells: nat, lines: nat): (p: nat)
    ensures p >= placedCells
    ensures p == placedCells <==> lines == 0
  {
    var base := placedCells * PER_BLOCK;
    if lines > 0 then base + LINE_CLEAR_BASE * lines * lines + COMBO_BONUS * (lines - 1) else base
  }

  /** Every further line completed in the same move is worth strictly more than the last. */
  lemma {:induction false} PointsGrowWithLines(placedCells: nat, lines: nat)
    ensures Points(placedCells, lines + 1) - Points(placedCells, lines) >= 100 * (2 * lines + 1)
  {
    if lines > 0 {
      calc {
        Points(placedCells, lines + 1) - Points(placedCells, lines);
        LINE_CLEAR_BASE * ((lines + 1) * (lines + 1) - lines * lines) + COMBO_BONUS;
        { assert (lines + 1) * (lines + 1) - lines * lines == 2 * lines + 1; }
        100 * (2 * lines + 1) + 50;
      }
    }
  }

  /** The high score kept after a placement reached `newScore`. */
  function NextHighScore(highScore: nat, newScore: nat): (h: nat)
    ensures h >= highScore && h >= newScore
    ensures h == highScore || h == newScore
    ensures h != highScore ==> newScore > highScore
  {
    if newScore > highScore then newScore else highScore
  }
}
