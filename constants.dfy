// The static data the engine reads: the board size, the piece catalog by
// tier, the scoring constants, the initial power-up counts and the themes'
// colour maps (values are opaque style tokens).
module Constants {
  import opened Types

  const GRID_SIZE: int := 10

  const PER_BLOCK: int := 1
  const LINE_CLEAR_BASE: int := 100
  const COMBO_BONUS: int := 50

  const INITIAL_POWERUP_COUNTS: Inventory := Inventory(boom := 2, reshuffle := 2, singleClear := 3)

  const SIMPLE: seq<BlockDef> := [
    BlockDef([[1]], "CYAN", 1, 1),
    BlockDef([[1, 1]], "BLUE", 2, 1),
    BlockDef([[1], [1]], "BLUE", 1, 2),
    BlockDef([[1, 1], [1, 1]], "RED", 2, 2)
  ]

  const MEDIUM: seq<BlockDef> := [
    BlockDef([[1, 1, 1]], "ORANGE", 3, 1),
    BlockDef([[1], [1], [1]], "ORANGE", 1, 3),
    BlockDef([[1, 0], [1, 1]], "CYAN", 2, 2),
    BlockDef([[1, 1], [0, 1]], "CYAN", 2, 2),
    BlockDef([[0, 1, 0], [1, 1, 1]], "BLUE", 3, 2),
    BlockDef([[1, 0], [1, 1], [1, 0]], "BLUE", 2, 3)
  ]

  const COMPLEX: seq<BlockDef> := [
    BlockDef([[1, 1, 1, 1]], "YELLOW", 4, 1),
    BlockDef([[1, 1, 1, 1, 1]], "GREEN", 5, 1),
    BlockDef([[1], [1], [1], [1]], "YELLOW", 1, 4),
    BlockDef([[1], [1], [1], [1], [1]], "GREEN", 1, 5),
    BlockDef([[1, 1, 1], [1, 1, 1], [1, 1, 1]], "PURPLE", 3, 3),
    BlockDef([[1, 0], [1, 0], [1, 1]], "CYAN", 2, 3),
    BlockDef([[1, 1, 1], [1, 0, 0]], "CYAN", 3, 2)
  ]

  const HOLOGRAPHIC: Theme := Theme(
    Holographic,
    "bg-black/20 shadow-[inset_0px_1px_4px_rgba(0,0,0,0.6)]",
    map[
      "HINT" := "bg-white/20",
      "CYAN" := "bg-cyan-500 shadow-[inset_0px_2px_4px_rgba(255,255,255,0.4),inset_0px_-2px_4px_rgba(0,0,0,0.3)]",
      "BLUE" := "bg-blue-600 shadow-[inset_0px_2px_4px_rgba(255,255,255,0.4),inset_0px_-2px_4px_rgba(0,0,0,0.3)]",
      "ORANGE" := "bg-orange-500 shadow-[inset_0px_2px_4px_rgba(255,255,255,0.4),inset_0px_-2px_4px_rgba(0,0,0,0.3)]",
      "YELLOW" := "bg-yellow-400 shadow-[inset_0px_2px_4px_rgba(255,255,255,0.4),inset_0px_-2px_4px_rgba(0,0,0,0.3)]",
      "GREEN" := "bg-green-500 shadow-[inset_0px_2px_4px_rgba(255,255,255,0.4),inset_0px_-2px_4px_rgba(0,0,0,0.3)]",
      "PURPLE" := "bg-purple-600 shadow-[inset_0px_2px_4px_rgba(255,255,255,0.4),inset_0px_-2px_4px_rgba(0,0,0,0.3)]",
      "RED" := "bg-red-500 shadow-[inset_0px_2px_4px_rgba(255,255,255,0.4),inset_0px_-2px_4px_rgba(0,0,0,0.3)]"
    ])

  const WOOD: Theme := Theme(
    Wood,
    "bg-amber-900/60 shadow-[inset_0px_2px_4px_rgba(0,0,0,0.6)]",
    map[
      "HINT" := "bg-yellow-200/20",
      "CYAN" := "bg-stone-400 shadow-[inset_0px_2px_2px_#a16207,0px_1px_1px_#57534e]",
      "BLUE" := "bg-stone-500 shadow-[inset_0px_2px_2px_#a16207,0px_1px_1px_#57534e]",
      "ORANGE" := "bg-orange-800 shadow-[inset_0px_2px_2px_#a16207,0px_1px_1px_#57534e]",
      "YELLOW" := "bg-yellow-700 shadow-[inset_0px_2px_2px_#a16207,0px_1px_1px_#57534e]",
      "GREEN" := "bg-lime-800 shadow-[inset_0px_2px_2px_#a16207,0px_1px_1px_#57534e]",
      "PURPLE" := "bg-rose-900 shadow-[inset_0px_2px_2px_#a16207,0px_1px_1px_#57534e]",
      "RED" := "bg-red-800 shadow-[inset_0px_2px_2px_#a16207,0px_1px_1px_#57534e]"
    ])

  const FUTURISTIC: Theme := Theme(
    Futuristic,
    "bg-emerald-500/10 shadow-[inset_0px_1px_2px_rgba(0,0,0,0.8)]",
    map[
      "HINT" := "bg-emerald-400/30",
      "CYAN" := "bg-cyan-400 border border-cyan-200/50 shadow-[0_0_5px_#22d3ee]",
      "BLUE" := "bg-sky-500 border border-sky-200/50 shadow-[0_0_5px_#0ea5e9]",
      "ORANGE" := "bg-orange-400 border border-orange-200/50 shadow-[0_0_5px_#fb923c]",
      "YELLOW" := "bg-yellow-300 border border-yellow-100/50 shadow-[0_0_5px_#fde047]",
      "GREEN" := "bg-green-400 border border-green-200/50 shadow-[0_0_5px_#4ade80]",
      "PURPLE" := "bg-fuchsia-500 border border-fuchsia-200/50 shadow-[0_0_5px_#d946ef]",
      "RED" := "bg-red-500 border border-red-200/50 shadow-[0_0_5px_#ef4444]"
    ])

  const THEMES: seq<Theme> := [HOLOGRAPHIC, WOOD, FUTURISTIC]

  /** Every definition of every tier. */
  function Catalog(): seq<BlockDef>
  {
    SIMPLE + MEDIUM + COMPLEX
  }
}
