// The record shapes the engine works on: one board cell, one piece, the
// power-up kinds, the difficulty levels and a colour theme (kept to the
// parts the engine reads).
module Types {

  datatype Option<T> = None | Some(value: T)

  /** The preview mark a cell may carry; `NoHint` is the source's `undefined`. */
  datatype Hint = NoHint | Good | Bad

  /**
   * One board position. `color` is an opaque style token, only copied and
   * compared. The four flags are the transient animation marks; a flag the
   * source leaves undefined is `false` here.
   */
  datatype Cell = Cell(
    filled: bool,
    color: string,
    hint: Hint,
    clearing: bool,
    justPlaced: bool,
    exploding: bool,
    dissolving: bool)

  /** A piece on offer: a fresh identity, a row-major 0/1 shape, its colour. */
  datatype Block = Block(id: int, shape: seq<seq<int>>, color: string, width: int, height: int)

  /** A catalog entry: a piece without identity, its colour given by a theme key. */
  datatype BlockDef = BlockDef(shape: seq<seq<int>>, colorKey: string, width: int, height: int)

  datatype PowerUpType = Boom | Reshuffle | SingleClear

  datatype Difficulty = Easy | Medium | Hard

  datatype ThemeName = Holographic | Wood | Futuristic

  /** A theme as far as the engine uses it: the empty-cell token and the colour map. */
  datatype Theme = Theme(name: ThemeName, emptyCellClass: string, colors: map<string, string>)

  /** Remaining uses per power-up kind. */
  datatype Inventory = Inventory(boom: int, reshuffle: int, singleClear: int)
  {
    function Get(kind: PowerUpType): int
    {
      match kind
      case Boom => boom
      case Reshuffle => reshuffle
      case SingleClear => singleClear
    }

    /** This inventory with one use of `kind` taken away. */
    function Spend(kind: PowerUpType): (r: Inventory)
      ensures r.Get(kind) == Get(kind) - 1
      ensures forall k :: k != kind ==> r.Get(k) == Get(k)
    {
      match kind
      case Boom => this.(boom := boom - 1)
      case Reshuffle => this.(reshuffle := reshuffle - 1)
      case SingleClear => this.(singleClear := singleClear - 1)
    }

    predicate NonNegative()
    {
      boom >= 0 && reshuffle >= 0 && singleClear >= 0
    }
  }

  /** The shape has `height` rows of `width` entries each (every catalog piece does). */
  predicate WellFormed(b: Block)
  {
    b.width >= 0 && b.height >= 0 && |b.shape| == b.height &&
    forall r :: 0 <= r < |b.shape| ==> |b.shape[r]| == b.width
  }

  /** Offset (r, c) of the shape is occupied (a non-zero entry inside the bounding box). */
  predicate Occupied(b: Block, r: int, c: int)
  {
    0 <= r < b.height && 0 <= c < b.width &&
    r < |b.shape| && c < |b.shape[r]| && b.shape[r][c] != 0
  }
}
