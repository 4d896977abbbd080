// Facts about the static catalog and themes.
module CatalogFacts {
  import opened Types
  import opened Constants
  import opened Board
  import opened Dealing

  /** A definition whose shape is a height x width matrix of 0/1 entries with at least one 1. */
  ghost predicate DefOk(def: BlockDef)
  {
    def.height == |def.shape| &&
    (forall r :: 0 <= r < |def.shape| ==> |def.shape[r]| == def.width) &&
    (forall r, c :: 0 <= r < |def.shape| && 0 <= c < |def.shape[r]| ==> def.shape[r][c] == 0 || def.shape[r][c] == 1) &&
    (exists r, c :: 0 <= r < |def.shape| && 0 <= c < |def.shape[r]| && def.shape[r][c] == 1)
  }

  lemma TierSizes()
    ensures |SIMPLE| == 4 && |MEDIUM| == 6 && |COMPLEX| == 7
    ensures |Pool(Easy)| == 4 && |Pool(Medium)| == 10 && |Pool(Hard)| == 17
  {
  }

  /** `DefOk` from one occupied entry. */
  lemma DefOkAt(def: BlockDef, r0: int, c0: int)
    requires def.height == |def.shape| && forall r :: 0 <= r < |def.shape| ==> |def.shape[r]| == def.width
    requires forall r, c :: 0 <= r < |def.shape| && 0 <= c < |def.shape[r]| ==> def.shape[r][c] == 0 || def.shape[r][c] == 1
    requires 0 <= r0 < |def.shape| && 0 <= c0 < |def.shape[r0]| && def.shape[r0][c0] == 1
    ensures DefOk(def)
  {
  }

  lemma SimpleShapesOk()
    ensures forall i :: 0 <= i < |SIMPLE| ==> DefOk(SIMPLE[i])
  {
    DefOkAt(SIMPLE[0], 0, 0);
    DefOkAt(SIMPLE[1], 0, 0);
    DefOkAt(SIMPLE[2], 0, 0);
    DefOkAt(SIMPLE[3], 0, 0);
  }

  lemma MediumShapesOk()
    ensures forall i :: 0 <= i < |MEDIUM| ==> DefOk(MEDIUM[i])
  {
    DefOkAt(MEDIUM[0], 0, 0);
    DefOkAt(MEDIUM[1], 0, 0);
    DefOkAt(MEDIUM[2], 0, 0);
    DefOkAt(MEDIUM[3], 0, 0);
    DefOkAt(MEDIUM[4], 0, 1);
    DefOkAt(MEDIUM[5], 0, 0);
  }

  lemma ComplexLinesOk()
    ensures forall i :: 0 <= i < 4 ==> DefOk(COMPLEX[i])
  {
    DefOkAt(COMPLEX[0], 0, 0);
    DefOkAt(COMPLEX[1], 0, 0);
    DefOkAt(COMPLEX[2], 0, 0);
    DefOkAt(COMPLEX[3], 0, 0);
  }

  lemma ComplexSquareOk()
    ensures DefOk(COMPLEX[4])
  {
    var s := COMPLEX[4].shape;
    assert forall r :: 0 <= r < 3 ==> s[r] == [1, 1, 1];
    DefOkAt(COMPLEX[4], 0, 0);
  }

  lemma ComplexShapesOk()
    ensures forall i :: 0 <= i < |COMPLEX| ==> DefOk(COMPLEX[i])
  {
    ComplexLinesOk();
    ComplexSquareOk();
    DefOkAt(COMPLEX[5], 0, 0);
    DefOkAt(COMPLEX[6], 0, 0);
  }

  /** Every definition of every tier is a well-formed 0/1 matrix with an occupied entry. */
  lemma CatalogShapesOk()
    ensures forall def :: def in Catalog() ==> DefOk(def)
  {
    SimpleShapesOk();
    MediumShapesOk();
    ComplexShapesOk();
  }

  lemma CatalogBounded()
    ensures forall def :: def in Catalog() ==> 1 <= def.width <= 5 && 1 <= def.height <= 5
  {
  }

  /** The piece a definition deals is tight, given a witness entry on each edge of its box. */
  lemma TightAt(def: BlockDef, id: int, theme: Theme, top: int, bottom: int, left: int, right: int)
    requires def.height == |def.shape| > 0 && def.width > 0
    requires forall r :: 0 <= r < |def.shape| ==> |def.shape[r]| == def.width
    requires 0 <= top < def.width && def.shape[0][top] != 0
    requires 0 <= bottom < def.width && def.shape[def.height - 1][bottom] != 0
    requires 0 <= left < def.height && def.shape[left][0] != 0
    requires 0 <= right < def.height && def.shape[right][def.width - 1] != 0
    ensures Tight(MakeBlock(def, id, theme))
  {
    var b := MakeBlock(def, id, theme);
    assert Occupied(b, 0, top) && Occupied(b, b.height - 1, bottom);
    assert Occupied(b, left, 0) && Occupied(b, right, b.width - 1);
  }

  lemma SimpleTight(id: int, theme: Theme)
    ensures forall i :: 0 <= i < |SIMPLE| ==> Tight(MakeBlock(SIMPLE[i], id, theme))
  {
    TightAt(SIMPLE[0], id, theme, 0, 0, 0, 0);
    TightAt(SIMPLE[1], id, theme, 0, 0, 0, 0);
    TightAt(SIMPLE[2], id, theme, 0, 0, 0, 0);
    TightAt(SIMPLE[3], id, theme, 0, 0, 0, 0);
  }

  lemma MediumTight(id: int, theme: Theme)
    ensures forall i :: 0 <= i < |MEDIUM| ==> Tight(MakeBlock(MEDIUM[i], id, theme))
  {
    TightAt(MEDIUM[0], id, theme, 0, 0, 0, 0);
    TightAt(MEDIUM[1], id, theme, 0, 0, 0, 0);
    TightAt(MEDIUM[2], id, theme, 0, 0, 0, 1);
    TightAt(MEDIUM[3], id, theme, 0, 1, 0, 0);
    TightAt(MEDIUM[4], id, theme, 1, 0, 1, 1);
    TightAt(MEDIUM[5], id, theme, 0, 0, 0, 1);
  }

  lemma ComplexTight(id: int, theme: Theme)
    ensures forall i :: 0 <= i < |COMPLEX| ==> Tight(MakeBlock(COMPLEX[i], id, theme))
  {
    TightAt(COMPLEX[0], id, theme, 0, 0, 0, 0);
    TightAt(COMPLEX[1], id, theme, 0, 0, 0, 0);
    TightAt(COMPLEX[2], id, theme, 0, 0, 0, 0);
    TightAt(COMPLEX[3], id, theme, 0, 0, 0, 0);
    TightAt(COMPLEX[4], id, theme, 0, 0, 0, 0);
    TightAt(COMPLEX[5], id, theme, 0, 0, 0, 2);
    TightAt(COMPLEX[6], id, theme, 0, 0, 0, 0);
  }

  lemma CatalogTight(id: int, theme: Theme)
    ensures forall def :: def in Catalog() ==> Tight(MakeBlock(def, id, theme))
  {
    SimpleTight(id, theme);
    MediumTight(id, theme);
    ComplexTight(id, theme);
  }

  lemma PoolInCatalog(d: Difficulty)
    ensures forall k :: 0 <= k < |Pool(d)| ==> Pool(d)[k] in Catalog()
  {
    forall k | 0 <= k < |Pool(d)|
      ensures Pool(d)[k] in Catalog()
    {
      assert Pool(d)[k] == Catalog()[k];
    }
  }

  /** The piece a catalog definition deals is well formed, tight and at most 5x5. */
  lemma CatalogPieceOk(def: BlockDef, id: int, theme: Theme)
    requires def in Catalog()
    ensures var b := MakeBlock(def, id, theme);
      WellFormed(b) && Tight(b) && 1 <= b.height <= 5 && 1 <= b.width <= 5
  {
    CatalogShapesOk();
    CatalogBounded();
    CatalogTight(id, theme);
  }

  /** The i-th piece of a dealt trio is a catalog piece. */
  lemma DealtPieceOk(d: Difficulty, theme: Theme, picks: seq<int>, firstId: int, i: int)
    requires ValidPicks(d, picks) && 0 <= i < 3
    ensures var b := Deal(d, theme, picks, firstId)[i];
      WellFormed(b) && Tight(b) && 1 <= b.height <= 5 && 1 <= b.width <= 5
  {
    var k := picks[i];
    PoolEntry(d, k);
    CatalogPieceOk(Catalog()[k], firstId + i, theme);
  }

  /** The pools are prefixes of the catalog. */
  lemma PoolEntry(d: Difficulty, k: int)
    requires 0 <= k < |Pool(d)|
    ensures k < |Catalog()| && Pool(d)[k] == Catalog()[k] && Catalog()[k] in Catalog()
  {
  }

  /** Every piece a dealt trio holds is well formed, tight and at most 5x5. */
  lemma DealtPiecesOk(d: Difficulty, theme: Theme, picks: seq<int>, firstId: int)
    requires ValidPicks(d, picks)
    ensures forall i :: 0 <= i < 3 ==>
      var b := Deal(d, theme, picks, firstId)[i];
      WellFormed(b) && Tight(b) && 1 <= b.height <= 5 && 1 <= b.width <= 5
  {
    forall i | 0 <= i < 3
      ensures var b := Deal(d, theme, picks, firstId)[i];
        WellFormed(b) && Tight(b) && 1 <= b.height <= 5 && 1 <= b.width <= 5
    {
      DealtPieceOk(d, theme, picks, firstId, i);
    }
  }

  /** Every catalog piece fits on a board with no filled cell. */
  lemma CatalogFitsEmptyBoard(id: int, theme: Theme, g: Grid)
    requires ValidGrid(g) && forall r, c :: InBoard(r, c) ==> !g[r][c].filled
    ensures forall def :: def in Catalog() ==> MovePossible([MakeBlock(def, id, theme)], g)
  {
    CatalogBounded();
    forall def | def in Catalog()
      ensures MovePossible([MakeBlock(def, id, theme)], g)
    {
      FitsOnEmptyBoard(MakeBlock(def, id, theme), g);
    }
  }

  /** The colour keys the catalog uses. */
  const CATALOG_KEYS: set<string> := {"CYAN", "BLUE", "RED", "ORANGE", "YELLOW", "GREEN", "PURPLE"}

  lemma CatalogUsesCatalogKeys()
    ensures forall def :: def in Catalog() ==> def.colorKey in CATALOG_KEYS
  {
  }

  lemma ThemesDefineCatalogKeys()
    ensures forall t :: t in THEMES ==> CATALOG_KEYS <= t.colors.Keys
  {
    assert CATALOG_KEYS <= HOLOGRAPHIC.colors.Keys;
    assert CATALOG_KEYS <= WOOD.colors.Keys;
    assert CATALOG_KEYS <= FUTURISTIC.colors.Keys;
  }

  /** Every colour key the catalog uses is defined by every theme, so no dealt piece gets the empty colour key lookup. */
  lemma CatalogKeysInEveryTheme()
    ensures forall t, def :: t in THEMES && def in Catalog() ==> def.colorKey in t.colors
  {
    CatalogUsesCatalogKeys();
    ThemesDefineCatalogKeys();
  }
}
