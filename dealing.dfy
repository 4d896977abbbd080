// Dealing pieces: the difficulty's pool, a trio drawn from it, and the
// removal of a placed piece from the trio by its identity.
module Dealing {
  import opened Types
  import opened Constants

  /** The definitions eligible at a difficulty: simple, then medium, then complex. */
  function Pool(d: Difficulty): seq<BlockDef>
  {
    match d
    case Easy => SIMPLE
    case Medium => SIMPLE + MEDIUM
    case Hard => SIMPLE + MEDIUM + COMPLEX
  }

  /**
   * Three draws, each an index into the pool. The source draws them with
   * `Math.floor(Math.random() * pool.length)`, which always lands in range.
   */
  predicate ValidPicks(d: Difficulty, picks: seq<int>)
  {
    |picks| == 3 && forall i :: 0 <= i < 3 ==> 0 <= picks[i] < |Pool(d)|
  }

  /** The theme's colour for a key, or the empty token when the key is missing. */
  function ColorOf(theme: Theme, key: string): string
  {
    if key in theme.colors then theme.colors[key] else ""
  }

  /** A catalog definition dealt as a piece with identity `id`. */
  function MakeBlock(def: BlockDef, id: int, theme: Theme): Block
  {
    Block(id, def.shape, ColorOf(theme, def.colorKey), def.width, def.height)
  }

  /** The trio `generateNewBlocks` deals for the given draws, with ids firstId, firstId+1, firstId+2. */
  function Deal(d: Difficulty, theme: Theme, picks: seq<int>, firstId: int): seq<Block>
    requires ValidPicks(d, picks)
  {
    seq(3, i requires 0 <= i < 3 => MakeBlock(Pool(d)[picks[i]], firstId + i, theme))
  }

  predicate DistinctIds(bs: seq<Block>)
  {
    forall i, j :: 0 <= i < j < |bs| ==> bs[i].id != bs[j].id
  }

  /** `availableBlocks.filter(b => b.id !== id)`. */
  function WithoutId(bs: seq<Block>, id: int): seq<Block>
  {
    if bs == [] then []
    else if bs[0].id == id then WithoutId(bs[1..], id)
    else [bs[0]] + WithoutId(bs[1..], id)
  }

  /** The filter keeps exactly the pieces with another identity, in order, and never grows. */
  lemma {:induction false} WithoutIdSpec(bs: seq<Block>, id: int)
    ensures forall b :: b in WithoutId(bs, id) <==> b in bs && b.id != id
    ensures |WithoutId(bs, id)| <= |bs|
    ensures (forall i :: 0 <= i < |bs| ==> bs[i].id != id) ==> WithoutId(bs, id) == bs
  {
    if bs != [] {
      WithoutIdSpec(bs[1..], id);
      assert bs == [bs[0]] + bs[1..];
    }
  }

  /** With distinct identities, removing the id of the k-th piece drops that piece and only it. */
  lemma {:induction false} WithoutIdDropsOne(bs: seq<Block>, k: int)
    requires DistinctIds(bs) && 0 <= k < |bs|
    ensures WithoutId(bs, bs[k].id) == bs[..k] + bs[k + 1..]
    ensures |WithoutId(bs, bs[k].id)| == |bs| - 1
  {
    if k == 0 {
      WithoutIdSpec(bs[1..], bs[0].id);
      assert bs[..0] + bs[1..] == bs[1..];
    } else {
      WithoutIdDropsOne(bs[1..], k - 1);
      assert bs[1..][k - 1].id == bs[k].id;
      assert bs[..k] + bs[k + 1..] == [bs[0]] + (bs[1..][..k - 1] + bs[1..][k..]);
    }
  }

  /** Removing pieces keeps the remaining identities distinct. */
  lemma {:induction false} WithoutIdKeepsDistinct(bs: seq<Block>, id: int)
    requires DistinctIds(bs)
    ensures DistinctIds(WithoutId(bs, id))
  {
    if bs != [] {
      assert DistinctIds(bs[1..]);
      WithoutIdKeepsDistinct(bs[1..], id);
      WithoutIdSpec(bs[1..], id);
      if bs[0].id != id {
        var rest := WithoutId(bs[1..], id);
        forall j | 0 <= j < |rest|
          ensures rest[j].id != bs[0].id
        {
          assert rest[j] in rest;
          var k :| 0 <= k < |bs[1..]| && bs[1..][k] == rest[j];
          assert bs[k + 1] == rest[j];
        }
      }
    }
  }

  /** The dealt trio: three pieces, fresh distinct ids, each one drawn definition in the theme's colour. */
  lemma DealSpec(d: Difficulty, theme: Theme, picks: seq<int>, firstId: int)
    requires ValidPicks(d, picks)
    ensures |Deal(d, theme, picks, firstId)| == 3
    ensures DistinctIds(Deal(d, theme, picks, firstId))
    ensures forall i :: 0 <= i < 3 ==>
      var b := Deal(d, theme, picks, firstId)[i];
      var def := Pool(d)[picks[i]];
      b.id == firstId + i && b.shape == def.shape && b.width == def.width && b.height == def.height &&
      b.color == ColorOf(theme, def.colorKey)
  {
  }
}
