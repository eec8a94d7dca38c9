/** ShrubSpritesMap: the sprites for tender and tough shrubs, handed out round-robin by
  * two independent cursors.
  */
module ShrubSprites {

  /** The six shrub images. */
  datatype Sprite = TenderShrub1 | TenderShrub2 | TenderShrub3 | ToughShrub1 | ToughShrub2 | ToughShrub3

  /** The cursor after handing out the sprite at `i` from `n` sprites: one further,
    * back to 0 once it reaches the end.
    */
  function Advance(i: nat, n: nat): (next: nat)
    requires i < n
    ensures next < n
    ensures next == (i + 1) % n
  {
    if i + 1 >= n then
      assert i + 1 == n && (i + 1) % n == 0;
      0
    else
      assert (i + 1) / n == 0;
      i + 1
  }

  /** The cursor after `k` calls. */
  function AdvanceTimes(i: nat, n: nat, k: nat): (c: nat)
    requires i < n
    ensures c < n
  {
    if k == 0 then i else Advance(AdvanceTimes(i, n, k - 1), n)
  }

  /** Within one turn of the cycle, k calls move the cursor k places, wrapping past the
    * end; so n calls bring it back to where it started.
    */
  lemma {:induction false} AdvanceTimesWraps(i: nat, n: nat, k: nat)
    requires i < n && k <= n
    ensures AdvanceTimes(i, n, k) == if i + k < n then i + k else i + k - n
    ensures k == n ==> AdvanceTimes(i, n, k) == i
    decreases k
  {
    if k > 0 {
      AdvanceTimesWraps(i, n, k - 1);
    }
  }

  class ShrubSpritesMap {
    const tenderSprites: seq<Sprite>
    var tenderSpritesIndex: nat
    const toughSprites: seq<Sprite>
    var toughSpritesIndex: nat

    ghost predicate Valid()
      reads this
    {
      |tenderSprites| == 3 && |toughSprites| == 3
      && tenderSpritesIndex < |tenderSprites| && toughSpritesIndex < |toughSprites|
    }

    constructor ()
      ensures Valid()
      ensures tenderSprites == [TenderShrub1, TenderShrub2, TenderShrub3]
      ensures toughSprites == [ToughShrub1, ToughShrub2, ToughShrub3]
      ensures tenderSpritesIndex == 0 && toughSpritesIndex == 0
    {
      tenderSprites := [TenderShrub1, TenderShrub2, TenderShrub3];
      tenderSpritesIndex := 0;
      toughSprites := [ToughShrub1, ToughShrub2, ToughShrub3];
      toughSpritesIndex := 0;
    }

    /** All six sprites: the tender ones, then the tough ones. */
    function GetSprites(): (sprites: seq<Sprite>)
      reads this
      requires Valid()
      ensures |sprites| == 6
      ensures forall s :: s in sprites <==> s in tenderSprites || s in toughSprites
      ensures sprites[..3] == tenderSprites && sprites[3..] == toughSprites
    {
      tenderSprites + toughSprites
    }

    method GetNextTenderSprite() returns (sprite: Sprite)
      requires Valid()
      modifies this`tenderSpritesIndex
      ensures Valid()
      ensures sprite == tenderSprites[old(tenderSpritesIndex)]
      ensures tenderSpritesIndex == Advance(old(tenderSpritesIndex), |tenderSprites|)
      ensures toughSpritesIndex == old(toughSpritesIndex)
    {
      sprite := tenderSprites[tenderSpritesIndex];
      tenderSpritesIndex := tenderSpritesIndex + 1;
      if tenderSpritesIndex >= |tenderSprites| {
        tenderSpritesIndex := 0;
      }
    }

    method GetNextToughSprite() returns (sprite: Sprite)
      requires Valid()
      modifies this`toughSpritesIndex
      ensures Valid()
      ensures sprite == toughSprites[old(toughSpritesIndex)]
      ensures toughSpritesIndex == Advance(old(toughSpritesIndex), |toughSprites|)
      ensures tenderSpritesIndex == old(tenderSpritesIndex)
    {
      sprite := toughSprites[toughSpritesIndex];
      toughSpritesIndex := toughSpritesIndex + 1;
      if toughSpritesIndex >= |toughSprites| {
        toughSpritesIndex := 0;
      }
    }

    /** Three calls in a row hand out the three tender sprites in cyclic order from the
      * cursor and leave the cursor where it was; the tough cursor does not move.
      */
    method CycleTenderSprites() returns (a: Sprite, b: Sprite, c: Sprite)
      requires Valid()
      modifies this`tenderSpritesIndex
      ensures Valid()
      ensures tenderSpritesIndex == old(tenderSpritesIndex)
      ensures toughSpritesIndex == old(toughSpritesIndex)
      ensures [a, b, c] == (tenderSprites + tenderSprites)[old(tenderSpritesIndex)..old(tenderSpritesIndex) + 3]
    {
      a := GetNextTenderSprite();
      b := GetNextTenderSprite();
      c := GetNextTenderSprite();
    }
  }
}
