/**
 * Tube: one obstacle, a downward-facing tube above and an upward-facing
 * tube below with a fixed-height gap between them. The gap's height above
 * the ground is random; a tube that has scrolled past the player is
 * recycled by `Reposition` rather than recreated.
 *
 * The random draw `rand.nextInt(FLUCTUATION)` is a parameter `r` with
 * `0 <= r < FLUCTUATION`.
 */
module Tubes {
  import opened Geometry

  const TUBE_WIDTH: int := 52
  const FLUCTUATION: int := 130
  const TUBE_GAP: int := 100
  const LOWEST_OPENING: int := 120

  /** Height of the top tube's lower edge for the random draw `r`. */
  function OpeningTop(r: int): (y: int)
    requires 0 <= r < FLUCTUATION
    ensures TUBE_GAP + LOWEST_OPENING <= y < TUBE_GAP + LOWEST_OPENING + FLUCTUATION
    ensures 220 <= y <= 349
  {
    r + TUBE_GAP + LOWEST_OPENING
  }

  /** Every height in [220, 349] is reachable by exactly one draw. */
  lemma OpeningTopOnto(y: int)
    requires 220 <= y <= 349
    ensures exists r :: 0 <= r < FLUCTUATION && OpeningTop(r) == y
    ensures forall r :: 0 <= r < FLUCTUATION && OpeningTop(r) == y ==> r == y - 220
  {
    assert OpeningTop(y - 220) == y;
  }

  class Tube {
    const topTube: Texture
    const bottomTube: Texture
    var posTopTube: Vec2
    var posBotTube: Vec2
    var boundsTop: Rect
    var boundsBot: Rect

    /**
     * Both tubes share one x; the top tube sits at a drawn opening height;
     * the bottom tube hangs `TUBE_GAP` below it, measured from its upper
     * edge; each box sits on its tube with its texture's size.
     */
    ghost predicate Valid()
      reads this
    {
      posBotTube.x == posTopTube.x &&
      posTopTube.y == posTopTube.y.Floor as real &&
      220.0 <= posTopTube.y <= 349.0 &&
      posBotTube.y == posTopTube.y - TUBE_GAP as real - bottomTube.height as real &&
      boundsTop == Rect(posTopTube.x, posTopTube.y, topTube.width as real, topTube.height as real) &&
      boundsBot == Rect(posBotTube.x, posBotTube.y, bottomTube.width as real, bottomTube.height as real)
    }

    /** Places a new tube pair at `x`, using the draw `r` for the opening. */
    constructor (x: real, topTube: Texture, bottomTube: Texture, r: int)
      requires 0 <= r < FLUCTUATION
      ensures Valid()
      ensures this.topTube == topTube && this.bottomTube == bottomTube
      ensures posTopTube == Vec2(x, OpeningTop(r) as real)
      ensures posBotTube == Vec2(x, OpeningTop(r) as real - TUBE_GAP as real - bottomTube.height as real)
    {
      this.topTube := topTube;
      this.bottomTube := bottomTube;
      var top := Vec2(x, (r + TUBE_GAP + LOWEST_OPENING) as real);
      var bot := Vec2(x, top.y - TUBE_GAP as real - bottomTube.height as real);
      posTopTube := top;
      posBotTube := bot;
      boundsTop := Rect(top.x, top.y, topTube.width as real, topTube.height as real);
      boundsBot := Rect(bot.x, bot.y, bottomTube.width as real, bottomTube.height as real);
    }

    /**
     * Recycles the pair: moves it to `x` with a fresh opening from the draw
     * `r`. The textures and the box sizes stay as they were.
     */
    method Reposition(x: real, r: int)
      requires Valid()
      requires 0 <= r < FLUCTUATION
      modifies this
      ensures Valid()
      ensures posTopTube == Vec2(x, OpeningTop(r) as real)
      ensures posBotTube == Vec2(x, OpeningTop(r) as real - TUBE_GAP as real - bottomTube.height as real)
      ensures boundsTop.x == x && boundsTop.y == posTopTube.y
      ensures boundsBot.x == x && boundsBot.y == posBotTube.y
      ensures boundsTop.width == old(boundsTop.width) && boundsTop.height == old(boundsTop.height)
      ensures boundsBot.width == old(boundsBot.width) && boundsBot.height == old(boundsBot.height)
    {
      posTopTube := Vec2(x, (r + TUBE_GAP + LOWEST_OPENING) as real);
      posBotTube := Vec2(x, posTopTube.y - TUBE_GAP as real - bottomTube.height as real);
      boundsTop := boundsTop.SetPosition(posTopTube.x, posTopTube.y);
      boundsBot := boundsBot.SetPosition(posBotTube.x, posBotTube.y);
    }

    /**
     * Whether the player's box hits either tube of the pair. A hit means
     * the box reaches into the tubes' column and out of the gap, below its
     * floor or above its ceiling.
     */
    predicate Collides(player: Rect): (c: bool)
      reads this
      ensures c && Valid() ==> player.x + player.width > posTopTube.x
      ensures c && Valid() ==> player.y < posTopTube.y - TUBE_GAP as real || player.y + player.height > posTopTube.y
    {
      Overlaps(player, boundsTop) || Overlaps(player, boundsBot)
    }

    /** Height of the bottom tube's upper edge: the floor of the gap. */
    function GapFloor(): (y: real)
      reads this
      requires Valid()
      ensures y + TUBE_GAP as real == posTopTube.y
      ensures boundsBot.y + boundsBot.height == y
      ensures 120.0 <= y <= 249.0
    {
      posBotTube.y + bottomTube.height as real
    }

    /**
     * A player box that lies vertically inside the gap (on or above its
     * floor, on or below its ceiling) collides with neither tube, wherever
     * it is horizontally.
     */
    lemma PassesThroughGap(player: Rect)
      requires Valid()
      requires player.height >= 0.0
      requires GapFloor() <= player.y && player.y + player.height <= posTopTube.y
      ensures !Collides(player)
    {
      SeparatedVerticallyNoOverlap(player, boundsTop);
      SeparatedVerticallyNoOverlap(player, boundsBot);
    }

    /**
     * A player box entirely to the left of the pair's x, or entirely to the
     * right of both tubes, collides with neither tube.
     */
    lemma ClearOfColumn(player: Rect)
      requires Valid()
      requires player.width >= 0.0
      requires player.x + player.width <= posTopTube.x ||
               (player.x >= posTopTube.x + topTube.width as real && player.x >= posTopTube.x + bottomTube.width as real)
      ensures !Collides(player)
    {
    }

    /**
     * The gap admits nothing taller than `TUBE_GAP`: a box that meets the
     * tubes' column horizontally, spans more than the gap, and reaches
     * between the bottom tube's foot and the top tube's crown hits one of
     * the two tubes.
     */
    lemma TallerThanGapCollides(player: Rect)
      requires Valid()
      requires player.x < boundsTop.x + boundsTop.width && player.x + player.width > boundsTop.x
      requires player.x < boundsBot.x + boundsBot.width && player.x + player.width > boundsBot.x
      requires player.height > TUBE_GAP as real
      requires boundsBot.y < player.y + player.height && player.y < boundsTop.y + boundsTop.height
      ensures Collides(player)
    {
      if player.y < GapFloor() {
        assert Overlaps(player, boundsBot);
      } else {
        assert Overlaps(player, boundsTop);
      }
    }
  }
}
