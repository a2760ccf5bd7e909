/** engagementslide.go: a banner bouncing around the screen, changing
    colour every frame. */
module Engagement {
  import opened Colors

  /** The six banner colours, in order. */
  const BannerColors: seq<RGBA> := [
    RGBA(255, 255, 255, 255), RGBA(255, 255, 0, 255), RGBA(255, 0, 255, 255),
    RGBA(0, 255, 255, 255), RGBA(0, 255, 0, 255), RGBA(255, 0, 0, 255)]

  const Banner := "SHE SAID YES!!!"

  /** The bottom-most row the banner may start at: 32 rows less its 7. */
  const YMax := 32 - 7

  /** A direction is one step either way. */
  predicate Unit(d: int) {
    d == 1 || d == -1
  }

  /** One coordinate of a `Draw`: step, then turn around at or past either
      edge. */
  function Bounce(pos: int, dir: int, max: int): (r: (int, int))
    ensures r.0 == pos + dir
    ensures r.1 == if r.0 <= 0 || r.0 >= max then -dir else dir
  {
    var p := pos + dir;
    (p, if p <= 0 || p >= max then -dir else dir)
  }

  /** Inside `[0, max]` and heading away from an edge it touches. */
  predicate Travelling(pos: int, dir: int, max: int) {
    Unit(dir) && 0 <= pos <= max && (pos == 0 ==> dir == 1) && (pos == max ==> dir == -1)
  }

  /** Bouncing keeps a coordinate inside `[0, max]` whenever `max >= 1`. */
  lemma BounceStaysInside(pos: int, dir: int, max: int)
    requires max >= 1 && Travelling(pos, dir, max)
    ensures Travelling(Bounce(pos, dir, max).0, Bounce(pos, dir, max).1, max)
  {
  }

  class EngagementSlide {
    var xPos: int
    var yPos: int
    var xDir: int
    var yDir: int
    var cIndex: int
    /** `128 - GetDisplayWidth(str)`: the right-most column the banner may
        start at, given the width of its glyphs in the font. */
    const XMax: int

    predicate Valid()
      reads this
    {
      Unit(xDir) && Unit(yDir) && 0 <= cIndex < |BannerColors|
    }

    /** The banner stays on screen. */
    predicate OnScreen()
      reads this
    {
      Travelling(xPos, xDir, XMax) && Travelling(yPos, yDir, YMax)
    }

    /** `NewEngagementSlide`: at the origin, heading down and right. */
    constructor (bannerWidth: int)
      ensures Valid() && xPos == 0 && yPos == 0 && xDir == 1 && yDir == 1 && cIndex == 0
      ensures XMax == 128 - bannerWidth
      ensures bannerWidth <= 127 ==> OnScreen()
    {
      XMax := 128 - bannerWidth;
      xPos, yPos := 0, 0;
      xDir, yDir := 1, 1;
      cIndex := 0;
    }

    /** `Draw`: one step of the bounce and the next colour; returns where the
        banner is written and in which colour. */
    method Draw() returns (x: int, y: int, c: RGBA)
      requires Valid()
      modifies this
      ensures Valid()
      ensures (xPos, xDir) == Bounce(old(xPos), old(xDir), XMax)
      ensures (yPos, yDir) == Bounce(old(yPos), old(yDir), YMax)
      ensures cIndex == (old(cIndex) + 1) % |BannerColors|
      ensures x == xPos && y == yPos && c == BannerColors[cIndex]
      ensures XMax >= 1 && old(OnScreen()) ==> OnScreen()
    {
      xPos := xPos + xDir;
      yPos := yPos + yDir;
      if xPos <= 0 || xPos >= XMax {
        xDir := xDir * -1;
      }
      if yPos <= 0 || yPos >= YMax {
        yDir := yDir * -1;
      }
      cIndex := (cIndex + 1) % |BannerColors|;
      if XMax >= 1 && Travelling(old(xPos), old(xDir), XMax) && Travelling(old(yPos), old(yDir), YMax) {
        BounceStaysInside(old(xPos), old(xDir), XMax);
        BounceStaysInside(old(yPos), old(yDir), YMax);
      }
      return xPos, yPos, BannerColors[cIndex];
    }
  }
}
