/** pixel.go: an unchecked grid of RGB pixels. */
module Pixel {
  import opened GoInt

  datatype Pixel = Pixel(R: uint8, G: uint8, B: uint8)

  const ZeroPixel := Pixel(0, 0, 0)

  class PixelGrid {
    const Width: nat
    const Height: nat
    const Grid: array2<Pixel>

    ghost predicate Valid() {
      Grid.Length0 == Height && Grid.Length1 == Width
    }

    /** `NewPixelGrid`: `Height` rows of `Width` zero pixels. */
    constructor (width: nat, height: nat)
      ensures Valid() && fresh(Grid)
      ensures Width == width && Height == height
      ensures forall y, x :: 0 <= y < height && 0 <= x < width ==> Grid[y, x] == ZeroPixel
    {
      Width := width;
      Height := height;
      Grid := new Pixel[height, width]((_, _) => ZeroPixel);
    }

    /** `GetValue` indexes without a bounds check, so Go panics outside the
        grid: the caller must stay inside it. */
    function GetValue(x: nat, y: nat): (p: Pixel)
      requires Valid() && x < Width && y < Height
      reads Grid
      ensures p == Grid[y, x]
    {
      Grid[y, x]
    }

    /** `SetValue`: only cell (x, y) changes. */
    method SetValue(x: nat, y: nat, p: Pixel)
      requires Valid() && x < Width && y < Height
      modifies Grid
      ensures GetValue(x, y) == p
      ensures forall yy, xx :: 0 <= yy < Height && 0 <= xx < Width && (xx != x || yy != y) ==>
                Grid[yy, xx] == old(Grid[yy, xx])
    {
      Grid[y, x] := p;
    }
  }
}
