/** surface.go: an older pixel surface with bounds-checked access. Its text
    and box routines are line-for-line the ones of drawing.go applied to its
    own grid (its `SetValue` rejects exactly the points `SetRGBA` ignores),
    so they reuse that module's layout arithmetic. */
module Surface {
  import opened GoInt
  import opened Wrappers
  import opened Colors
  import opened Glyphs
  import Drawing

  /** `ColorFromHex` slices `s[0:2]`, `s[2:4]`, `s[4:6]` and hex-decodes each;
      a short string or a bad digit makes Go panic (slice bounds, or indexing
      the empty result of a failed decode), modelled as `None`. */
  function HexDigit(c: char): (v: Option<nat>)
    ensures v.Some? ==> v.value < 16
  {
    if '0' <= c <= '9' then Some(c as int - '0' as int)
    else if 'a' <= c <= 'f' then Some(c as int - 'a' as int + 10)
    else if 'A' <= c <= 'F' then Some(c as int - 'A' as int + 10)
    else None
  }

  function HexByte(hi: char, lo: char): (b: Option<uint8>)
    ensures b.Some? <==> HexDigit(hi).Some? && HexDigit(lo).Some?
  {
    match (HexDigit(hi), HexDigit(lo))
    case (Some(h), Some(l)) => Some((h * 16 + l) as uint8)
    case _ => None
  }

  function ColorFromHex(s: string): (c: Option<RGBA>)
    ensures c.Some? <==> |s| >= 6 && forall i :: 0 <= i < 6 ==> HexDigit(s[i]).Some?
    ensures c.Some? ==> c.value.a == 255
  {
    if |s| < 6 then None
    else match (HexByte(s[0], s[1]), HexByte(s[2], s[3]), HexByte(s[4], s[5]))
      case (Some(r), Some(g), Some(b)) => Some(RGBA(r, g, b, 255))
      case _ => None
  }

  /** The lower-case hex digit for a value below 16. */
  function HexChar(v: nat): (c: char)
    requires v < 16
    ensures HexDigit(c) == Some(v)
  {
    if v < 10 then ('0' as int + v) as char else ('a' as int + v - 10) as char
  }

  /** The six-digit "rrggbb" form of a colour's channels. */
  function HexOf(c: RGBA): (s: string)
    ensures |s| == 6
  {
    [HexChar(c.r as nat / 16), HexChar(c.r as nat % 16),
     HexChar(c.g as nat / 16), HexChar(c.g as nat % 16),
     HexChar(c.b as nat / 16), HexChar(c.b as nat % 16)]
  }

  /** Decoding the hex form of a colour gives back its channels, opaque. */
  lemma ColorFromHexRoundTrip(c: RGBA, rest: string)
    ensures ColorFromHex(HexOf(c) + rest) == Some(RGBA(c.r, c.g, c.b, 255))
  {
    var s := HexOf(c) + rest;
    assert HexByte(s[0], s[1]) == Some(c.r);
    assert HexByte(s[2], s[3]) == Some(c.g);
    assert HexByte(s[4], s[5]) == Some(c.b);
  }

  class Surface {
    const Width: nat
    const Height: nat
    const Midpoint: nat
    const Grid: array2<RGBA>
    const glyphs: GlyphService

    /** The grid has `Height` rows of `Width` cells. */
    ghost predicate Valid() {
      Grid.Length0 == Height && Grid.Length1 == Width
    }

    /** `NewSurface`: a zeroed grid and a fresh font. */
    constructor (width: nat, height: nat)
      ensures Valid() && fresh(Grid) && fresh(glyphs)
      ensures Width == width && Height == height && Midpoint == width / 2
      ensures forall y, x :: 0 <= y < height && 0 <= x < width ==> Grid[y, x] == Zero
      ensures glyphs.glyphs == map['a' := MakeGlyph('a', LetterA)] && glyphs.unknown == Unknown
    {
      Width := width;
      Midpoint := width / 2;
      Height := height;
      Grid := new RGBA[height, width]((_, _) => Zero);
      glyphs := new GlyphService();
    }

    predicate InBounds(x: int, y: int) {
      0 <= x < Width && 0 <= y < Height
    }

    /** `GetValue`: the cell at (x, y), or an error outside the grid. */
    function GetValue(x: int, y: int): (r: Result<RGBA>)
      requires Valid()
      reads Grid
      ensures r.Ok? <==> InBounds(x, y)
      ensures r.Ok? ==> r.value == Grid[y, x]
    {
      if x < 0 || x >= Width || y < 0 || y >= Height then Err("Surface.GetValue out of bounds.")
      else Ok(Grid[y, x])
    }

    /** `SetValue`: writes one cell; outside the grid it reports an error and
        changes nothing. */
    method SetValue(x: int, y: int, p: RGBA) returns (ok: bool)
      requires Valid()
      modifies Grid
      ensures ok <==> InBounds(x, y)
      ensures forall yy, xx :: 0 <= yy < Height && 0 <= xx < Width ==>
                Grid[yy, xx] == if xx == x && yy == y then p else old(Grid[yy, xx])
    {
      if x < 0 || x >= Width || y < 0 || y >= Height {
        return false;
      }
      Grid[y, x] := p;
      return true;
    }

    /** `WriteString` with this surface's font. */
    method WriteString(str: string, c: RGBA, align: Drawing.Alignment, x: int, y: int)
      requires Valid()
      modifies Grid
      ensures forall yy, xx :: 0 <= yy < Height && 0 <= xx < Width ==>
                Grid[yy, xx] ==
                  var origin := Drawing.Origin(align, x, Drawing.TextWidth(Drawing.GlyphsFor(glyphs.glyphs, glyphs.unknown, str)));
                  if Drawing.StringCovers(Drawing.Slots(glyphs.glyphs, glyphs.unknown, str), origin, y, xx, yy)
                  then c else old(Grid[yy, xx])
    {
      Drawing.WriteString(Grid, glyphs, str, c, align, x, y);
    }

    /** `WriteStringBoxed` with this surface's font. */
    method WriteStringBoxed(str: string, c: RGBA, align: Drawing.Alignment, x: int, y: int, max: int)
      requires Valid()
      modifies Grid
      ensures forall yy, xx :: 0 <= yy < Height && 0 <= xx < Width ==>
                Grid[yy, xx] ==
                  var gs := Drawing.GlyphsFor(glyphs.glyphs, glyphs.unknown, str);
                  var kept := Drawing.Slots(glyphs.glyphs, glyphs.unknown, str[..Drawing.BoxedCount(gs, max)]);
                  if Drawing.StringCovers(kept, Drawing.Origin(align, x, Drawing.BoxedWidth(gs, max)), y, xx, yy)
                  then c else old(Grid[yy, xx])
    {
      Drawing.WriteStringBoxed(Grid, glyphs, str, c, align, x, y, max);
    }

    method WriteGlyph(g: Glyph, c: RGBA, x: int, y: int)
      requires Valid()
      modifies Grid
      ensures forall yy, xx :: 0 <= yy < Height && 0 <= xx < Width ==>
                Grid[yy, xx] == if Drawing.GlyphCovers(g, xx - x, yy - y) then c else old(Grid[yy, xx])
    {
      Drawing.WriteGlyph(Grid, g, c, x, y);
    }

    /** `Clear`: every cell becomes opaque black. */
    method Clear()
      requires Valid()
      modifies Grid
      ensures forall yy, xx :: 0 <= yy < Height && 0 <= xx < Width ==> Grid[yy, xx] == OpaqueBlack
    {
      var blank := RGBA(0, 0, 0, 255);
      for j := 0 to Height
        invariant forall yy, xx :: 0 <= yy < Height && 0 <= xx < Width ==>
                    Grid[yy, xx] == if yy < j then blank else old(Grid[yy, xx])
      {
        for i := 0 to Width
          invariant forall yy, xx :: 0 <= yy < Height && 0 <= xx < Width ==>
                      Grid[yy, xx] == if yy < j || (yy == j && xx < i) then blank else old(Grid[yy, xx])
        {
          var _ := SetValue(i, j, blank);
        }
      }
    }

    method DrawBox(c: RGBA, x: int, y: int, width: int, height: int)
      requires Valid()
      modifies Grid
      ensures forall yy, xx :: 0 <= yy < Height && 0 <= xx < Width ==>
                Grid[yy, xx] == if x <= xx < x + width && y <= yy < y + height then c else old(Grid[yy, xx])
    {
      Drawing.DrawBox(Grid, c, x, y, width, height);
    }

    method DrawEmptyBox(c: RGBA, x: int, y: int, width: int, height: int)
      requires Valid()
      modifies Grid
      ensures forall yy, xx :: 0 <= yy < Height && 0 <= xx < Width ==>
                Grid[yy, xx] == if Drawing.OnOutline(x, y, width, height, xx, yy) then c else old(Grid[yy, xx])
    {
      Drawing.DrawEmptyBox(Grid, c, x, y, width, height);
    }
  }

  /** An in-bounds `SetValue` is read back by `GetValue`, and every other cell
      reads as before. */
  method SetThenGet(s: Surface, x: int, y: int, p: RGBA, x2: int, y2: int)
    requires s.Valid() && s.InBounds(x, y) && s.InBounds(x2, y2) && (x2 != x || y2 != y)
    modifies s.Grid
    ensures s.GetValue(x, y) == Ok(p)
    ensures s.GetValue(x2, y2) == old(s.GetValue(x2, y2))
  {
    var before := s.GetValue(x2, y2);
    var ok := s.SetValue(x, y, p);
    assert ok;
    assert s.GetValue(x, y) == Ok(p);
    assert s.GetValue(x2, y2) == before;
  }
}
