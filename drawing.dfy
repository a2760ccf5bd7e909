/** drawing.go: text and box drawing on an `image.RGBA`. The image is an
    `array2<RGBA>` indexed `[y, x]` whose bounds start at (0, 0); like
    `image.RGBA.SetRGBA`, every write outside the bounds is silently dropped.
    The text-layout arithmetic defined here is shared with surface.go, which
    carries an identical copy of it. */
module Drawing {
  import opened GoInt
  import opened Fmt
  import opened Colors
  import opened Glyphs

  datatype Alignment = AlignLeft | AlignCenter | AlignRight

  predicate InBounds(img: array2<RGBA>, x: int, y: int) {
    0 <= x < img.Length1 && 0 <= y < img.Length0
  }

  /** `image.RGBA.SetRGBA`: writes one pixel, ignoring out-of-bounds points. */
  method SetRGBA(img: array2<RGBA>, x: int, y: int, c: RGBA)
    modifies img
    ensures forall yy, xx :: 0 <= yy < img.Length0 && 0 <= xx < img.Length1 ==>
              img[yy, xx] == if xx == x && yy == y then c else old(img[yy, xx])
  {
    if InBounds(img, x, y) {
      img[y, x] := c;
    }
  }

  // ---------------------------------------------------------------------
  // Text layout

  /** Cell (i, j) of a glyph is lit. */
  predicate GlyphCovers(g: Glyph, i: int, j: int) {
    0 <= j < |g.layout| && 0 <= i < |g.layout[j]| && g.layout[j][i] != 0
  }

  /** The horizontal space a run of glyphs takes, one column of kerning after each. */
  function Advance(gs: seq<Glyph>): int {
    if gs == [] then 0 else Advance(gs[..|gs| - 1]) + gs[|gs| - 1].width + 1
  }

  /** The width `WriteString` aligns by: the advance minus the last kerning column. */
  function TextWidth(gs: seq<Glyph>): int {
    Advance(gs) - 1
  }

  /** Where the first glyph starts for a given alignment about `x`. */
  function Origin(align: Alignment, x: int, width: int): int {
    match align
    case AlignLeft => x
    case AlignRight => x - width + 1
    case AlignCenter => x - GoDiv(width, 2)
  }

  /** Pixel (xx, yy) is lit when the glyphs `gs` are laid out from column `ox`
      on row `y`. */
  predicate StringCovers(gs: seq<Glyph>, ox: int, y: int, xx: int, yy: int) {
    gs != [] &&
    (StringCovers(gs[..|gs| - 1], ox, y, xx, yy) ||
     GlyphCovers(gs[|gs| - 1], xx - (ox + Advance(gs[..|gs| - 1])), yy - y))
  }

  /** The glyph of each character of `s`, in order: what the width is
      measured over. */
  function GlyphsFor(table: map<char, Glyph>, unknown: Glyph, s: string): (gs: seq<Glyph>)
    ensures |gs| == |s|
    ensures forall i :: 0 <= i < |s| ==> gs[i] == Lookup(table, unknown, s[i])
  {
    seq(|s|, i requires 0 <= i < |s| => Lookup(table, unknown, s[i]))
  }

  /** The number of bytes UTF-8 encodes `c` with. */
  function Utf8Len(c: char): (n: nat)
    ensures 1 <= n <= 4
    ensures n == 1 <==> (c as int) < 0x80
  {
    if (c as int) < 0x80 then 1 else if (c as int) < 0x800 then 2 else if (c as int) < 0x10000 then 3 else 4
  }

  /** `len(s)`: the length of `s` in bytes. */
  function ByteLen(s: string): nat {
    if s == [] then 0 else ByteLen(s[..|s| - 1]) + Utf8Len(s[|s| - 1])
  }

  function Zeros(n: nat): seq<Glyph> {
    seq(n, _ => ZeroGlyph)
  }

  /** The array `make([]Glyph, len(s))` after `for i, char := range s`
      stores each glyph at `i`: a character's glyph sits at the byte where
      the character starts, and its continuation bytes keep zero glyphs. */
  function Slots(table: map<char, Glyph>, unknown: Glyph, s: string): (gs: seq<Glyph>)
    ensures |gs| == ByteLen(s)
  {
    if s == [] then []
    else Slots(table, unknown, s[..|s| - 1]) + [Lookup(table, unknown, s[|s| - 1])] + Zeros(Utf8Len(s[|s| - 1]) - 1)
  }

  lemma {:induction false} ByteLenPrefix(s: string, i: nat)
    requires i <= |s|
    ensures ByteLen(s[..i]) <= ByteLen(s)
    ensures i < |s| ==> ByteLen(s[..i + 1]) == ByteLen(s[..i]) + Utf8Len(s[i])
    decreases |s|
  {
    if i < |s| {
      assert s[..i + 1][..i] == s[..i];
    }
    if i < |s| {
      ByteLenPrefix(s[..|s| - 1], i);
      assert s[..|s| - 1][..i] == s[..i];
    } else {
      assert s[..i] == s;
    }
  }

  lemma {:induction false} ByteLenAppend(a: string, b: string)
    ensures ByteLen(a + b) == ByteLen(a) + ByteLen(b)
    decreases |b|
  {
    if b == [] {
      assert a + b == a;
    } else {
      assert (a + b)[..|a + b| - 1] == a + b[..|b| - 1];
      ByteLenAppend(a, b[..|b| - 1]);
    }
  }

  /** On ASCII text every character is one byte, and the array holds exactly
      the characters' glyphs. */
  lemma {:induction false} AsciiSlots(table: map<char, Glyph>, unknown: Glyph, s: string)
    requires forall i :: 0 <= i < |s| ==> (s[i] as int) < 0x80
    ensures Slots(table, unknown, s) == GlyphsFor(table, unknown, s)
    ensures ByteLen(s) == |s|
  {
    if s != [] {
      var init := s[..|s| - 1];
      AsciiSlots(table, unknown, init);
      assert GlyphsFor(table, unknown, s) == GlyphsFor(table, unknown, init) + [Lookup(table, unknown, s[|s| - 1])];
    }
  }

  lemma {:induction false} AdvanceAppend(a: seq<Glyph>, b: seq<Glyph>)
    ensures Advance(a + b) == Advance(a) + Advance(b)
    decreases |b|
  {
    if b == [] {
      assert a + b == a;
    } else {
      assert (a + b)[..|a + b| - 1] == a + b[..|b| - 1];
      AdvanceAppend(a, b[..|b| - 1]);
    }
  }

  lemma {:induction false} AdvanceZeros(n: nat)
    ensures Advance(Zeros(n)) == n
  {
    if n > 0 {
      assert Zeros(n)[..n - 1] == Zeros(n - 1);
      AdvanceZeros(n - 1);
    }
  }

  /** Every continuation byte's zero glyph still advances the pen one
      column: the array's advance exceeds the measured one by the number of
      continuation bytes, so text with multi-byte characters is drawn wider
      than the width it is aligned by. */
  lemma {:induction false} SlotsDrift(table: map<char, Glyph>, unknown: Glyph, s: string)
    ensures Advance(Slots(table, unknown, s)) == Advance(GlyphsFor(table, unknown, s)) + (ByteLen(s) - |s|)
  {
    if s != [] {
      var init := s[..|s| - 1];
      var g := Lookup(table, unknown, s[|s| - 1]);
      var n := Utf8Len(s[|s| - 1]) - 1;
      SlotsDrift(table, unknown, init);
      ByteLenPrefix(s, |s| - 1);
      assert init == s[..|s| - 1];
      AdvanceAppend(Slots(table, unknown, init) + [g], Zeros(n));
      AdvanceZeros(n);
      assert (Slots(table, unknown, init) + [g])[..|Slots(table, unknown, init)|] == Slots(table, unknown, init);
      assert GlyphsFor(table, unknown, s)[..|s| - 1] == GlyphsFor(table, unknown, init);
    }
  }

  /** No row of a glyph is wider than its advertised width. */
  predicate FitsWidth(g: Glyph) {
    g.width >= 0 && forall j :: 0 <= j < |g.layout| ==> |g.layout[j]| <= g.width
  }

  lemma {:induction false} AdvanceAtLeastCount(gs: seq<Glyph>)
    requires forall k :: 0 <= k < |gs| ==> gs[k].width >= 0
    ensures Advance(gs) >= |gs|
  {
    if gs != [] {
      AdvanceAtLeastCount(gs[..|gs| - 1]);
    }
  }

  /** Every lit pixel of a laid-out string lies in the columns
      `[ox, ox + TextWidth(gs) - 1]` and the rows of its glyphs. */
  lemma {:induction false} StringCoversWithinWidth(gs: seq<Glyph>, ox: int, y: int, xx: int, yy: int)
    requires forall k :: 0 <= k < |gs| ==> FitsWidth(gs[k])
    requires StringCovers(gs, ox, y, xx, yy)
    ensures ox <= xx <= ox + TextWidth(gs) - 1
  {
    var init := gs[..|gs| - 1];
    AdvanceAtLeastCount(init);
    if StringCovers(init, ox, y, xx, yy) {
      StringCoversWithinWidth(init, ox, y, xx, yy);
    }
  }

  /** Every lit pixel of text aligned about `x` lies on the side of `x` its
      alignment names: to the right of `x` for left alignment, to the left for
      right alignment, and within half the text width either side when centred. */
  lemma AlignedTextBounds(gs: seq<Glyph>, align: Alignment, x: int, y: int, xx: int, yy: int)
    requires forall k :: 0 <= k < |gs| ==> FitsWidth(gs[k])
    requires StringCovers(gs, Origin(align, x, TextWidth(gs)), y, xx, yy)
    ensures TextWidth(gs) >= 0
    ensures align == AlignLeft ==> x <= xx <= x + TextWidth(gs) - 1
    ensures align == AlignRight ==> x - TextWidth(gs) + 1 <= xx <= x
    ensures align == AlignCenter ==> x - TextWidth(gs) / 2 <= xx <= x + TextWidth(gs) / 2
  {
    AdvanceAtLeastCount(gs);
    StringCoversWithinWidth(gs, Origin(align, x, TextWidth(gs)), y, xx, yy);
  }

  /** Trailing zero glyphs (the unfilled entries of a boxed string) light nothing. */
  lemma {:induction false} ZeroGlyphsLightNothing(gs: seq<Glyph>, n: nat, ox: int, y: int, xx: int, yy: int)
    ensures StringCovers(gs + seq(n, _ => ZeroGlyph), ox, y, xx, yy) == StringCovers(gs, ox, y, xx, yy)
  {
    var longer := gs + seq(n, _ => ZeroGlyph);
    if n == 0 {
      assert longer == gs;
    } else {
      assert longer[..|longer| - 1] == gs + seq(n - 1, _ => ZeroGlyph);
      assert longer[|longer| - 1] == ZeroGlyph;
      ZeroGlyphsLightNothing(gs, n - 1, ox, y, xx, yy);
    }
  }

  // ---------------------------------------------------------------------
  // Drawing

  /** `WriteGlyph`: lights `(x + i, y + j)` exactly where `Layout[j][i] != 0`. */
  method WriteGlyph(img: array2<RGBA>, g: Glyph, c: RGBA, x: int, y: int)
    modifies img
    ensures forall yy, xx :: 0 <= yy < img.Length0 && 0 <= xx < img.Length1 ==>
              img[yy, xx] == if GlyphCovers(g, xx - x, yy - y) then c else old(img[yy, xx])
  {
    for j := 0 to |g.layout|
      invariant forall yy, xx :: 0 <= yy < img.Length0 && 0 <= xx < img.Length1 ==>
                  img[yy, xx] == if yy - y < j && GlyphCovers(g, xx - x, yy - y) then c else old(img[yy, xx])
    {
      var row := g.layout[j];
      for i := 0 to |row|
        invariant forall yy, xx :: 0 <= yy < img.Length0 && 0 <= xx < img.Length1 ==>
                    img[yy, xx] == if (yy - y < j || (yy - y == j && xx - x < i)) && GlyphCovers(g, xx - x, yy - y)
                                   then c else old(img[yy, xx])
      {
        if row[i] != 0 {
          SetRGBA(img, x + i, y + j, c);
        }
      }
    }
  }

  /** Draws the glyphs in order from column `originX`, each after the previous
      one's width and a kerning column. */
  method WriteGlyphs(img: array2<RGBA>, glyphs: seq<Glyph>, c: RGBA, originX: int, y: int)
    modifies img
    ensures forall yy, xx :: 0 <= yy < img.Length0 && 0 <= xx < img.Length1 ==>
              img[yy, xx] == if StringCovers(glyphs, originX, y, xx, yy) then c else old(img[yy, xx])
  {
    var offsetX := 0;
    for k := 0 to |glyphs|
      invariant offsetX == Advance(glyphs[..k])
      invariant forall yy, xx :: 0 <= yy < img.Length0 && 0 <= xx < img.Length1 ==>
                  img[yy, xx] == if StringCovers(glyphs[..k], originX, y, xx, yy) then c else old(img[yy, xx])
    {
      assert glyphs[..k + 1][..k] == glyphs[..k];
      WriteGlyph(img, glyphs[k], c, originX + offsetX, y);
      offsetX := offsetX + glyphs[k].width + 1;
    }
    assert glyphs[..|glyphs|] == glyphs;
  }

  /** The state of the filling loop after `i` characters: the array has one
      entry per byte of `str`, its first `b` entries (the bytes of
      `str[..i]`) are those characters' slots, and the rest are zero glyphs. */
  predicate FilledUpTo(table: map<char, Glyph>, unknown: Glyph, str: string, i: nat, b: nat, glyphs: seq<Glyph>) {
    i <= |str| && b == ByteLen(str[..i]) && |glyphs| == ByteLen(str) && b <= |glyphs| &&
    glyphs[..b] == Slots(table, unknown, str[..i]) &&
    forall j :: b <= j < |glyphs| ==> glyphs[j] == ZeroGlyph
  }

  /** The freshly made array is filled up to no character. */
  lemma FilledNothing(table: map<char, Glyph>, unknown: Glyph, str: string)
    ensures FilledUpTo(table, unknown, str, 0, 0, Zeros(ByteLen(str)))
  {
    assert str[..0] == [];
  }

  /** One step of the filling loop: storing character `i`'s glyph at its
      starting byte extends the filled prefix by that character's bytes. */
  lemma FillSlot(table: map<char, Glyph>, unknown: Glyph, str: string, i: nat, b: nat, glyphs: seq<Glyph>)
    requires FilledUpTo(table, unknown, str, i, b, glyphs) && i < |str|
    ensures b < |glyphs|
    ensures FilledUpTo(table, unknown, str, i + 1, b + Utf8Len(str[i]), glyphs[b := Lookup(table, unknown, str[i])])
  {
    ByteLenPrefix(str, i);
    ByteLenPrefix(str, i + 1);
    var g := Lookup(table, unknown, str[i]);
    var n := Utf8Len(str[i]);
    var filled := glyphs[b := g];
    assert str[..i + 1][..i] == str[..i];
    assert Slots(table, unknown, str[..i + 1]) == Slots(table, unknown, str[..i]) + [g] + Zeros(n - 1);
    assert filled[..b + n] == glyphs[..b] + [g] + Zeros(n - 1);
  }

  /** An array filled up to character `k` is the slots of `str[..k]` padded
      with zero glyphs for the bytes of the rest of `str`. */
  lemma FilledPrefix(table: map<char, Glyph>, unknown: Glyph, str: string, k: nat, b: nat, glyphs: seq<Glyph>)
    requires FilledUpTo(table, unknown, str, k, b, glyphs)
    ensures glyphs == Slots(table, unknown, str[..k]) + Zeros(ByteLen(str[k..]))
  {
    ByteLenAppend(str[..k], str[k..]);
    assert str[..k] + str[k..] == str;
    assert glyphs == glyphs[..b] + glyphs[b..];
    assert glyphs[b..] == Zeros(ByteLen(str[k..]));
  }

  /** Filled up to every character, the array is exactly the slots. */
  lemma FilledAll(table: map<char, Glyph>, unknown: Glyph, str: string, b: nat, glyphs: seq<Glyph>)
    requires FilledUpTo(table, unknown, str, |str|, b, glyphs)
    ensures glyphs == Slots(table, unknown, str)
  {
    FilledPrefix(table, unknown, str, |str|, b, glyphs);
    assert str[..|str|] == str && str[|str|..] == [];
  }

  /** Measuring one more glyph adds its width and a kerning column. */
  lemma AdvanceStep(gs: seq<Glyph>, i: nat)
    requires i < |gs|
    ensures Advance(gs[..i + 1]) == Advance(gs[..i]) + gs[i].width + 1
  {
    assert gs[..i + 1][..i] == gs[..i];
  }

  /** The measuring loop of `WriteString`: the glyph array, filled at each
      character's starting byte, and the width before the last kerning
      column is removed. */
  method CollectSlots(font: GlyphService, str: string) returns (glyphs: seq<Glyph>, width: int)
    ensures glyphs == Slots(font.glyphs, font.unknown, str)
    ensures width == Advance(GlyphsFor(font.glyphs, font.unknown, str))
  {
    ghost var gs := GlyphsFor(font.glyphs, font.unknown, str);
    glyphs := Zeros(ByteLen(str));
    width := 0;
    var b: nat := 0;
    FilledNothing(font.glyphs, font.unknown, str);
    for i := 0 to |str|
      invariant FilledUpTo(font.glyphs, font.unknown, str, i, b, glyphs)
      invariant width == Advance(gs[..i])
    {
      var g := font.GetGlyph(str[i]);
      width := width + g.width + 1;
      AdvanceStep(gs, i);
      FillSlot(font.glyphs, font.unknown, str, i, b, glyphs);
      glyphs := glyphs[b := g];
      b := b + Utf8Len(str[i]);
    }
    FilledAll(font.glyphs, font.unknown, str, b, glyphs);
    assert gs[..|str|] == gs;
  }

  /** `WriteString`: measures the string, aligns it about `x` and draws its
      glyph array, zero glyphs included. */
  method WriteString(img: array2<RGBA>, font: GlyphService, str: string, c: RGBA,
                     align: Alignment, x: int, y: int)
    modifies img
    ensures forall yy, xx :: 0 <= yy < img.Length0 && 0 <= xx < img.Length1 ==>
              img[yy, xx] ==
                var origin := Origin(align, x, TextWidth(GlyphsFor(font.glyphs, font.unknown, str)));
                if StringCovers(Slots(font.glyphs, font.unknown, str), origin, y, xx, yy) then c else old(img[yy, xx])
  {
    var glyphs, width := CollectSlots(font, str);
    // Remove the kerning on the last letter
    width := width - 1;
    var originX := Origin(align, x, width);
    WriteGlyphs(img, glyphs, c, originX, y);
  }

  /** How many glyphs a box `max` columns wide takes: the count before the
      first glyph whose advance pushes the running width past `max`. */
  function BoxedCount(gs: seq<Glyph>, max: int): (k: nat)
    ensures k <= |gs|
  {
    if gs == [] then 0
    else if Advance(gs) > max && BoxedCount(gs[..|gs| - 1], max) == |gs| - 1 then |gs| - 1
    else BoxedCount(gs[..|gs| - 1], max) + (if BoxedCount(gs[..|gs| - 1], max) == |gs| - 1 then 1 else 0)
  }

  /** `BoxedCount` is the first overflow: every shorter prefix fits and, when
      not all glyphs fit, the next one overflows. */
  lemma BoxedCountIsFirstOverflow(gs: seq<Glyph>, max: int)
    ensures forall j :: 1 <= j <= BoxedCount(gs, max) ==> Advance(gs[..j]) <= max
    ensures BoxedCount(gs, max) < |gs| ==> Advance(gs[..BoxedCount(gs, max) + 1]) > max
  {
    BoxedPrefixesFit(gs, max);
    BoxedNextOverflows(gs, max);
  }

  lemma {:induction false} BoxedPrefixesFit(gs: seq<Glyph>, max: int)
    ensures forall j :: 1 <= j <= BoxedCount(gs, max) ==> Advance(gs[..j]) <= max
  {
    if gs != [] {
      var init := gs[..|gs| - 1];
      BoxedPrefixesFit(init, max);
      var k := BoxedCount(gs, max);
      forall j | 1 <= j <= k ensures Advance(gs[..j]) <= max {
        if j <= |init| && j <= BoxedCount(init, max) {
          assert gs[..j] == init[..j];
        } else {
          assert j == |gs| && gs[..j] == gs;
        }
      }
    }
  }

  lemma {:induction false} BoxedNextOverflows(gs: seq<Glyph>, max: int)
    ensures BoxedCount(gs, max) < |gs| ==> Advance(gs[..BoxedCount(gs, max) + 1]) > max
  {
    if gs != [] {
      var init := gs[..|gs| - 1];
      BoxedNextOverflows(init, max);
      var k := BoxedCount(gs, max);
      if k < |gs| {
        if BoxedCount(init, max) < |init| {
          assert k == BoxedCount(init, max);
          assert gs[..k + 1] == init[..k + 1];
        } else {
          assert k == |init| && gs[..k + 1] == gs;
        }
      }
    }
  }

  /** One step of the boxed loop: adding glyph `i` overflows exactly when
      `i` is the count of glyphs kept. */
  lemma BoxedStep(gs: seq<Glyph>, max: int, i: nat)
    requires i < |gs| && i <= BoxedCount(gs, max)
    ensures Advance(gs[..i + 1]) == Advance(gs[..i]) + gs[i].width + 1
    ensures Advance(gs[..i + 1]) > max <==> i == BoxedCount(gs, max)
  {
    assert gs[..i + 1][..i] == gs[..i];
    BoxedCountIsFirstOverflow(gs, max);
  }

  /** The width a boxed string is aligned by: it includes the glyph that
      overflowed, when there is one. */
  function BoxedWidth(gs: seq<Glyph>, max: int): int {
    var k := BoxedCount(gs, max);
    if k < |gs| then Advance(gs[..k + 1]) - 1 else Advance(gs) - 1
  }

  /** The measuring loop of `WriteStringBoxed`: the glyph array (filled up
      to the character that overflows, zero glyphs after) and the running
      width at the stop, before the last kerning column is removed. */
  method CollectBoxed(font: GlyphService, str: string, max: int)
    returns (glyphs: seq<Glyph>, width: int)
    ensures var k := BoxedCount(GlyphsFor(font.glyphs, font.unknown, str), max);
            glyphs == Slots(font.glyphs, font.unknown, str[..k]) + Zeros(ByteLen(str[k..]))
    ensures width - 1 == BoxedWidth(GlyphsFor(font.glyphs, font.unknown, str), max)
  {
    ghost var gs := GlyphsFor(font.glyphs, font.unknown, str);
    ghost var k := BoxedCount(gs, max);
    glyphs := Zeros(ByteLen(str));
    width := 0;
    var b: nat := 0;
    var i := 0;
    FilledNothing(font.glyphs, font.unknown, str);
    while i < |str|
      invariant i <= k
      invariant FilledUpTo(font.glyphs, font.unknown, str, i, b, glyphs)
      invariant width == Advance(gs[..i])
    {
      var g := font.GetGlyph(str[i]);
      width := width + g.width + 1;
      BoxedStep(gs, max, i);
      // If we exceed how much the box can hold, stop
      if width > max {
        break;
      }
      FillSlot(font.glyphs, font.unknown, str, i, b, glyphs);
      glyphs := glyphs[b := g];
      b := b + Utf8Len(str[i]);
      i := i + 1;
    }
    assert i == k;
    assert gs[..|gs|] == gs;
    FilledPrefix(font.glyphs, font.unknown, str, k, b, glyphs);
  }

  /** `WriteStringBoxed`: like `WriteString`, but stops filling the glyph
      array at the first character that pushes the width past `max`; that
      character is not drawn but its width still counts toward the
      alignment. */
  method WriteStringBoxed(img: array2<RGBA>, font: GlyphService, str: string, c: RGBA,
                          align: Alignment, x: int, y: int, max: int)
    modifies img
    ensures forall yy, xx :: 0 <= yy < img.Length0 && 0 <= xx < img.Length1 ==>
              img[yy, xx] ==
                var gs := GlyphsFor(font.glyphs, font.unknown, str);
                var kept := Slots(font.glyphs, font.unknown, str[..BoxedCount(gs, max)]);
                if StringCovers(kept, Origin(align, x, BoxedWidth(gs, max)), y, xx, yy)
                then c else old(img[yy, xx])
  {
    ghost var gs := GlyphsFor(font.glyphs, font.unknown, str);
    ghost var k := BoxedCount(gs, max);
    ghost var kept := Slots(font.glyphs, font.unknown, str[..k]);
    var glyphs, width := CollectBoxed(font, str, max);
    // Remove the kerning on the last letter
    width := width - 1;
    var originX := Origin(align, x, width);
    WriteGlyphs(img, glyphs, c, originX, y);
    forall yy, xx ensures StringCovers(glyphs, originX, y, xx, yy) == StringCovers(kept, originX, y, xx, yy) {
      ZeroGlyphsLightNothing(kept, ByteLen(str[k..]), originX, y, xx, yy);
    }
  }

  /** `DrawBox`: fills the in-bounds part of `[x, x+width) x [y, y+height)`. */
  method DrawBox(img: array2<RGBA>, c: RGBA, x: int, y: int, width: int, height: int)
    modifies img
    ensures forall yy, xx :: 0 <= yy < img.Length0 && 0 <= xx < img.Length1 ==>
              img[yy, xx] == if x <= xx < x + width && y <= yy < y + height then c else old(img[yy, xx])
  {
    var j := y;
    while j < y + height
      invariant y <= j && (j <= y + height || j == y)
      invariant forall yy, xx :: 0 <= yy < img.Length0 && 0 <= xx < img.Length1 ==>
                  img[yy, xx] == if x <= xx < x + width && y <= yy < j then c else old(img[yy, xx])
    {
      var i := x;
      while i < x + width
        invariant x <= i && (i <= x + width || i == x)
        invariant forall yy, xx :: 0 <= yy < img.Length0 && 0 <= xx < img.Length1 ==>
                    img[yy, xx] == if x <= xx < x + width && (y <= yy < j || (yy == j && xx < i)) then c else old(img[yy, xx])
      {
        SetRGBA(img, i, j, c);
        i := i + 1;
      }
      j := j + 1;
    }
  }

  /** The outline `DrawEmptyBox` paints: the top and bottom rows over
      `[x, x+width)`, and on every row of the box the column `x` and the
      column `x + width`, one past the end of the top row. */
  predicate OnOutline(x: int, y: int, width: int, height: int, xx: int, yy: int) {
    y <= yy < y + height &&
    (((yy == y || yy == y + height - 1) && x <= xx < x + width) || xx == x || xx == x + width)
  }

  method DrawEmptyBox(img: array2<RGBA>, c: RGBA, x: int, y: int, width: int, height: int)
    modifies img
    ensures forall yy, xx :: 0 <= yy < img.Length0 && 0 <= xx < img.Length1 ==>
              img[yy, xx] == if OnOutline(x, y, width, height, xx, yy) then c else old(img[yy, xx])
  {
    var j := y;
    while j < y + height
      invariant y <= j && (j <= y + height || j == y)
      invariant forall yy, xx :: 0 <= yy < img.Length0 && 0 <= xx < img.Length1 ==>
                  img[yy, xx] == if yy < j && OnOutline(x, y, width, height, xx, yy) then c else old(img[yy, xx])
    {
      if j == y || j == y + height - 1 {
        var i := x;
        while i < x + width
          invariant x <= i && (i <= x + width || i == x)
          invariant forall yy, xx :: 0 <= yy < img.Length0 && 0 <= xx < img.Length1 ==>
                      img[yy, xx] == if (yy < j && OnOutline(x, y, width, height, xx, yy)) || (yy == j && x <= xx < i)
                                     then c else old(img[yy, xx])
        {
          SetRGBA(img, i, j, c);
          i := i + 1;
        }
      }
      SetRGBA(img, x, j, c);
      SetRGBA(img, x + width, j, c);
      j := j + 1;
    }
  }

  /** The message `DrawError` shows: "E #ss-cc", both numbers as `%02d`. */
  function ErrorMessage(space: int, code: int): (msg: string)
    ensures 0 <= space < 100 && 0 <= code < 100 ==>
              msg == "E #" + [DigitChar(space / 10), DigitChar(space % 10)] + "-"
                           + [DigitChar(code / 10), DigitChar(code % 10)]
    ensures 0 <= space < 100 && 0 <= code < 100 ==> |msg| == 8
    ensures forall i :: 0 <= i < |msg| ==> (msg[i] as int) < 0x80
  {
    Pad2Digits(space);
    Pad2Digits(code);
    "E #" + Pad2(space) + "-" + Pad2(code)
  }

  /** `DrawError`: the message in yellow, left-aligned at the top-left corner. */
  method DrawError(img: array2<RGBA>, font: GlyphService, space: int, code: int)
    modifies img
    ensures forall yy, xx :: 0 <= yy < img.Length0 && 0 <= xx < img.Length1 ==>
              img[yy, xx] ==
                if StringCovers(Slots(font.glyphs, font.unknown, ErrorMessage(space, code)), 0, 0, xx, yy)
                then Yellow else old(img[yy, xx])
  {
    var msg := "E #" + Pad2(space) + "-" + Pad2(code);
    WriteString(img, font, msg, Yellow, AlignLeft, 0, 0);
  }

  /** `GetLeftOfCenterX`: half the image width, rounded down; for an even
      width this is the left one of the two middle columns. */
  function GetLeftOfCenterX(img: array2<RGBA>): (x: int)
    ensures 0 <= x <= img.Length1
    ensures img.Length1 > 0 ==> x < img.Length1
    ensures 2 * x == img.Length1 || 2 * x + 1 == img.Length1
  {
    img.Length1 / 2
  }
}
