/** The bitmap font of glyphs.go: a registry of glyphs keyed by character,
    with a checkerboard glyph for characters that were never registered. */
module Glyphs {
  import opened GoInt

  /** A character's bitmap: `Layout[j][i] != 0` lights column `i` of row `j`. */
  datatype Glyph = Glyph(character: char, width: int, layout: seq<seq<uint8>>)

  /** The zero `Glyph{}`. */
  const ZeroGlyph := Glyph(0 as char, 0, [])

  /** The glyph `Register` builds: its width is that of the first row. */
  function MakeGlyph(c: char, layout: seq<seq<uint8>>): (g: Glyph)
    requires |layout| > 0
    ensures g.character == c && g.layout == layout && g.width == |layout[0]|
  {
    Glyph(c, |layout[0]|, layout)
  }

  /** The checkerboard shown for an unregistered character. */
  const Unknown := Glyph(0 as char, 5, [
    [1, 0, 1, 0, 1],
    [0, 1, 0, 1, 0],
    [1, 0, 1, 0, 1],
    [0, 1, 0, 1, 0],
    [1, 0, 1, 0, 1],
    [0, 1, 0, 1, 0],
    [1, 0, 1, 0, 1],
    [0, 1, 0, 1, 0]])

  const LetterA: seq<seq<uint8>> := [
    [0, 1, 1, 1, 0],
    [1, 0, 0, 0, 1],
    [1, 0, 0, 0, 1],
    [1, 1, 1, 1, 1],
    [1, 0, 0, 0, 1],
    [1, 0, 0, 0, 1],
    [1, 0, 0, 0, 1]]

  /** The unknown glyph is 5 wide and 8 tall, and a cell is lit exactly when
      the sum of its coordinates is even. */
  lemma UnknownIsCheckerboard()
    ensures Unknown.width == 5 && |Unknown.layout| == 8
    ensures forall j :: 0 <= j < 8 ==> |Unknown.layout[j]| == 5
    ensures forall j, i :: 0 <= j < 8 && 0 <= i < 5 ==>
              (Unknown.layout[j][i] == 1 <==> (i + j) % 2 == 0)
    ensures forall j, i :: 0 <= j < 8 && 0 <= i < 5 ==>
              (Unknown.layout[j][i] == 0 <==> (i + j) % 2 == 1)
  {
    var even: seq<uint8> := [1, 0, 1, 0, 1];
    var odd: seq<uint8> := [0, 1, 0, 1, 0];
    forall j, i | 0 <= j < 8 && 0 <= i < 5
      ensures Unknown.layout[j][i] == (if (i + j) % 2 == 0 then 1 else 0)
    {
      assert Unknown.layout[j] == if j % 2 == 0 then even else odd;
    }
  }

  /** The lookup `GetGlyph` performs on a registry's contents. */
  function Lookup(table: map<char, Glyph>, unknown: Glyph, c: char): (g: Glyph)
    ensures c in table ==> g == table[c]
    ensures c !in table ==> g == unknown
  {
    if c in table then table[c] else unknown
  }

  /** Registering `c` makes the lookup of `c` return the new glyph and leaves
      the lookup of every other character as it was. */
  lemma RegisterThenLookup(table: map<char, Glyph>, unknown: Glyph, c: char,
                           layout: seq<seq<uint8>>, d: char)
    requires |layout| > 0
    ensures Lookup(table[c := MakeGlyph(c, layout)], unknown, d)
            == if d == c then MakeGlyph(c, layout) else Lookup(table, unknown, d)
  {
  }

  /** `GlyphService`: the registry and its fallback glyph. */
  class GlyphService {
    var glyphs: map<char, Glyph>
    var unknown: Glyph

    /** `NewGlyphService`: registers `a` and installs the checkerboard. */
    constructor ()
      ensures glyphs == map['a' := MakeGlyph('a', LetterA)]
      ensures unknown == Unknown
    {
      glyphs := map[];
      unknown := ZeroGlyph;
      new;
      Register('a', LetterA);
      unknown := Unknown;
    }

    /** Stores the glyph for `c`, replacing any earlier one. Go indexes
        `layout[0]`, so an empty layout panics there. */
    method Register(c: char, layout: seq<seq<uint8>>)
      requires |layout| > 0
      modifies this
      ensures glyphs == old(glyphs)[c := MakeGlyph(c, layout)]
      ensures unknown == old(unknown)
    {
      var g := Glyph(c, |layout[0]|, layout);
      glyphs := glyphs[c := g];
    }

    /** The registered glyph for `c`, or the unknown glyph. */
    function GetGlyph(c: char): (g: Glyph)
      reads this
      ensures g == Lookup(glyphs, unknown, c)
      ensures c !in glyphs ==> g == unknown
    {
      if c in glyphs then glyphs[c] else unknown
    }
  }
}
