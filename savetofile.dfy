/** savetofiledisplay.go: the colour floor applied before a frame is rendered
    to a file. */
module SaveToFile {
  import opened GoInt
  import opened Colors

  const MinBrightness: uint8 := 40

  function Max(a: uint8, b: uint8): (m: uint8)
    ensures m >= a && m >= b
    ensures m == a || m == b
  {
    if a > b then a else b
  }

  /** `FloorColor`: every colour channel ends at least at `MinBrightness`;
      alpha is kept, and so is any channel already at the floor or above. */
  function FloorColor(c: RGBA): (f: RGBA)
    ensures f.r >= MinBrightness && f.g >= MinBrightness && f.b >= MinBrightness && f.a == c.a
    ensures (c.r >= MinBrightness ==> f.r == c.r) && (c.g >= MinBrightness ==> f.g == c.g) &&
            (c.b >= MinBrightness ==> f.b == c.b)
    ensures (c.r < MinBrightness ==> f.r == MinBrightness) && (c.g < MinBrightness ==> f.g == MinBrightness) &&
            (c.b < MinBrightness ==> f.b == MinBrightness)
  {
    RGBA(Max(c.r, MinBrightness), Max(c.g, MinBrightness), Max(c.b, MinBrightness), c.a)
  }

  lemma FloorColorIdempotent(c: RGBA)
    ensures FloorColor(FloorColor(c)) == FloorColor(c)
  {
  }
}
