/** icons.go: a registry of named monochrome icons with a "missing"
    fallback. The package-level `iconSet` is the field of one registry. */
module Icons {
  import opened GoInt

  datatype Icon = Icon(Name: string, Width: int, Height: int, Layout: seq<seq<uint8>>)

  /** The zero value Go returns for an absent map key. */
  const ZeroIcon := Icon("", 0, 0, [])

  /** `RegisterIcon`'s record: the width is that of the first row. */
  function MakeIcon(name: string, layout: seq<seq<uint8>>): (i: Icon)
    requires |layout| > 0
    ensures i.Name == name && i.Layout == layout
    ensures i.Width == |layout[0]| && i.Height == |layout|
  {
    Icon(name, |layout[0]|, |layout|, layout)
  }

  /** `GetIcon`'s lookup with its two-level fallback. */
  function LookupIcon(icons: map<string, Icon>, name: string): (i: Icon)
    ensures name in icons ==> i == icons[name]
    ensures name !in icons && "missing" in icons ==> i == icons["missing"]
    ensures name !in icons && "missing" !in icons ==> i == ZeroIcon
  {
    if name in icons then icons[name]
    else if "missing" in icons then icons["missing"]
    else ZeroIcon
  }

  const BiohazardLayout: seq<seq<uint8>> := [
    [0, 1, 1, 0, 0, 0, 0, 0, 0, 0, 0, 0, 1, 1, 0, 0],
    [1, 1, 1, 0, 0, 0, 0, 0, 0, 0, 0, 0, 1, 1, 1, 0],
    [1, 1, 1, 1, 0, 0, 0, 0, 0, 0, 0, 1, 1, 1, 1, 0],
    [0, 0, 1, 0, 0, 1, 1, 1, 1, 1, 0, 0, 1, 0, 0, 0],
    [0, 0, 0, 0, 1, 1, 1, 1, 1, 1, 1, 0, 0, 0, 0, 0],
    [0, 0, 0, 1, 1, 1, 1, 1, 1, 1, 1, 1, 0, 0, 0, 0],
    [0, 0, 0, 1, 1, 0, 0, 1, 0, 0, 1, 1, 0, 0, 0, 0],
    [0, 0, 0, 1, 0, 0, 0, 1, 0, 0, 0, 1, 0, 0, 0, 0],
    [0, 0, 0, 1, 1, 0, 1, 1, 1, 0, 1, 1, 0, 0, 0, 0],
    [0, 0, 0, 0, 1, 1, 1, 0, 1, 1, 1, 0, 0, 0, 0, 0],
    [0, 0, 0, 1, 1, 1, 1, 1, 1, 1, 1, 1, 0, 0, 0, 0],
    [0, 0, 0, 0, 0, 1, 1, 1, 1, 1, 0, 0, 0, 0, 0, 0],
    [0, 0, 1, 0, 0, 1, 0, 1, 0, 1, 0, 0, 1, 0, 0, 0],
    [1, 1, 1, 1, 0, 0, 0, 0, 0, 0, 0, 1, 1, 1, 1, 0],
    [1, 1, 1, 0, 0, 0, 0, 0, 0, 0, 0, 0, 1, 1, 1, 0],
    [0, 1, 1, 0, 0, 0, 0, 0, 0, 0, 0, 0, 1, 1, 0, 0]
  ]

  const HouseLayout: seq<seq<uint8>> := [
    [0, 0, 0, 0, 0, 0, 0, 1, 0, 0, 0, 1, 1, 0, 0, 0],
    [0, 0, 0, 0, 0, 0, 1, 1, 1, 0, 0, 1, 1, 0, 0, 0],
    [0, 0, 0, 0, 0, 1, 1, 0, 1, 1, 0, 1, 1, 0, 0, 0],
    [0, 0, 0, 0, 1, 1, 0, 1, 0, 1, 1, 1, 1, 0, 0, 0],
    [0, 0, 0, 1, 1, 0, 1, 1, 1, 0, 1, 1, 1, 0, 0, 0],
    [0, 0, 1, 1, 0, 1, 1, 1, 1, 1, 0, 1, 1, 0, 0, 0],
    [0, 1, 1, 0, 1, 1, 1, 1, 1, 1, 1, 0, 1, 1, 0, 0],
    [1, 1, 0, 1, 1, 1, 1, 1, 1, 1, 1, 1, 0, 1, 1, 0],
    [1, 0, 1, 1, 1, 1, 1, 1, 1, 1, 1, 1, 1, 0, 1, 0],
    [0, 0, 1, 0, 0, 1, 1, 1, 1, 1, 0, 0, 1, 0, 0, 0],
    [0, 0, 1, 0, 0, 1, 0, 0, 0, 1, 0, 0, 1, 0, 0, 0],
    [0, 0, 1, 1, 1, 1, 0, 0, 0, 1, 1, 1, 1, 0, 0, 0],
    [0, 0, 1, 1, 1, 1, 0, 0, 0, 1, 1, 1, 1, 0, 0, 0],
    [0, 0, 1, 1, 1, 1, 0, 0, 0, 1, 1, 1, 1, 0, 0, 0],
    [0, 0, 0, 0, 0, 0, 0, 0, 0, 0, 0, 0, 0, 0, 0, 0],
    [0, 0, 0, 0, 0, 0, 0, 0, 0, 0, 0, 0, 0, 0, 0, 0]
  ]

  const MissingLayout: seq<seq<uint8>> := [
    [1, 1, 1, 1, 1, 1, 1, 1, 1, 1, 1, 1, 1, 1, 1, 1],
    [1, 0, 0, 0, 0, 0, 0, 0, 0, 0, 0, 0, 0, 0, 1, 1],
    [1, 0, 0, 0, 0, 0, 0, 0, 0, 0, 0, 0, 0, 1, 0, 1],
    [1, 0, 0, 0, 0, 0, 0, 0, 0, 0, 0, 0, 1, 0, 0, 1],
    [1, 0, 0, 0, 0, 0, 0, 0, 0, 0, 0, 1, 0, 0, 0, 1],
    [1, 0, 0, 0, 0, 0, 0, 0, 0, 0, 1, 0, 0, 0, 0, 1],
    [1, 0, 0, 0, 0, 0, 0, 0, 0, 1, 0, 0, 0, 0, 0, 1],
    [1, 0, 0, 0, 0, 0, 0, 0, 1, 0, 0, 0, 0, 0, 0, 1],
    [1, 0, 0, 0, 0, 0, 0, 1, 0, 0, 0, 0, 0, 0, 0, 1],
    [1, 0, 0, 0, 0, 0, 1, 0, 0, 0, 0, 0, 0, 0, 0, 1],
    [1, 0, 0, 0, 0, 1, 0, 0, 0, 0, 0, 0, 0, 0, 0, 1],
    [1, 0, 0, 0, 1, 0, 0, 0, 0, 0, 0, 0, 0, 0, 0, 1],
    [1, 0, 0, 1, 0, 0, 0, 0, 0, 0, 0, 0, 0, 0, 0, 1],
    [1, 0, 1, 0, 0, 0, 0, 0, 0, 0, 0, 0, 0, 0, 0, 1],
    [1, 1, 0, 0, 0, 0, 0, 0, 0, 0, 0, 0, 0, 0, 0, 1],
    [1, 1, 1, 1, 1, 1, 1, 1, 1, 1, 1, 1, 1, 1, 1, 1]
  ]

  /** The set `InitIcons` leaves behind. */
  function InitialIcons(): (m: map<string, Icon>)
    ensures m.Keys == {"biohazard-16", "house-16", "missing"}
  {
    map["biohazard-16" := MakeIcon("biohazard-16", BiohazardLayout),
        "house-16" := MakeIcon("house-16", HouseLayout),
        "missing" := MakeIcon("missing", MissingLayout)]
  }

  predicate Square16(i: Icon) {
    i.Width == 16 && i.Height == 16 && |i.Layout| == 16 &&
    forall r :: 0 <= r < |i.Layout| ==> |i.Layout[r]| == 16
  }

  /** Every built-in icon is 16x16, all rows included. */
  lemma InitialIconsAre16x16()
    ensures forall n :: n in InitialIcons() ==> Square16(InitialIcons()[n])
  {
    var m := InitialIcons();
    assert Square16(m["biohazard-16"]);
    assert Square16(m["house-16"]);
    assert Square16(m["missing"]);
  }

  /** After `InitIcons` every name resolves to a 16x16 icon: the named one or
      the fallback. */
  lemma EveryLookupIs16x16(name: string)
    ensures Square16(LookupIcon(InitialIcons(), name))
  {
    InitialIconsAre16x16();
    assert "missing" in InitialIcons();
  }

  class IconSet {
    var icons: map<string, Icon>
    /** `iconSet != nil`: the package-level map exists only once `InitIcons`
        has made it. */
    var Made: bool

    constructor ()
      ensures icons == map[] && !Made
    {
      icons := map[];
      Made := false;
    }

    /** `RegisterIcon`: Go reads `layout[0]`, so an empty layout panics, and
        writing into the map before `InitIcons` has made it panics too. */
    method RegisterIcon(name: string, layout: seq<seq<uint8>>)
      requires Made && |layout| > 0
      modifies this
      ensures Made
      ensures icons == old(icons)[name := MakeIcon(name, layout)]
      ensures GetIcon(name) == MakeIcon(name, layout)
    {
      icons := icons[name := Icon(name, |layout[0]|, |layout|, layout)];
    }

    /** `InitIcons` makes a fresh map and registers the three built-ins. */
    method InitIcons()
      modifies this
      ensures Made && icons == InitialIcons()
    {
      icons := map[];
      Made := true;
      RegisterIcon("biohazard-16", BiohazardLayout);
      RegisterIcon("house-16", HouseLayout);
      RegisterIcon("missing", MissingLayout);
    }

    function GetIcon(name: string): (i: Icon)
      reads this
      ensures i == LookupIcon(icons, name)
    {
      LookupIcon(icons, name)
    }
  }
}
