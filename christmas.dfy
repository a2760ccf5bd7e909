/** christmasslide.go: a tree with random sparkles and the days until
    December 25. The calendar and the random draws are inputs. */
module Christmas {
  import opened Wrappers
  import opened GoInt
  import opened GoTime

  /** `TreeDef`: for each row of the tree, the columns of its left and right
      edges. */
  const TreeDef: seq<(int, int)> := [
    (10, 10), (9, 11), (9, 11), (8, 12), (8, 12), (8, 12), (7, 13), (7, 13),
    (6, 14), (6, 14), (6, 14), (5, 15), (5, 15), (4, 16), (4, 16), (4, 16),
    (3, 17), (3, 17), (2, 18), (2, 18), (2, 18), (1, 19), (1, 19), (0, 20), (0, 20)]

  /** The tree is symmetric about column 10 and widens downward. */
  lemma TreeShape()
    ensures |TreeDef| == 25
    ensures forall j :: 0 <= j < |TreeDef| ==> 0 <= TreeDef[j].0 <= TreeDef[j].1 <= 20 && TreeDef[j].0 + TreeDef[j].1 == 20
    ensures forall j :: 0 < j < |TreeDef| ==> TreeDef[j].0 <= TreeDef[j - 1].0
  {
  }

  /** A sparkle at column `x` of row `y` lies strictly inside the tree. */
  predicate InsideTree(x: int, y: int) {
    1 <= y <= 24 && TreeDef[y].0 < x < TreeDef[y].1
  }

  /** Every row a sparkle may be drawn in has room for one. */
  lemma EveryRowHasRoom(y: int)
    requires 1 <= y <= 24
    ensures InsideTree(10, y)
  {
  }

  /** `GetRandomWithinTree`, with `draws` the successive results of
      `rand.Intn(21)` and `rand.Intn(24) + 1`: the first draw inside the
      tree. The source retries forever; here the draws can run out. */
  method GetRandomWithinTree(draws: seq<(int, int)>) returns (r: Option<(int, int)>)
    requires forall i :: 0 <= i < |draws| ==> 0 <= draws[i].0 < 21 && 1 <= draws[i].1 <= 24
    ensures r.Some? ==> InsideTree(r.value.0, r.value.1) && 0 <= r.value.0 <= 20
    ensures r.Some? ==> exists i :: 0 <= i < |draws| && draws[i] == r.value &&
                                    forall j :: 0 <= j < i ==> !InsideTree(draws[j].0, draws[j].1)
    ensures r.None? ==> forall i :: 0 <= i < |draws| ==> !InsideTree(draws[i].0, draws[i].1)
  {
    for i := 0 to |draws|
      invariant forall j :: 0 <= j < i ==> !InsideTree(draws[j].0, draws[j].1)
    {
      var (x, y) := draws[i];
      if x > TreeDef[y].0 && x < TreeDef[y].1 {
        return Some((x, y));
      }
    }
    return None;
  }

  /** `DaysUntil`: the remaining time in days, rounded up. */
  function DaysUntil(now: Instant, d: Instant): (days: int)
    ensures (days - 1) * Day < Until(now, d) <= days * Day
  {
    CeilDiv(Until(now, d), Day)
  }

  class ChristmasSlide {
    var XmasDate: Instant

    constructor ()
      ensures XmasDate == ZeroTime
    {
      XmasDate := ZeroTime;
    }

    /** `Initialize` in `year`; `xmasOf(y)` is local midnight starting
        December 25 of `y`. */
    method Initialize(year: int, xmasOf: int -> Instant)
      modifies this
      ensures XmasDate == xmasOf(year)
    {
      XmasDate := xmasOf(year);
    }

    /** `IsEnabled`: from 30 days before Christmas through Christmas Day. */
    predicate IsEnabled(now: Instant): (b: bool)
      reads this
      ensures b <==> 0 <= DisplayedDays(now) <= 30 && DisplayedDays(now) == DaysUntil(now, XmasDate)
    {
      DaysUntil(now, XmasDate) >= 0 && DaysUntil(now, XmasDate) <= 30
    }

    /** The count `Draw` shows, never negative. */
    function DisplayedDays(now: Instant): (n: int)
      reads this
      ensures n >= 0 && n >= DaysUntil(now, XmasDate)
      ensures DaysUntil(now, XmasDate) >= 0 ==> n == DaysUntil(now, XmasDate)
      ensures DaysUntil(now, XmasDate) < 0 ==> n == 0
    {
      var days := DaysUntil(now, XmasDate);
      if days < 0 then 0 else days
    }
  }

  /** The slide is enabled exactly while less than a day has passed since
      the start of Christmas Day and at most 30 days remain. */
  lemma EnabledWindow(sl: ChristmasSlide, now: Instant)
    ensures sl.IsEnabled(now) <==> -Day < sl.XmasDate - now <= 30 * Day
  {
    var days := DaysUntil(now, sl.XmasDate);
    var u := Until(now, sl.XmasDate);
    if days >= 0 {
      assert u > (days - 1) * Day >= -Day;
    }
    if days > 30 {
      assert u > (days - 1) * Day >= 30 * Day;
    }
    if -Day < u {
      assert days * Day >= u > -Day;
    }
    if u <= 30 * Day {
      assert (days - 1) * Day < 30 * Day;
    }
  }
}
