/** newyearslide.go: a countdown to midnight on January 1. The calendar
    (the current year and month, and the instant of local midnight starting
    a year) is an input. */
module NewYear {
  import opened GoInt
  import opened GoTime
  import Fmt

  /** The year counted down to: next year, except in January, when the new
      year has just begun and the countdown shows zeros. */
  function TargetYear(year: int, month: int): (y: int)
    requires 1 <= month <= 12
    ensures month == 1 ==> y == year
    ensures month != 1 ==> y == year + 1
  {
    if month == 1 then year else year + 1
  }

  /** Hours, minutes and seconds of `d`, each by Go's truncating division. */
  function HoursMinutesSeconds(d: Duration): (hms: (int, int, int))
    ensures d >= 0 ==> hms.0 >= 0 && 0 <= hms.1 < 60 && 0 <= hms.2 < 60
    ensures d >= 0 ==> hms.0 * 3600 + hms.1 * 60 + hms.2 == d / Second
  {
    var h := GoDiv(d, Hour);
    var d1 := d - h * Hour;
    var m := GoDiv(d1, Minute);
    var d2 := d1 - m * Minute;
    var s := GoDiv(d2, Second);
    if d >= 0 then
      NonNegativeDivision(d, Hour);
      NonNegativeDivision(d1, Minute);
      NonNegativeDivision(d2, Second);
      assert d2 == s * Second + d2 % Second;
      assert d == (h * 3600 + m * 60 + s) * Second + d2 % Second;
      DivUnique(d, Second, h * 3600 + m * 60 + s, d2 % Second);
      (h, m, s)
    else (h, m, s)
  }

  /** `fmtDuration`: "hh : mm : ss", each part printed by `%02d`. */
  function FmtDuration(d: Duration): (s: string)
    ensures |s| >= 12
  {
    var hms := HoursMinutesSeconds(d);
    Fmt.Pad2(hms.0) + " : " + Fmt.Pad2(hms.1) + " : " + Fmt.Pad2(hms.2)
  }

  /** Under 100 hours the text is twelve characters, two digits each for
      hours, minutes and seconds between the " : " separators, and the
      three fields read back as the duration's whole seconds. */
  lemma FmtDurationReadsBack(d: Duration)
    requires 0 <= d < 100 * Hour
    ensures var s := FmtDuration(d);
      |s| == 12 && s[2..5] == " : " && s[7..10] == " : " &&
      Fmt.AllDigits(s[..2]) && Fmt.AllDigits(s[5..7]) && Fmt.AllDigits(s[10..]) &&
      Fmt.ValueOf(s[..2]) * 3600 + Fmt.ValueOf(s[5..7]) * 60 + Fmt.ValueOf(s[10..]) == d / Second
  {
    var hms := HoursMinutesSeconds(d);
    assert hms.0 < 100 by {
      assert hms.0 * 3600 <= d / Second;
    }
    Fmt.Pad2RoundTrip(hms.0);
    Fmt.Pad2RoundTrip(hms.1);
    Fmt.Pad2RoundTrip(hms.2);
    var s, h, m, c := FmtDuration(d), Fmt.Pad2(hms.0), Fmt.Pad2(hms.1), Fmt.Pad2(hms.2);
    assert s == h + " : " + m + " : " + c;
    assert s[..2] == h && s[5..7] == m && s[10..] == c;
  }

  class NewYearSlide {
    var Midnight: Instant
    /** `Midnight.Year()`. */
    var Year: int

    constructor ()
      ensures Midnight == ZeroTime && Year == 1
    {
      Midnight := ZeroTime;
      Year := 1;
    }

    /** `Initialize` at a time in `year` and `month`; `midnightOf(y)` is the
        local instant starting January 1 of `y`. */
    method Initialize(year: int, month: int, midnightOf: int -> Instant)
      requires 1 <= month <= 12
      modifies this
      ensures Year == TargetYear(year, month) && Midnight == midnightOf(Year)
    {
      var y := year + 1;
      if month == 1 {
        y := year;
      }
      Year := y;
      Midnight := midnightOf(y);
    }

    /** `IsEnabled`: until an hour after midnight. */
    predicate IsEnabled(now: Instant): (b: bool)
      reads this
      ensures b <==> now < Midnight + Hour
    {
      Until(now, Midnight) > -1 * Hour
    }

    /** The time `Draw` shows: the time until midnight, never negative. */
    function Remaining(now: Instant): (d: Duration)
      reads this
      ensures d >= 0
      ensures now <= Midnight ==> d == Midnight - now
      ensures now >= Midnight ==> d == 0
    {
      var diff := Until(now, Midnight);
      if diff < 0 then 0 else diff
    }

    /** What `Draw` writes: the countdown, "UNTIL" and the year. */
    function DrawText(now: Instant): (lines: seq<string>)
      reads this
      ensures |lines| == 3
      ensures lines[0] == FmtDuration(Remaining(now)) && lines[1] == "UNTIL" && lines[2] == Fmt.Itoa(Year)
    {
      [FmtDuration(Remaining(now)), "UNTIL", Fmt.Itoa(Year)]
    }
  }

  /** Within the enabled hour after midnight the countdown reads zeros. */
  lemma ZerosAfterMidnight(sl: NewYearSlide, now: Instant)
    requires sl.IsEnabled(now) && now >= sl.Midnight
    ensures sl.Remaining(now) == 0 && now - sl.Midnight < Hour
    ensures FmtDuration(sl.Remaining(now)) == "00 : 00 : 00"
  {
    assert HoursMinutesSeconds(0) == (0, 0, 0);
    Fmt.Pad2Digits(0);
  }
}
