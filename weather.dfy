/** weatherslide.go: current conditions and a two-day forecast from
    api.weather.gov. JSON decoding and RFC 3339 parsing are inputs; the
    local clock's hour, the forecast period end times the slide looks for
    and weekdays are given by a `Clock`. Icons are identified by their key;
    the embedded PNG images are not part of this model. */
module Weather {
  import opened Wrappers
  import opened GoTime
  import Fmt

  // ---------------------------------------------------------------------
  // GetIcon

  /** `WEATHER_API_ICON_MAP`: api.weather.gov conditions to icon keys. */
  const IconMap: map<string, string> := map[
    "day/skc" := "sun", "night/skc" := "moon",
    "day/few" := "cloud_sun", "night/few" := "cloud_moon",
    "day/sct" := "cloud_sun", "night/sct" := "cloud_moon",
    "bkn" := "clouds", "ovc" := "clouds",
    "day/wind_skc" := "sun", "night/wind_skc" := "moon",
    "day/wind_few" := "cloud_wind_sun", "night/wind_few" := "cloud_wind_moon",
    "day/wind_sct" := "cloud_wind_sun", "night/wind_sct" := "cloud_wind_moon",
    "wind_bkn" := "cloud_wind", "wind_ovc" := "cloud_wind",
    "snow" := "snow", "rain_snow" := "rain_snow", "rain_sleet" := "rain_snow",
    "snow_sleet" := "rain_snow", "fzra" := "rain1", "rain_fzra" := "rain1",
    "snow_fzra" := "rain_snow", "sleet" := "rain1", "rain" := "rain1",
    "rain_showers" := "rain0", "rain_showers_hi" := "rain0",
    "tsra" := "lightning", "tsra_sct" := "lightning", "tsra_hi" := "lightning",
    "blizzard" := "snow", "fog" := "cloud"]

  const IconPrefix := "/icons/land/"

  /** `[a-z_]`. */
  predicate ConditionChar(c: char) {
    'a' <= c <= 'z' || c == '_'
  }

  /** The end of the run of non-slash characters starting at `i`. */
  function SegmentEnd(s: string, i: nat): (j: nat)
    requires i <= |s|
    ensures i <= j <= |s| && (j < |s| ==> s[j] == '/')
    ensures forall k :: i <= k < j ==> s[k] != '/'
    decreases |s| - i
  {
    if i == |s| || s[i] == '/' then i else SegmentEnd(s, i + 1)
  }

  /** The end of the run of `[a-z_]` characters starting at `i`. */
  function RunEnd(s: string, i: nat): (j: nat)
    requires i <= |s|
    ensures i <= j <= |s| && (j < |s| ==> !ConditionChar(s[j]))
    ensures forall k :: i <= k < j ==> ConditionChar(s[k])
    decreases |s| - i
  {
    if i == |s| || !ConditionChar(s[i]) then i else RunEnd(s, i + 1)
  }

  /** The two captures of `\/icons\/land\/([^\/]+\/([a-z_]+))` for a match
      starting at `p`, if one does: `[^\/]+` can only stop at the next
      slash, and `[a-z_]+` is greedy. */
  function MatchAt(s: string, p: nat): (m: Option<(string, string)>)
    requires p <= |s|
    ensures m.Some? ==> |m.value.0| > 0 && |m.value.1| > 0
    ensures m.Some? ==> exists seg :: |seg| > 0 && '/' !in seg && m.value.0 == seg + "/" + m.value.1
    ensures m.Some? ==> forall k :: 0 <= k < |m.value.1| ==> ConditionChar(m.value.1[k])
  {
    if |s| - p < |IconPrefix| || s[p..p + |IconPrefix|] != IconPrefix then None
    else
      var a := p + |IconPrefix|;
      var e := SegmentEnd(s, a);
      if e == a || e == |s| then None
      else
        var r := RunEnd(s, e + 1);
        if r == e + 1 then None
        else
          var seg := s[a..e];
          assert '/' !in seg by {
            forall k | 0 <= k < |seg| ensures seg[k] != '/' {
              assert seg[k] == s[a + k];
            }
          }
          assert s[a..r] == seg + "/" + s[e + 1..r];
          Some((s[a..r], s[e + 1..r]))
  }

  /** `FindStringSubmatch`: the captures of the leftmost match at or after
      `p`. */
  function Captures(s: string, p: nat): (m: Option<(string, string)>)
    requires p <= |s|
    ensures m.Some? ==> |m.value.0| > 0 && |m.value.1| > 0
    decreases |s| - p
  {
    match MatchAt(s, p)
    case Some(m) => Some(m)
    case None => if p == |s| then None else Captures(s, p + 1)
  }

  /** The captures are those of the leftmost position that matches. */
  lemma {:induction false} CapturesIsLeftmost(s: string, p: nat)
    requires p <= |s| && Captures(s, p).Some?
    ensures exists q :: p <= q <= |s| && MatchAt(s, q) == Captures(s, p) &&
                        forall r :: p <= r < q ==> MatchAt(s, r).None?
    decreases |s| - p
  {
    var m := MatchAt(s, p);
    if m.None? {
      CapturesIsLeftmost(s, p + 1);
      var q :| p + 1 <= q <= |s| && MatchAt(s, q) == Captures(s, p + 1) &&
               forall r :: p + 1 <= r < q ==> MatchAt(s, r).None?;
      assert forall r :: p <= r < q ==> MatchAt(s, r).None?;
    } else {
      assert MatchAt(s, p) == Captures(s, p);
    }
  }

  /** There are no captures only when no position matches. */
  lemma {:induction false} NoCapturesNoMatch(s: string, p: nat)
    requires p <= |s| && Captures(s, p).None?
    ensures forall q :: p <= q <= |s| ==> MatchAt(s, q).None?
    decreases |s| - p
  {
    if p < |s| {
      NoCapturesNoMatch(s, p + 1);
    }
  }

  /** The icon key of an icon URL: the condition with its time of day if the
      map knows it, else the bare condition, else none. */
  function IconKey(url: string): (k: Option<string>)
    ensures k.Some? ==> Captures(url, 0).Some?
    ensures Captures(url, 0).Some? ==>
              var (withTime, bare) := Captures(url, 0).value;
              (withTime in IconMap ==> k == Some(IconMap[withTime])) &&
              (withTime !in IconMap && bare in IconMap ==> k == Some(IconMap[bare])) &&
              (withTime !in IconMap && bare !in IconMap ==> k.None?)
  {
    match Captures(url, 0)
    case None => None
    case Some((withTime, bare)) =>
      if withTime in IconMap then Some(IconMap[withTime])
      else if bare in IconMap then Some(IconMap[bare])
      else None
  }

  /** The icon key of any URL made of the prefix, a time-of-day segment, a
      slash, a condition, and then the end or a character outside `[a-z_]`
      (such as the `?size=` query): the condition with its time of day is
      looked up first, then the bare condition. */
  lemma IconKeyOfUrl(tod: string, cond: string, rest: string)
    requires |tod| > 0 && '/' !in tod
    requires |cond| > 0 && forall k :: 0 <= k < |cond| ==> ConditionChar(cond[k])
    requires rest == [] || !ConditionChar(rest[0])
    ensures var key := tod + "/" + cond;
            IconKey(IconPrefix + key + rest) ==
              if key in IconMap then Some(IconMap[key]) else if cond in IconMap then Some(IconMap[cond]) else None
  {
    var url := IconPrefix + tod + "/" + cond + rest;
    var e := |IconPrefix| + |tod|;
    var r := e + 1 + |cond|;
    assert IconPrefix + (tod + "/" + cond) + rest == url;
    forall k | |IconPrefix| <= k < e ensures url[k] != '/' {
      assert url[k] == tod[k - |IconPrefix|];
    }
    forall k | e < k < r ensures ConditionChar(url[k]) {
      assert url[k] == cond[k - e - 1];
    }
    assert r < |url| ==> url[r] == rest[0];
    MatchAtPrefix(url, e, r);
    assert url[|IconPrefix|..r] == tod + "/" + cond;
    assert url[e + 1..r] == cond;
  }

  /** A string made of the prefix, a segment ending at the slash at `e` and
      a condition ending at `r` matches at 0, with those captures. */
  lemma MatchAtPrefix(s: string, e: nat, r: nat)
    requires |IconPrefix| < e && e + 1 < r <= |s| && s[..|IconPrefix|] == IconPrefix && s[e] == '/'
    requires forall k :: |IconPrefix| <= k < e ==> s[k] != '/'
    requires forall k :: e < k < r ==> ConditionChar(s[k])
    requires r < |s| ==> !ConditionChar(s[r])
    ensures MatchAt(s, 0) == Some((s[|IconPrefix|..r], s[e + 1..r]))
    ensures Captures(s, 0) == MatchAt(s, 0)
  {
    SegmentEndAt(s, |IconPrefix|, e);
    RunEndAt(s, e + 1, r);
    MatchAtEnds(s, e, r);
  }

  /** A match at 0 is decided by where the two runs after the prefix end. */
  lemma MatchAtEnds(s: string, e: nat, r: nat)
    requires |IconPrefix| < e && e + 1 < r <= |s| && s[..|IconPrefix|] == IconPrefix
    requires SegmentEnd(s, |IconPrefix|) == e && RunEnd(s, e + 1) == r
    ensures MatchAt(s, 0) == Some((s[|IconPrefix|..r], s[e + 1..r]))
  {
    assert s[0..0 + |IconPrefix|] == IconPrefix;
  }

  lemma {:induction false} SegmentEndAt(s: string, i: nat, j: nat)
    requires i <= j < |s| && s[j] == '/' && forall k :: i <= k < j ==> s[k] != '/'
    ensures SegmentEnd(s, i) == j
    decreases j - i
  {
    if i < j {
      SegmentEndAt(s, i + 1, j);
    }
  }

  lemma {:induction false} RunEndAt(s: string, i: nat, j: nat)
    requires i <= j <= |s| && forall k :: i <= k < j ==> ConditionChar(s[k])
    requires j < |s| ==> !ConditionChar(s[j])
    ensures RunEnd(s, i) == j
    decreases j - i
  {
    if i < j {
      RunEndAt(s, i + 1, j);
    }
  }

  // ---------------------------------------------------------------------
  // Temperatures

  /** `int(x)` of a float: truncation toward zero. */
  function Trunc(x: real): (n: int)
    ensures x >= 0.0 ==> n as real <= x < n as real + 1.0
    ensures x < 0.0 ==> n as real - 1.0 < x <= n as real
  {
    if x >= 0.0 then x.Floor else -((-x).Floor)
  }

  /** The conversion as written: `9 / 5` is integer constant division, so the
      Celsius value is multiplied by 1. */
  function FahrenheitAsWritten(celsius: real): int {
    Trunc(celsius * ((9 / 5) as real) + 32.0)
  }

  /** As written the conversion only adds 32, so boiling water reads 132
      degrees where 212 was meant. */
  lemma BoilingAsWritten(celsius: real)
    ensures FahrenheitAsWritten(celsius) == Trunc(celsius + 32.0)
    ensures FahrenheitAsWritten(100.0) == 132
    ensures Fahrenheit(100.0) == 212
  {
    assert (9 / 5) as real == 1.0;
    assert celsius * 1.0 + 32.0 == celsius + 32.0;
  }

  /** The evident intent: degrees Fahrenheit, truncated. */
  function Fahrenheit(celsius: real): int {
    Trunc(celsius * 9.0 / 5.0 + 32.0)
  }

  /** The corrected conversion is off by less than a degree, and is exact at
      freezing, boiling and -40. */
  lemma FahrenheitProperties(celsius: real)
    ensures -1.0 < Fahrenheit(celsius) as real - (celsius * 1.8 + 32.0) < 1.0
    ensures Fahrenheit(0.0) == 32 && Fahrenheit(100.0) == 212 && Fahrenheit(-40.0) == -40
  {
  }

  // ---------------------------------------------------------------------
  // Parsing

  datatype Observations = Observations(Timestamp: string, Icon: string, Temperature: real)
  datatype Period = Period(StartTime: string, EndTime: string, Temperature: int, TemperatureUnit: string, Icon: string)
  datatype Forecast = Forecast(UpdateTime: string, Periods: seq<Period>)

  /** `time.Weekday`, Sunday first. */
  type Weekday = w: int | 0 <= w < 7

  /** The parts of the clock `ParseForecast` reads: the local hour, the end
      times of today's period (18:00), tonight's (06:00 tomorrow),
      tomorrow's (18:00) and tomorrow night's (06:00 the day after) in New
      York, and the weekdays of now and 24 hours on. */
  datatype Clock = Clock(Hour: int, Today18: Instant, Tomorrow06: Instant, Tomorrow18: Instant,
                         DayAfter06: Instant, Today: Weekday, Tomorrow: Weekday)

  /** An `EndTime` that does not parse reads as the zero time. */
  function EndOf(p: Period, parseTime: string -> Option<Instant>): Instant {
    match parseTime(p.EndTime) case Some(t) => t case None => ZeroTime
  }

  /** The first period ending at `end`, if any. */
  function PeriodEndingAt(periods: seq<Period>, end: Instant, parseTime: string -> Option<Instant>): (r: Option<Period>)
    ensures r.None? <==> forall i :: 0 <= i < |periods| ==> EndOf(periods[i], parseTime) != end
    ensures r.Some? ==> exists i :: 0 <= i < |periods| && periods[i] == r.value && EndOf(periods[i], parseTime) == end &&
                                    forall j :: 0 <= j < i ==> EndOf(periods[j], parseTime) != end
  {
    if |periods| == 0 then None
    else if EndOf(periods[0], parseTime) == end then Some(periods[0])
    else
      var r := PeriodEndingAt(periods[1..], end, parseTime);
      assert forall i :: 1 <= i < |periods| ==> periods[i] == periods[1..][i - 1];
      r
  }

  /** `GetForecastWithEndTime`. */
  method GetForecastWithEndTime(end: Instant, periods: seq<Period>, parseTime: string -> Option<Instant>) returns (r: Option<Period>)
    ensures r == PeriodEndingAt(periods, end, parseTime)
  {
    for i := 0 to |periods|
      invariant PeriodEndingAt(periods, end, parseTime) == PeriodEndingAt(periods[i..], end, parseTime)
    {
      assert periods[i..][1..] == periods[i + 1..];
      if EndOf(periods[i], parseTime) == end {
        return Some(periods[i]);
      }
    }
    return None;
  }

  /** An update time that does not parse, or that is more than six hours
      before `now`, is stale. */
  predicate Fresh(stamp: string, now: Instant, parseTime: string -> Option<Instant>) {
    parseTime(stamp).Some? && Since(now, parseTime(stamp).value) <= 6 * Hour
  }

  datatype WeatherData = WeatherData(
    CurrentTemp: int, CurrentIcon: Option<string>,
    Forecast1Weekday: Weekday, Forecast1Icon: Option<string>, Forecast1HighTemp: int, Forecast1LowTemp: int,
    Forecast2Weekday: Weekday, Forecast2Icon: Option<string>, Forecast2HighTemp: int, Forecast2LowTemp: int)

  const EmptyWeather := WeatherData(0, None, 0, None, 0, 0, 0, None, 0, 0)

  class WeatherSlide {
    var Weather: WeatherData

    constructor ()
      ensures Weather == EmptyWeather
    {
      Weather := EmptyWeather;
    }

    /** `ParseObservations`: a decoded, fresh observation sets the current
        temperature, converted as written, and icon. */
    method ParseObservations(obs: Option<Observations>, now: Instant, parseTime: string -> Option<Instant>) returns (ok: bool)
      modifies this`Weather
      ensures ok <==> obs.Some? && Fresh(obs.value.Timestamp, now, parseTime)
      ensures !ok ==> Weather == old(Weather)
      ensures ok ==> Weather == old(Weather).(CurrentTemp := FahrenheitAsWritten(obs.value.Temperature),
                                              CurrentIcon := IconKey(obs.value.Icon))
    {
      if obs.None? {
        return false;
      }
      var t := parseTime(obs.value.Timestamp);
      if t.None? || Since(now, t.value) > 6 * Hour {
        return false;
      }
      Weather := Weather.(CurrentTemp := FahrenheitAsWritten(obs.value.Temperature));
      Weather := Weather.(CurrentIcon := IconKey(obs.value.Icon));
      return true;
    }

    /** `ParseForecast`: a decoded, fresh forecast fills in tonight's and
        tomorrow's boxes, and today's high before 18:00 (0 afterwards). A
        missing period fails the parse, keeping what was assigned before. */
    method ParseForecast(fc: Option<Forecast>, now: Instant, clock: Clock, parseTime: string -> Option<Instant>) returns (ok: bool)
      modifies this`Weather
      ensures !(fc.Some? && Fresh(fc.value.UpdateTime, now, parseTime)) ==> !ok && Weather == old(Weather)
      ensures fc.Some? && Fresh(fc.value.UpdateTime, now, parseTime) ==>
        var ps := fc.value.Periods;
        var today := PeriodEndingAt(ps, clock.Today18, parseTime);
        var tonight := PeriodEndingAt(ps, clock.Tomorrow06, parseTime);
        var tomorrow := PeriodEndingAt(ps, clock.Tomorrow18, parseTime);
        var night2 := PeriodEndingAt(ps, clock.DayAfter06, parseTime);
        var w1 := if clock.Hour < 18 then old(Weather).(Forecast1HighTemp := if today.Some? then today.value.Temperature else 0)
                  else old(Weather).(Forecast1HighTemp := 0);
        var w2 := w1.(Forecast1Weekday := clock.Today,
                      Forecast1LowTemp := if tonight.Some? then tonight.value.Temperature else 0,
                      Forecast1Icon := if tonight.Some? then IconKey(tonight.value.Icon) else None);
        (ok <==> (clock.Hour >= 18 || today.Some?) && tonight.Some? && tomorrow.Some? && night2.Some?) &&
        (clock.Hour < 18 && today.None? ==> Weather == old(Weather)) &&
        ((clock.Hour >= 18 || today.Some?) && tonight.None? ==> Weather == w1) &&
        ((clock.Hour >= 18 || today.Some?) && tonight.Some? && (tomorrow.None? || night2.None?) ==> Weather == w2) &&
        (ok ==> Weather == w2.(Forecast2Weekday := clock.Tomorrow,
                               Forecast2HighTemp := tomorrow.value.Temperature,
                               Forecast2LowTemp := night2.value.Temperature,
                               Forecast2Icon := IconKey(tomorrow.value.Icon)))
    {
      if fc.None? {
        return false;
      }
      var t := parseTime(fc.value.UpdateTime);
      if t.None? || Since(now, t.value) > 6 * Hour {
        return false;
      }
      var periods := fc.value.Periods;
      if clock.Hour < 18 {
        var fToday := GetForecastWithEndTime(clock.Today18, periods, parseTime);
        if fToday.None? {
          return false;
        }
        Weather := Weather.(Forecast1HighTemp := fToday.value.Temperature);
      } else {
        Weather := Weather.(Forecast1HighTemp := 0);
      }
      var fTonight := GetForecastWithEndTime(clock.Tomorrow06, periods, parseTime);
      if fTonight.None? {
        return false;
      }
      Weather := Weather.(Forecast1Weekday := clock.Today, Forecast1LowTemp := fTonight.value.Temperature,
                          Forecast1Icon := IconKey(fTonight.value.Icon));
      var fTomorrow := GetForecastWithEndTime(clock.Tomorrow18, periods, parseTime);
      if fTomorrow.None? {
        return false;
      }
      var fTomorrowNight := GetForecastWithEndTime(clock.DayAfter06, periods, parseTime);
      if fTomorrowNight.None? {
        return false;
      }
      Weather := Weather.(Forecast2Weekday := clock.Tomorrow, Forecast2HighTemp := fTomorrow.value.Temperature,
                          Forecast2LowTemp := fTomorrowNight.value.Temperature,
                          Forecast2Icon := IconKey(fTomorrow.value.Icon));
      return true;
    }
  }

  // ---------------------------------------------------------------------
  // Draw

  /** `strings.ToUpper(weekday.String()[0:3])`. */
  function DayLabel(w: Weekday): (s: string)
    ensures |s| == 3
  {
    ["SUN", "MON", "TUE", "WED", "THU", "FRI", "SAT"][w]
  }

  /** One of the three boxes: its centre, top text, icon and label. */
  datatype Box = Box(CenterX: int, TopText: string, Icon: Option<string>, Label: string)

  datatype Screen = ErrorScreen(Title: string, Message: string) | Boxes(Boxes: seq<Box>)

  /** The first forecast box's text: high and low, or the low alone when the
      high is 0 (unset after 18:00, or a genuine 0 degrees). */
  function Forecast1Text(w: WeatherData): (s: string)
    ensures w.Forecast1HighTemp == 0 ==> s == Fmt.Itoa(w.Forecast1LowTemp) + "°"
    ensures w.Forecast1HighTemp != 0 ==> s == Fmt.Itoa(w.Forecast1HighTemp) + "°/" + Fmt.Itoa(w.Forecast1LowTemp) + "°"
  {
    if w.Forecast1HighTemp == 0 then Fmt.Itoa(w.Forecast1LowTemp) + "°"
    else Fmt.Itoa(w.Forecast1HighTemp) + "°/" + Fmt.Itoa(w.Forecast1LowTemp) + "°"
  }

  /** `Draw`: an error unless both helpers' last fetches succeeded; else
      the current conditions at x = 21 and the two forecasts at 63 and 105. */
  function Draw(observationsOk: bool, forecastOk: bool, w: WeatherData): (s: Screen)
    ensures s.ErrorScreen? <==> !observationsOk || !forecastOk
    ensures s.ErrorScreen? ==> s == ErrorScreen("Weather", "No data.")
    ensures s.Boxes? ==> (|s.Boxes| == 3 &&
              s.Boxes[0] == Box(21, Fmt.Itoa(w.CurrentTemp) + "°", w.CurrentIcon, "NOW") &&
              s.Boxes[1] == Box(63, Forecast1Text(w), w.Forecast1Icon, DayLabel(w.Forecast1Weekday)) &&
              s.Boxes[2] == Box(105, Fmt.Itoa(w.Forecast2HighTemp) + "°/" + Fmt.Itoa(w.Forecast2LowTemp) + "°",
                                w.Forecast2Icon, DayLabel(w.Forecast2Weekday)))
  {
    if !observationsOk || !forecastOk then ErrorScreen("Weather", "No data.")
    else Boxes([Box(21, Fmt.Itoa(w.CurrentTemp) + "°", w.CurrentIcon, "NOW"),
                Box(63, Forecast1Text(w), w.Forecast1Icon, DayLabel(w.Forecast1Weekday)),
                Box(105, Fmt.Itoa(w.Forecast2HighTemp) + "°/" + Fmt.Itoa(w.Forecast2LowTemp) + "°",
                    w.Forecast2Icon, DayLabel(w.Forecast2Weekday))])
  }
}
