/** flightslide.go: the status of a tracked flight on its day of travel.
    JSON decoding, `civil.ParseDate` and the local date of an epoch second
    are inputs; times are Unix seconds turned into `GoTime` instants. */
module Flight {
  import opened Wrappers
  import opened GoInt
  import opened GoTime
  import Fmt
  import HttpSlide

  type Date = int

  datatype FlightAndDay = FlightAndDay(Id: string, Date: Date)

  /** The zero `FlightAndDay`, which `GetActiveFlight` returns on failure. */
  const NoFlight := FlightAndDay("", 0)

  datatype FlightInfoTime = FlightInfoTime(LocalTime: int, TimeZone: string)
  const ZeroInfoTime := FlightInfoTime(0, "")

  datatype FlightInfoLocation = FlightInfoLocation(Code: string, City: string, AlternateIdent: string, AirportName: string)

  datatype FlightInfoStatus = FlightInfoStatus(
    Airline: string, AirlineIata: string, FlightNumber: string,
    Blocked: bool, Diverted: bool, Cancelled: bool,
    Origin: FlightInfoLocation, Destination: FlightInfoLocation,
    FiledDepartureTime: FlightInfoTime, EstimatedDepartureTime: FlightInfoTime,
    ActualDepartureTime: FlightInfoTime, DepartureDelay: int,
    FiledArrivalTime: FlightInfoTime, EstimatedArrivalTime: FlightInfoTime,
    ActualArrivalTime: FlightInfoTime, ArrivalDelay: int)

  const ZeroLocation := FlightInfoLocation("", "", "", "")
  const ZeroStatus := FlightInfoStatus("", "", "", false, false, false, ZeroLocation, ZeroLocation,
                                       ZeroInfoTime, ZeroInfoTime, ZeroInfoTime, 0,
                                       ZeroInfoTime, ZeroInfoTime, ZeroInfoTime, 0)

  /** What the slide draws. */
  datatype FlightDisplayData = FlightDisplayData(
    Title: string, Origin: string, Destination: string,
    HasDeparted: bool, HasArrived: bool,
    DepartureTime: Instant, ArrivalTime: Instant,
    DepartureDelay: Duration, ArrivalDelay: Duration)

  const EmptyDisplay := FlightDisplayData("", "", "", false, false, ZeroTime, ZeroTime, 0, 0)

  /** `time.Unix(s, 0)`. */
  function Unix(s: int): Instant { s * Second }

  // ---------------------------------------------------------------------
  // NewFlightSlide

  /** The tracked flights after visiting the input's dates in `order`:
      entries whose date does not parse are dropped. */
  function Tracked(flights: map<string, string>, order: seq<string>, parseDate: string -> Option<Date>): seq<FlightAndDay>
    requires forall i :: 0 <= i < |order| ==> order[i] in flights
  {
    if |order| == 0 then []
    else
      var pre := Tracked(flights, order[..|order| - 1], parseDate);
      var key := order[|order| - 1];
      match parseDate(key)
      case None => pre
      case Some(d) => pre + [FlightAndDay(flights[key], d)]
  }

  /** A flight is tracked iff some visited input date parses to its date and
      maps to its id. */
  lemma {:induction false} TrackedEntries(flights: map<string, string>, order: seq<string>, parseDate: string -> Option<Date>, f: FlightAndDay)
    requires forall i :: 0 <= i < |order| ==> order[i] in flights
    ensures f in Tracked(flights, order, parseDate) <==>
            exists i :: 0 <= i < |order| && parseDate(order[i]) == Some(f.Date) && flights[order[i]] == f.Id
  {
    if |order| > 0 {
      var pre := order[..|order| - 1];
      TrackedEntries(flights, pre, parseDate, f);
      assert forall i :: 0 <= i < |pre| ==> pre[i] == order[i];
      var key := order[|order| - 1];
      if parseDate(key) == Some(f.Date) && flights[key] == f.Id {
        assert f in Tracked(flights, order, parseDate);
      }
    }
  }

  /** The input is keyed by date, so when distinct date texts parse to
      distinct dates no two tracked flights share a day: which flight is
      active does not depend on the map's iteration order. */
  lemma {:induction false} OneFlightPerDay(flights: map<string, string>, order: seq<string>, parseDate: string -> Option<Date>)
    requires forall i :: 0 <= i < |order| ==> order[i] in flights
    requires forall i, j :: 0 <= i < j < |order| ==> order[i] != order[j]
    requires forall a, b :: a != b && parseDate(a).Some? && parseDate(b).Some? ==> parseDate(a) != parseDate(b)
    ensures var t := Tracked(flights, order, parseDate);
            forall i, j :: 0 <= i < j < |t| ==> t[i].Date != t[j].Date
  {
    if |order| > 0 {
      var pre := order[..|order| - 1];
      var key := order[|order| - 1];
      OneFlightPerDay(flights, pre, parseDate);
      var t0 := Tracked(flights, pre, parseDate);
      if parseDate(key).Some? {
        forall i | 0 <= i < |t0|
          ensures t0[i].Date != parseDate(key).value
        {
          TrackedEntries(flights, pre, parseDate, t0[i]);
          var k :| 0 <= k < |pre| && parseDate(pre[k]) == Some(t0[i].Date) && flights[pre[k]] == t0[i].Id;
          assert pre[k] == order[k];
        }
      }
    }
  }

  // ---------------------------------------------------------------------
  // Parse

  /** The departure (or arrival) time: the filed time when there is no
      estimate, the estimate when there is no actual time, else the actual
      time, which also marks the event as having happened. */
  function PickTime(filed: FlightInfoTime, estimated: FlightInfoTime, actual: FlightInfoTime): (r: (Instant, bool))
    ensures r.1 <==> estimated != ZeroInfoTime && actual != ZeroInfoTime
    ensures r.0 == Unix((if estimated == ZeroInfoTime then filed else if actual == ZeroInfoTime then estimated else actual).LocalTime)
  {
    if estimated == ZeroInfoTime then (Unix(filed.LocalTime), false)
    else if actual == ZeroInfoTime then (Unix(estimated.LocalTime), false)
    else (Unix(actual.LocalTime), true)
  }

  /** The display data for the flight `f`. */
  function DisplayFor(f: FlightInfoStatus): (dd: FlightDisplayData)
    ensures dd.Title == f.AirlineIata + " " + f.FlightNumber
    ensures dd.Origin == f.Origin.AlternateIdent && dd.Destination == f.Destination.AlternateIdent
    ensures (dd.DepartureTime, dd.HasDeparted) == PickTime(f.FiledDepartureTime, f.EstimatedDepartureTime, f.ActualDepartureTime)
    ensures (dd.ArrivalTime, dd.HasArrived) == PickTime(f.FiledArrivalTime, f.EstimatedArrivalTime, f.ActualArrivalTime)
    ensures dd.DepartureDelay == f.DepartureDelay * Second && dd.ArrivalDelay == f.ArrivalDelay * Second
    ensures dd != EmptyDisplay
  {
    var dep := PickTime(f.FiledDepartureTime, f.EstimatedDepartureTime, f.ActualDepartureTime);
    var arr := PickTime(f.FiledArrivalTime, f.EstimatedArrivalTime, f.ActualArrivalTime);
    assert |f.AirlineIata + " " + f.FlightNumber| > 0;
    FlightDisplayData(f.AirlineIata + " " + f.FlightNumber, f.Origin.AlternateIdent, f.Destination.AlternateIdent,
                      dep.1, arr.1, dep.0, arr.0, f.DepartureDelay * Second, f.ArrivalDelay * Second)
  }

  /** Whether flight `i` is the first whose filed departure falls on `today`. */
  predicate FirstFiledOn(flights: seq<FlightInfoStatus>, i: int, today: Date, dateOf: int -> Date) {
    0 <= i < |flights| && dateOf(flights[i].FiledDepartureTime.LocalTime) == today &&
    forall j :: 0 <= j < i ==> dateOf(flights[j].FiledDepartureTime.LocalTime) != today
  }

  /** The first flight whose filed departure falls on `today`, or the zero
      flight when none does. */
  method FindTarget(flights: seq<FlightInfoStatus>, today: Date, dateOf: int -> Date) returns (target: FlightInfoStatus)
    ensures forall i :: FirstFiledOn(flights, i, today, dateOf) ==> target == flights[i]
    ensures (forall i :: 0 <= i < |flights| ==> dateOf(flights[i].FiledDepartureTime.LocalTime) != today) ==> target == ZeroStatus
    ensures target != ZeroStatus ==> exists i :: FirstFiledOn(flights, i, today, dateOf) && flights[i] == target
  {
    for i := 0 to |flights|
      invariant forall j :: 0 <= j < i ==> dateOf(flights[j].FiledDepartureTime.LocalTime) != today
    {
      if dateOf(flights[i].FiledDepartureTime.LocalTime) == today {
        assert FirstFiledOn(flights, i, today, dateOf);
        return flights[i];
      }
    }
    return ZeroStatus;
  }

  // ---------------------------------------------------------------------
  // GetDurationString

  /** `d.Round(time.Minute)` for a positive duration: the nearest whole
      minute, halves rounded up. */
  function RoundToMinute(d: Duration): (r: Duration)
    requires d >= 0
    ensures r % Minute == 0
    ensures d - Minute / 2 < r <= d + Minute / 2
  {
    (d + Minute / 2) / Minute * Minute
  }

  /** Hours and minutes of a rounded duration of at least one hour. */
  function HoursMinutes(d: Duration): (hm: (int, int))
    requires d >= Hour
    ensures hm.0 >= 1 && 0 <= hm.1 < 60
    ensures hm.0 * Hour + hm.1 * Minute == RoundToMinute(d)
  {
    var dm := RoundToMinute(d);
    var k := (d + Minute / 2) / Minute;
    assert dm == k * Minute;
    SplitMinutes(k);
    var h := dm / Hour;
    var m := (dm - h * Hour) / Minute;
    (h, m)
  }

  /** `k` whole minutes are `k / 60` hours and `k % 60` minutes. */
  lemma SplitMinutes(k: int)
    requires k * Minute >= Hour - Minute / 2
    ensures k >= 60 && k / 60 >= 1
    ensures (k * Minute) / Hour == k / 60
    ensures (k * Minute - (k / 60) * Hour) / Minute == k % 60
  {
    assert k * Minute == (k / 60) * Hour + (k % 60) * Minute;
    DivUnique(k * Minute, Hour, k / 60, (k % 60) * Minute);
    DivUnique(k * Minute - (k / 60) * Hour, Minute, k % 60, 0);
  }

  /** `GetDurationString`: "h:mm" for at least an hour, else the whole
      minutes, truncated toward zero, followed by " Min". */
  function GetDurationString(d: Duration): (s: string)
    ensures d >= Hour ==> s == Fmt.Itoa(HoursMinutes(d).0) + ":" + Fmt.Pad2(HoursMinutes(d).1)
    ensures d < Hour ==> s == Fmt.Itoa(GoDiv(d, Minute)) + " Min"
  {
    if d >= Hour then
      var hm := HoursMinutes(d);
      Fmt.Itoa(hm.0) + ":" + Fmt.Pad2(hm.1)
    else Fmt.Itoa(GoDiv(d, Minute)) + " Min"
  }

  /** Under an hour the minutes are truncated, not rounded: a duration from
      0 up to an hour reads its whole minutes `m`, from 0 to 59, with
      `m` minutes at most the duration and `m + 1` more than it, and anything
      strictly within a minute of zero, either side, reads "0 Min". */
  lemma ShortDurationsTruncate(d: Duration)
    requires -Minute < d < Hour
    ensures d >= 0 ==> 0 <= d / Minute <= 59 && (d / Minute) * Minute <= d < (d / Minute + 1) * Minute
    ensures GetDurationString(d) == Fmt.Itoa(if d >= 0 then d / Minute else 0) + " Min"
  {
    if d < 0 {
      assert Abs(d) / Abs(Minute) == 0;
    }
  }

  // ---------------------------------------------------------------------
  // Draw

  datatype Color = Green | Yellow
  datatype Status = Status(Text: string, Color: Color)

  /** The status line: before departure the departure delay decides, before
      arrival the arrival delay, and after both "Arrived". */
  function StatusOf(dd: FlightDisplayData): (s: Status)
    ensures s.Text == "Arrived" <==> dd.HasDeparted && dd.HasArrived
    ensures s.Color == Yellow <==>
              (if !dd.HasDeparted then dd.DepartureDelay > 0 else !dd.HasArrived && dd.ArrivalDelay > 0)
    ensures s.Color == Yellow ==>
              s.Text == GetDurationString(if !dd.HasDeparted then dd.DepartureDelay else dd.ArrivalDelay) + " Late"
    ensures s.Color == Green && !(dd.HasDeparted && dd.HasArrived) ==> s.Text == "On Time"
  {
    if !dd.HasDeparted then
      if dd.DepartureDelay > 0 then Status(GetDurationString(dd.DepartureDelay) + " Late", Yellow)
      else Status("On Time", Green)
    else if !dd.HasArrived then
      if dd.ArrivalDelay > 0 then Status(GetDurationString(dd.ArrivalDelay) + " Late", Yellow)
      else Status("On Time", Green)
    else Status("Arrived", Green)
  }

  datatype Screen =
    | ErrorScreen(Title: string, Message: string)
    | Board(Title: string, Origin: string, Destination: string, Status: Status,
            DeparturePrefix: string, DepartureTime: Instant, ArrivalPrefix: string, ArrivalTime: Instant)

  /** `Draw`: a connection error first, then missing data, then the board. */
  function Draw(lastFetchSuccess: bool, dd: FlightDisplayData): (s: Screen)
    ensures !lastFetchSuccess ==> s == ErrorScreen("Flight Status", "Connection error.")
    ensures lastFetchSuccess && dd == EmptyDisplay ==> s == ErrorScreen("Flight Status", "No data.")
    ensures s.Board? <==> lastFetchSuccess && dd != EmptyDisplay
    ensures s.Board? ==> s.Status == StatusOf(dd) &&
                         (s.DeparturePrefix == "Dep. " <==> dd.HasDeparted) &&
                         (s.ArrivalPrefix == "Arr. " <==> dd.HasArrived)
  {
    if !lastFetchSuccess then ErrorScreen("Flight Status", "Connection error.")
    else if dd == EmptyDisplay then ErrorScreen("Flight Status", "No data.")
    else Board(dd.Title, dd.Origin, dd.Destination, StatusOf(dd),
               if dd.HasDeparted then "Dep. " else "Est. Dep. ", dd.DepartureTime,
               if dd.HasArrived then "Arr. " else "Est. Arr. ", dd.ArrivalTime)
  }

  /** What `Parse` does, given the decoded response `flights` (`None` when
      the JSON does not decode): its verdict `ok`, and the display data and
      ticker state it leaves, from `prev` and `wasTicking`. A response
      without a flight filed for today clears the display; an arrived flight
      stops the fetch loop. */
  ghost predicate ParseEffect(flights: Option<seq<FlightInfoStatus>>, today: Date, dateOf: int -> Date,
                        prev: FlightDisplayData, wasTicking: bool, ok: bool, dd: FlightDisplayData, ticking: bool)
  {
    (flights.None? ==> !ok && dd == prev && ticking == wasTicking) &&
    (flights.Some? && !ok ==>
       dd == EmptyDisplay && ticking == wasTicking &&
       forall i :: FirstFiledOn(flights.value, i, today, dateOf) ==> flights.value[i] == ZeroStatus) &&
    (ok ==>
       flights.Some? && ticking == (wasTicking && !dd.HasArrived) &&
       exists i :: FirstFiledOn(flights.value, i, today, dateOf) && flights.value[i] != ZeroStatus &&
                   dd == DisplayFor(flights.value[i]))
  }

  // ---------------------------------------------------------------------

  class FlightSlide {
    const TrackedFlights: seq<FlightAndDay>
    var ActiveFlight: FlightAndDay
    var DisplayData: FlightDisplayData
    const Helper: HttpSlide.HttpHelper

    /** `NewFlightSlide`, visiting the input's dates in the map's iteration
        order `order`; `parse` is the verdict the helper's parser gives. */
    constructor (flights: map<string, string>, order: seq<string>, parseDate: string -> Option<Date>, parse: seq<uint8> -> bool)
      requires forall k :: k in flights <==> k in order
      requires forall i, j :: 0 <= i < j < |order| ==> order[i] != order[j]
      ensures TrackedFlights == Tracked(flights, order, parseDate)
      ensures ActiveFlight == NoFlight && DisplayData == EmptyDisplay
      ensures fresh(Helper) && !Helper.TickerActive && !Helper.LastFetchSuccess
      ensures Helper.Config == HttpSlide.HttpConfig("FlightSlide", 10 * Minute, "", true, parse)
    {
      var tracked := [];
      for i := 0 to |order|
        invariant tracked == Tracked(flights, order[..i], parseDate)
      {
        assert order[..i + 1][..i] == order[..i];
        var d := parseDate(order[i]);
        if d.None? {
          continue;
        }
        tracked := tracked + [FlightAndDay(flights[order[i]], d.value)];
      }
      assert order[..|order|] == order;
      TrackedFlights := tracked;
      ActiveFlight := NoFlight;
      DisplayData := EmptyDisplay;
      Helper := new HttpSlide.HttpHelper(HttpSlide.HttpConfig("FlightSlide", 10 * Minute, "", true, parse));
    }

    /** `GetActiveFlight`: the first tracked flight dated `today`. */
    method GetActiveFlight(today: Date) returns (flight: FlightAndDay, ok: bool)
      ensures ok <==> exists i :: 0 <= i < |TrackedFlights| && TrackedFlights[i].Date == today
      ensures !ok ==> flight == NoFlight
      ensures ok ==> exists i :: 0 <= i < |TrackedFlights| && TrackedFlights[i] == flight && flight.Date == today &&
                                 forall j :: 0 <= j < i ==> TrackedFlights[j].Date != today
    {
      for i := 0 to |TrackedFlights|
        invariant forall j :: 0 <= j < i ==> TrackedFlights[j].Date != today
      {
        if TrackedFlights[i].Date == today {
          return TrackedFlights[i], true;
        }
      }
      return NoFlight, false;
    }

    /** `IsEnabled`: some tracked flight is dated `today`. */
    method IsEnabled(today: Date) returns (enabled: bool)
      ensures enabled <==> exists i :: 0 <= i < |TrackedFlights| && TrackedFlights[i].Date == today
    {
      var _, ok := GetActiveFlight(today);
      enabled := ok;
    }

    /** `Initialize` on day `today`: with an active flight, focus on it and
        start fetching. Starting the loop fetches once, synchronously, and
        that fetch runs `Parse` on the body it receives, decoded by
        `decode`. Without an active flight nothing changes. */
    method Initialize(today: Date, inputs: HttpSlide.FetchInputs,
                      decode: seq<uint8> -> Option<seq<FlightInfoStatus>>, dateOf: int -> Date)
      modifies this`ActiveFlight, this`DisplayData
      modifies Helper`LastFetchSuccess, Helper`Parsed, Helper`Fetches, Helper`TickerActive
      ensures (exists i :: 0 <= i < |TrackedFlights| && TrackedFlights[i].Date == today) ==>
                exists i :: 0 <= i < |TrackedFlights| && TrackedFlights[i] == ActiveFlight && ActiveFlight.Date == today &&
                            forall j :: 0 <= j < i ==> TrackedFlights[j].Date != today
      ensures !(exists i :: 0 <= i < |TrackedFlights| && TrackedFlights[i].Date == today) ==>
                ActiveFlight == old(ActiveFlight) && DisplayData == old(DisplayData) &&
                Helper.TickerActive == old(Helper.TickerActive) && Helper.LastFetchSuccess == old(Helper.LastFetchSuccess) &&
                Helper.Fetches == old(Helper.Fetches) && Helper.Parsed == old(Helper.Parsed)
      // a loop already running is left alone
      ensures (exists i :: 0 <= i < |TrackedFlights| && TrackedFlights[i].Date == today) && old(Helper.TickerActive) ==>
                DisplayData == old(DisplayData) && Helper.TickerActive &&
                Helper.LastFetchSuccess == old(Helper.LastFetchSuccess) &&
                Helper.Fetches == old(Helper.Fetches) && Helper.Parsed == old(Helper.Parsed)
      // otherwise the ticker is set and the first fetch is made and parsed
      ensures (exists i :: 0 <= i < |TrackedFlights| && TrackedFlights[i].Date == today) && !old(Helper.TickerActive) ==>
                Helper.Fetches == old(Helper.Fetches) + 1 &&
                match HttpSlide.BodyToParse(Helper.Config, inputs)
                case None =>
                  !Helper.LastFetchSuccess && Helper.TickerActive && DisplayData == old(DisplayData) &&
                  Helper.Parsed == old(Helper.Parsed)
                case Some(body) =>
                  Helper.Parsed == old(Helper.Parsed) + [body] &&
                  ParseEffect(decode(body), today, dateOf, old(DisplayData), true,
                              Helper.LastFetchSuccess, DisplayData, Helper.TickerActive)
    {
      var flight, ok := GetActiveFlight(today);
      if !ok {
        return;
      }
      ActiveFlight := flight;
      var started := Helper.StartTicker();
      if started {
        var body := Helper.Request(inputs);
        if body.Some? {
          var parsed := Parse(decode(body.value), today, dateOf);
          Helper.Deliver(body.value, parsed);
        }
      }
    }

    /** `Terminate`: stops the fetch loop, which an arrived flight may
        already have stopped. */
    method Terminate()
      modifies Helper`TickerActive
      ensures !Helper.TickerActive
    {
      var _ := Helper.StopLoop();
    }

    /** `Parse` on day `today`, with `flights` the decoded response and
        `dateOf` the local date of an epoch second. */
    method Parse(flights: Option<seq<FlightInfoStatus>>, today: Date, dateOf: int -> Date) returns (ok: bool)
      modifies this`DisplayData, Helper`TickerActive
      ensures ParseEffect(flights, today, dateOf, old(DisplayData), old(Helper.TickerActive), ok, DisplayData, Helper.TickerActive)
    {
      if flights.None? {
        return false;
      }
      var target := FindTarget(flights.value, today, dateOf);
      if target == ZeroStatus {
        DisplayData := EmptyDisplay;
        return false;
      }
      var dd := DisplayFor(target);
      if dd.HasArrived {
        var _ := Helper.StopLoop();
      }
      DisplayData := dd;
      return true;
    }
  }
}
