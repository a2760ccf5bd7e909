/** countdownslide.go: days remaining until up to four dated events. */
module Countdown {
  import opened Colors
  import Fmt

  type Date = int

  datatype CountdownEvent = CountdownEvent(date: Date, name: string, color: RGBA)

  /** The events not dated before `today`, in their original order. */
  function Upcoming(events: seq<CountdownEvent>, today: Date): seq<CountdownEvent> {
    if |events| == 0 then []
    else
      var rest := Upcoming(events[..|events| - 1], today);
      var e := events[|events| - 1];
      if e.date < today then rest else rest + [e]
  }

  /** Exactly the events dated today or later remain, and none of them is
      dated before today. */
  lemma {:induction false} UpcomingMembers(events: seq<CountdownEvent>, today: Date)
    ensures forall e :: e in Upcoming(events, today) <==> e in events && e.date >= today
    ensures |Upcoming(events, today)| <= |events|
  {
    if |events| > 0 {
      var pre := events[..|events| - 1];
      UpcomingMembers(pre, today);
      assert events == pre + [events[|events| - 1]];
    }
  }

  /** Order is kept: filtering then appending equals appending then
      filtering. */
  lemma {:induction false} UpcomingAppend(xs: seq<CountdownEvent>, ys: seq<CountdownEvent>, today: Date)
    ensures Upcoming(xs + ys, today) == Upcoming(xs, today) + Upcoming(ys, today)
    decreases |ys|
  {
    if |ys| == 0 {
      assert xs + ys == xs;
    } else {
      var init := ys[..|ys| - 1];
      assert (xs + ys)[..|xs + ys| - 1] == xs + init;
      UpcomingAppend(xs, init, today);
    }
  }

  /** The filter loop of `Draw`. */
  method FilterEvents(events: seq<CountdownEvent>, today: Date) returns (filtered: seq<CountdownEvent>)
    ensures filtered == Upcoming(events, today)
  {
    filtered := [];
    for i := 0 to |events|
      invariant filtered == Upcoming(events[..i], today)
    {
      assert events[..i + 1][..i] == events[..i];
      if events[i].date < today {
        continue;
      }
      filtered := filtered + [events[i]];
    }
    assert events[..|events|] == events;
  }

  /** The rows the events are written at, spread for 1, 2 or 3 events. */
  function YVals(n: nat): (ys: seq<int>)
    ensures 1 <= n <= 3 ==> |ys| == n
    ensures n == 0 || n > 3 ==> |ys| == 4
    ensures forall i, j :: 0 <= i < j < |ys| ==> ys[i] < ys[j]
  {
    if n == 1 then [13]
    else if n == 2 then [6, 19]
    else if n == 3 then [3, 13, 23]
    else [0, 8, 16, 24]
  }

  /** A line of the slide: the days remaining, in white right-aligned at
      x = 20, and the event's label in its own colour left-aligned at x = 26. */
  datatype Line = Line(y: int, days: int, daysText: string, name: string, color: RGBA)

  /** `Draw` on day `today`: the first four upcoming events, one per row. */
  method Draw(events: seq<CountdownEvent>, today: Date) returns (lines: seq<Line>)
    ensures var up := Upcoming(events, today);
            |lines| == if |up| < 4 then |up| else 4
    ensures var up := Upcoming(events, today);
            forall i :: 0 <= i < |lines| ==>
              lines[i].y == YVals(|up|)[i] && lines[i].days == up[i].date - today && lines[i].days >= 0 &&
              lines[i].daysText == Fmt.Itoa(lines[i].days) && lines[i].name == up[i].name && lines[i].color == up[i].color
  {
    var filtered := FilterEvents(events, today);
    UpcomingMembers(events, today);
    var yVals := YVals(|filtered|);
    lines := [];
    for i := 0 to |filtered|
      invariant |lines| == i && i <= 4
      invariant forall k :: 0 <= k < i ==>
                  lines[k].y == yVals[k] && lines[k].days == filtered[k].date - today && lines[k].days >= 0 &&
                  lines[k].daysText == Fmt.Itoa(lines[k].days) && lines[k].name == filtered[k].name &&
                  lines[k].color == filtered[k].color
    {
      var event := filtered[i];
      assert event in filtered;
      var y := yVals[i];
      var days := event.date - today;
      lines := lines + [Line(y, days, Fmt.Itoa(days), event.name, event.color)];
      if i >= 3 {
        break;
      }
    }
  }
}
