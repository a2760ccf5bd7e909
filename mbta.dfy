/** mbtaslide.go: departure predictions for one MBTA station. The JSON
    response arrives already decoded into resources, and RFC 3339 time
    parsing is a function parameter. */
module Mbta {
  import opened Wrappers
  import opened GoTime
  import Fmt

  const StationNames: map<string, string> := map[
    "place-davis" := "DAVIS SQUARE",
    "place-pktrm" := "PARK STREET",
    "place-knncl" := "KENDALL SQUARE",
    "place-chmnl" := "CHARLES/MGH",
    "place-gover" := "GOVERNMENT CENTER",
    "place-harsq" := "HARVARD SQUARE",
    "place-spmnl" := "SCIENCE PARK",
    "place-lech" := "LECHMERE",
    "place-unsqu" := "UNION SQUARE"]

  /** `NewMbtaSlide`'s station name: the known name, or "?????". */
  function LookupStationName(stationId: string): (name: string)
    ensures stationId in StationNames ==> name == StationNames[stationId]
    ensures stationId !in StationNames ==> name == "?????"
  {
    if stationId in StationNames then StationNames[stationId] else "?????"
  }

  datatype RouteType = Unknown | LightRail | HeavyRail | CommuterRail | Bus

  /** The `iota` value of a route type, which `%d` prints. */
  function TypeCode(t: RouteType): (n: nat)
    ensures n < 5
  {
    match t
    case Unknown => 0
    case LightRail => 1
    case HeavyRail => 2
    case CommuterRail => 3
    case Bus => 4
  }

  /** The API's route type codes 0..3; any other code is `Unknown`. */
  function RouteTypeOf(code: int): (t: RouteType)
    ensures 0 <= code <= 3 ==> TypeCode(t) == code + 1
    ensures !(0 <= code <= 3) ==> t == Unknown
  {
    if code == 0 then LightRail
    else if code == 1 then HeavyRail
    else if code == 2 then CommuterRail
    else if code == 3 then Bus
    else Unknown
  }

  datatype Route = Route(Type: RouteType, Id: string, Color: string, Destination: string)

  /** The fields of an API resource the slide reads. `TripId` and `RouteId`
      are the ids in its trip and route relationships. */
  datatype Resource = Resource(
    Type: string, Id: string, TripId: string, RouteId: string,
    DepartureTime: string, Headsign: string, Color: string, RouteTypeCode: int)

  datatype Prediction = Prediction(Route: Route, Time: seq<Instant>)

  // ---------------------------------------------------------------------
  // Maps built by a pass over a list: the last write to a key wins, or the
  // values for a key are appended in list order.

  /** The map left by storing `f(x)`'s (key, value), where present, for each
      `x` of `xs` in turn. */
  function LastWins<T, V>(xs: seq<T>, f: T -> Option<(string, V)>): map<string, V>
  {
    if |xs| == 0 then map[]
    else
      var m := LastWins(xs[..|xs| - 1], f);
      match f(xs[|xs| - 1])
      case Some(kv) => m[kv.0 := kv.1]
      case None => m
  }

  predicate WritesKey<T, V>(f: T -> Option<(string, V)>, x: T, k: string) {
    f(x).Some? && f(x).value.0 == k
  }

  /** A key is present iff some element writes it, and its value is the one
      written by the last element that writes it. */
  lemma LastWinsEntry<T, V>(xs: seq<T>, f: T -> Option<(string, V)>, k: string)
    ensures k in LastWins(xs, f) <==> exists i :: 0 <= i < |xs| && WritesKey(f, xs[i], k)
    ensures k in LastWins(xs, f) ==>
              exists i :: 0 <= i < |xs| && WritesKey(f, xs[i], k) && LastWins(xs, f)[k] == f(xs[i]).value.1 &&
                          forall j :: i < j < |xs| ==> !WritesKey(f, xs[j], k)
  {
    LastWinsPresent(xs, f, k);
    if k in LastWins(xs, f) {
      LastWinsLatest(xs, f, k);
    }
  }

  lemma {:induction false} LastWinsPresent<T, V>(xs: seq<T>, f: T -> Option<(string, V)>, k: string)
    ensures k in LastWins(xs, f) <==> exists i :: 0 <= i < |xs| && WritesKey(f, xs[i], k)
  {
    if |xs| > 0 {
      var pre := xs[..|xs| - 1];
      LastWinsPresent(pre, f, k);
      if !WritesKey(f, xs[|xs| - 1], k) {
        assert k in LastWins(xs, f) <==> k in LastWins(pre, f);
        if k in LastWins(pre, f) {
          var i :| 0 <= i < |pre| && WritesKey(f, pre[i], k);
          assert xs[i] == pre[i];
        }
        if i :| 0 <= i < |xs| && WritesKey(f, xs[i], k) {
          assert pre[i] == xs[i];
        }
      }
    }
  }

  lemma {:induction false} LastWinsLatest<T, V>(xs: seq<T>, f: T -> Option<(string, V)>, k: string)
    requires k in LastWins(xs, f)
    ensures exists i :: 0 <= i < |xs| && WritesKey(f, xs[i], k) && LastWins(xs, f)[k] == f(xs[i]).value.1 &&
                        forall j :: i < j < |xs| ==> !WritesKey(f, xs[j], k)
  {
    var pre := xs[..|xs| - 1];
    if WritesKey(f, xs[|xs| - 1], k) {
      assert LastWins(xs, f)[k] == f(xs[|xs| - 1]).value.1;
    } else {
      assert k in LastWins(pre, f) && LastWins(xs, f)[k] == LastWins(pre, f)[k];
      LastWinsLatest(pre, f, k);
      var i :| 0 <= i < |pre| && WritesKey(f, pre[i], k) && LastWins(pre, f)[k] == f(pre[i]).value.1 &&
               forall j :: i < j < |pre| ==> !WritesKey(f, pre[j], k);
      assert xs[i] == pre[i];
      assert forall j :: i < j < |xs| ==> !WritesKey(f, xs[j], k) by {
        forall j | i < j < |xs| ensures !WritesKey(f, xs[j], k) {
          if j < |pre| { assert xs[j] == pre[j]; }
        }
      }
    }
  }

  /** The values written under `k`, in list order. */
  function Collect<T, V>(xs: seq<T>, f: T -> Option<(string, V)>, k: string): seq<V>
  {
    if |xs| == 0 then []
    else Collect(xs[..|xs| - 1], f, k) + if WritesKey(f, xs[|xs| - 1], k) then [f(xs[|xs| - 1]).value.1] else []
  }

  /** The map left by appending `f(x)`'s value to its key's list. */
  function Grouped<T, V>(xs: seq<T>, f: T -> Option<(string, V)>): map<string, seq<V>>
  {
    if |xs| == 0 then map[]
    else
      var m := Grouped(xs[..|xs| - 1], f);
      match f(xs[|xs| - 1])
      case Some(kv) => m[kv.0 := (if kv.0 in m then m[kv.0] else []) + [kv.1]]
      case None => m
  }

  /** Grouping keeps every value under its key in list order, and a key
      appears only with at least one value. */
  lemma {:induction false} GroupedIsCollect<T, V>(xs: seq<T>, f: T -> Option<(string, V)>, k: string)
    ensures k in Grouped(xs, f) <==> Collect(xs, f, k) != []
    ensures k in Grouped(xs, f) ==> Grouped(xs, f)[k] == Collect(xs, f, k)
  {
    if |xs| > 0 {
      GroupedIsCollect(xs[..|xs| - 1], f, k);
    }
  }

  // ---------------------------------------------------------------------
  // BuildTripIdToRouteMap

  /** A "route" resource's definition, without a destination. */
  function RouteEntry(r: Resource): Option<(string, Route)> {
    if r.Type == "route" then Some((r.Id, Route(RouteTypeOf(r.RouteTypeCode), r.Id, r.Color, ""))) else None
  }

  /** A "trip" resource of a known route: the route with the trip's headsign
      as destination, under the trip's id. */
  function TripEntry(defs: map<string, Route>, r: Resource): Option<(string, Route)> {
    if r.Type == "trip" && r.RouteId in defs then
      var d := defs[r.RouteId];
      Some((r.Id, Route(d.Type, d.Id, d.Color, r.Headsign)))
    else None
  }

  function TripRoutes(rs: seq<Resource>): map<string, Route> {
    var defs := LastWins(rs, RouteEntry);
    LastWins(rs, r => TripEntry(defs, r))
  }

  /** A trip is in the map iff it names a route defined among the resources;
      its entry copies that route's type, id and colour and takes the trip's
      headsign, from the last such trip resource. */
  lemma TripRoutesEntry(rs: seq<Resource>, tripId: string)
    ensures tripId in TripRoutes(rs) <==>
              exists i, j :: 0 <= i < |rs| && 0 <= j < |rs| && rs[i].Type == "trip" && rs[i].Id == tripId &&
                             rs[j].Type == "route" && rs[j].Id == rs[i].RouteId
    ensures tripId in TripRoutes(rs) ==>
              exists i :: 0 <= i < |rs| && rs[i].Type == "trip" && rs[i].Id == tripId &&
                rs[i].RouteId in LastWins(rs, RouteEntry) &&
                var d := LastWins(rs, RouteEntry)[rs[i].RouteId];
                TripRoutes(rs)[tripId] == Route(d.Type, d.Id, d.Color, rs[i].Headsign)
  {
    var defs := LastWins(rs, RouteEntry);
    var f := (r: Resource) => TripEntry(defs, r);
    LastWinsEntry(rs, f, tripId);
    forall i | 0 <= i < |rs| && rs[i].Type == "trip" && rs[i].Id == tripId
      ensures rs[i].RouteId in defs <==> exists j :: 0 <= j < |rs| && rs[j].Type == "route" && rs[j].Id == rs[i].RouteId
    {
      LastWinsEntry(rs, RouteEntry, rs[i].RouteId);
      assert forall j :: 0 <= j < |rs| ==> (WritesKey(RouteEntry, rs[j], rs[i].RouteId) <==> rs[j].Type == "route" && rs[j].Id == rs[i].RouteId);
    }
    assert forall i :: 0 <= i < |rs| ==> (WritesKey(f, rs[i], tripId) <==> rs[i].Type == "trip" && rs[i].Id == tripId && rs[i].RouteId in defs);
  }

  /** `BuildTripIdToRouteMap`: route definitions first, then the trips. */
  method BuildTripIdToRouteMap(rs: seq<Resource>) returns (m: map<string, Route>)
    ensures m == TripRoutes(rs)
  {
    var routeDefs: map<string, Route> := map[];
    for i := 0 to |rs|
      invariant routeDefs == LastWins(rs[..i], RouteEntry)
    {
      assert rs[..i + 1][..i] == rs[..i];
      var r := rs[i];
      if r.Type == "route" {
        routeDefs := routeDefs[r.Id := Route(RouteTypeOf(r.RouteTypeCode), r.Id, r.Color, "")];
      }
    }
    assert rs[..|rs|] == rs;
    m := map[];
    for i := 0 to |rs|
      invariant m == LastWins(rs[..i], r => TripEntry(routeDefs, r))
    {
      assert rs[..i + 1][..i] == rs[..i];
      var r := rs[i];
      if r.Type == "trip" {
        if r.RouteId in routeDefs {
          var route := routeDefs[r.RouteId];
          m := m[r.Id := Route(route.Type, route.Id, route.Color, r.Headsign)];
        }
      }
    }
    assert rs[..|rs|] == rs;
  }

  // ---------------------------------------------------------------------
  // RouteToString

  /** `%d/%s/%s/%s` of type, colour, id and destination: the string opens
      with the type's code and a slash and closes with a slash and the
      destination. */
  function RouteToString(r: Route): (s: string)
    ensures |s| == |Fmt.Itoa(TypeCode(r.Type))| + |r.Color| + |r.Id| + |r.Destination| + 3
    ensures s[..|Fmt.Itoa(TypeCode(r.Type))| + 1] == Fmt.Itoa(TypeCode(r.Type)) + "/"
    ensures s[|s| - |r.Destination| - 1..] == "/" + r.Destination
  {
    var head, tail := Fmt.Itoa(TypeCode(r.Type)) + "/", r.Color + "/" + r.Id + "/";
    assert (head + tail + r.Destination)[..|head|] == head;
    assert (head + tail + r.Destination)[|head| + |tail| - 1..] == "/" + r.Destination;
    Fmt.Itoa(TypeCode(r.Type)) + "/" + r.Color + "/" + r.Id + "/" + r.Destination
  }

  predicate NoSlash(s: string) { forall i :: 0 <= i < |s| ==> s[i] != '/' }

  /** In `x + "/" + y` with no '/' in `x`, the first '/' is at `|x|`. */
  lemma FirstSlashAt(x: string, y: string)
    requires NoSlash(x)
    ensures (x + "/" + y)[|x|] == '/'
    ensures forall i :: 0 <= i < |x| ==> (x + "/" + y)[i] != '/'
  {
  }

  lemma SplitAtSlash(x: string, y: string, x': string, y': string)
    requires NoSlash(x) && NoSlash(x') && x + "/" + y == x' + "/" + y'
    ensures x == x' && y == y'
  {
    var s := x + "/" + y;
    FirstSlashAt(x, y);
    FirstSlashAt(x', y');
    assert |x| == |x'|;
    assert x == s[..|x|] == x';
    assert y == s[|x| + 1..] == y';
  }

  /** Four fields joined by '/', the first three without one, split back
      uniquely. */
  lemma SplitFields(t: string, c: string, i: string, d: string, t': string, c': string, i': string, d': string)
    requires NoSlash(t) && NoSlash(c) && NoSlash(i) && NoSlash(t') && NoSlash(c') && NoSlash(i')
    requires t + "/" + c + "/" + i + "/" + d == t' + "/" + c' + "/" + i' + "/" + d'
    ensures t == t' && c == c' && i == i' && d == d'
  {
    assert t + "/" + c + "/" + i + "/" + d == t + "/" + (c + "/" + (i + "/" + d));
    assert t' + "/" + c' + "/" + i' + "/" + d' == t' + "/" + (c' + "/" + (i' + "/" + d'));
    SplitAtSlash(t, c + "/" + (i + "/" + d), t', c' + "/" + (i' + "/" + d'));
    SplitAtSlash(c, i + "/" + d, c', i' + "/" + d');
    SplitAtSlash(i, d, i', d');
  }

  /** A route type's code prints without a '/'. */
  lemma CodeNoSlash(t: RouteType)
    ensures NoSlash(Fmt.Itoa(TypeCode(t)))
  {
    assert Fmt.AllDigits(Fmt.Itoa(TypeCode(t)));
  }

  /** The route string loses nothing when colours and ids hold no '/': the
      string keys of the prediction map stand for distinct routes. */
  lemma RouteToStringInjective(a: Route, b: Route)
    requires NoSlash(a.Color) && NoSlash(a.Id) && NoSlash(b.Color) && NoSlash(b.Id)
    requires RouteToString(a) == RouteToString(b)
    ensures a == b
  {
    CodeNoSlash(a.Type);
    CodeNoSlash(b.Type);
    SplitFields(Fmt.Itoa(TypeCode(a.Type)), a.Color, a.Id, a.Destination,
                Fmt.Itoa(TypeCode(b.Type)), b.Color, b.Id, b.Destination);
    Fmt.DigitsRoundTrip(TypeCode(a.Type));
    Fmt.DigitsRoundTrip(TypeCode(b.Type));
  }

  // ---------------------------------------------------------------------
  // BuildRouteToPredictionsMap

  /** A prediction with a departure time that parses and a known trip: its
      time, under its route's string. */
  function PredictionEntry(trips: map<string, Route>, parseTime: string -> Option<Instant>, r: Resource)
    : Option<(string, Instant)>
  {
    if r.Type == "prediction" && |r.DepartureTime| > 0 && parseTime(r.DepartureTime).Some? && r.TripId in trips
    then Some((RouteToString(trips[r.TripId]), parseTime(r.DepartureTime).value))
    else None
  }

  /** `BuildRouteToPredictionsMap`: each route string maps to the times of its
      contributing predictions, in input order. */
  method BuildRouteToPredictionsMap(data: seq<Resource>, trips: map<string, Route>, parseTime: string -> Option<Instant>)
    returns (m: map<string, seq<Instant>>)
    ensures forall k :: k in m <==> Collect(data, r => PredictionEntry(trips, parseTime, r), k) != []
    ensures forall k :: k in m ==> m[k] == Collect(data, r => PredictionEntry(trips, parseTime, r), k)
    ensures m == Grouped(data, r => PredictionEntry(trips, parseTime, r))
  {
    ghost var f := (r: Resource) => PredictionEntry(trips, parseTime, r);
    m := map[];
    for i := 0 to |data|
      invariant m == Grouped(data[..i], f)
    {
      assert data[..i + 1][..i] == data[..i];
      var r := data[i];
      if r.Type == "prediction" {
        if |r.DepartureTime| == 0 {
          continue;
        }
        var t := parseTime(r.DepartureTime);
        if t.None? {
          continue;
        }
        if r.TripId !in trips {
          continue;
        }
        var k := RouteToString(trips[r.TripId]);
        m := m[k := (if k in m then m[k] else []) + [t.value]];
      }
    }
    assert data[..|data|] == data;
    forall k | true
      ensures k in m <==> Collect(data, f, k) != []
      ensures k in m ==> m[k] == Collect(data, f, k)
    {
      GroupedIsCollect(data, f, k);
    }
  }

  // ---------------------------------------------------------------------
  // FlattenPredictions

  /** The first loop of `FlattenPredictions`: each trip's route under its
      route string, visiting the trips in any order. */
  method RouteLookup(trips: map<string, Route>) returns (routeLookup: map<string, Route>)
    ensures forall id :: id in trips ==> RouteToString(trips[id]) in routeLookup
    ensures forall s :: s in routeLookup ==>
              exists id :: id in trips && trips[id] == routeLookup[s] && RouteToString(routeLookup[s]) == s
  {
    routeLookup := map[];
    var todo := trips.Keys;
    while todo != {}
      invariant todo <= trips.Keys
      invariant forall id :: id in trips && id !in todo ==> RouteToString(trips[id]) in routeLookup
      invariant forall s :: s in routeLookup ==>
                  exists id :: id in trips && trips[id] == routeLookup[s] && RouteToString(routeLookup[s]) == s
      decreases |todo|
    {
      var id :| id in todo;
      var v := trips[id];
      routeLookup := routeLookup[RouteToString(v) := v];
      todo := todo - {id};
    }
  }

  /** `FlattenPredictions`. Go visits both maps in a random order; so does
      this loop, which picks any remaining key. The result holds one entry
      per route string with a non-empty time list and a known route, with
      that route and those times. */
  method FlattenPredictions(trips: map<string, Route>, preds: map<string, seq<Instant>>)
    returns (result: seq<Prediction>, ghost lookup: map<string, Route>, ghost order: seq<string>)
    ensures forall id :: id in trips ==> RouteToString(trips[id]) in lookup
    ensures forall s :: s in lookup ==> exists id :: id in trips && trips[id] == lookup[s] && RouteToString(lookup[s]) == s
    ensures |order| == |result|
    ensures forall i, j :: 0 <= i < j < |order| ==> order[i] != order[j]
    ensures forall k :: k in order <==> k in preds && preds[k] != [] && k in lookup
    ensures forall i :: 0 <= i < |result| ==> order[i] in preds && order[i] in lookup &&
                                              result[i] == Prediction(lookup[order[i]], preds[order[i]])
  {
    var routeLookup := RouteLookup(trips);
    lookup := routeLookup;
    result, order := PairPredictions(preds, routeLookup);
  }

  /** What `FlattenPredictions` promises of `result`: `lookup` files every
      trip's route under its route string, and `result` holds, in the order
      `order` names them, one prediction for each distinct route string with
      times and a known route, carrying that route and those times. */
  ghost predicate Flattened(result: seq<Prediction>, trips: map<string, Route>, preds: map<string, seq<Instant>>,
                            lookup: map<string, Route>, order: seq<string>) {
    (forall id :: id in trips ==> RouteToString(trips[id]) in lookup) &&
    (forall s :: s in lookup ==> exists id :: id in trips && trips[id] == lookup[s] && RouteToString(lookup[s]) == s) &&
    |order| == |result| &&
    (forall i, j :: 0 <= i < j < |order| ==> order[i] != order[j]) &&
    (forall k :: k in order <==> k in preds && preds[k] != [] && k in lookup) &&
    (forall i :: 0 <= i < |result| ==> order[i] in preds && order[i] in lookup &&
                                        result[i] == Prediction(lookup[order[i]], preds[order[i]]))
  }

  /** The second loop of `FlattenPredictions`: every route string with a
      non-empty time list and a known route, paired with both, in any order;
      `order` names the route string of each entry. */
  method PairPredictions(preds: map<string, seq<Instant>>, routeLookup: map<string, Route>)
    returns (result: seq<Prediction>, ghost order: seq<string>)
    ensures |order| == |result|
    ensures forall i, j :: 0 <= i < j < |order| ==> order[i] != order[j]
    ensures forall k :: k in order <==> k in preds && preds[k] != [] && k in routeLookup
    ensures forall i :: 0 <= i < |result| ==> order[i] in preds && order[i] in routeLookup &&
                                              result[i] == Prediction(routeLookup[order[i]], preds[order[i]])
  {
    result := [];
    order := [];
    var keys := preds.Keys;
    while keys != {}
      invariant keys <= preds.Keys
      invariant |order| == |result|
      invariant forall i, j :: 0 <= i < j < |order| ==> order[i] != order[j]
      invariant forall k :: k in order <==> k in preds && k !in keys && preds[k] != [] && k in routeLookup
      invariant forall i :: 0 <= i < |result| ==> order[i] in preds && order[i] in routeLookup &&
                                                  result[i] == Prediction(routeLookup[order[i]], preds[order[i]])
      decreases |keys|
    {
      var k :| k in keys;
      keys := keys - {k};
      var v := preds[k];
      if |v| == 0 {
        continue;
      }
      if k !in routeLookup {
        continue;
      }
      result := result + [Prediction(routeLookup[k], v)];
      order := order + [k];
    }
  }


  // ---------------------------------------------------------------------
  // GetMinTime

  ghost predicate Sorted(s: seq<Instant>) {
    forall p, q :: 0 <= p < q < |s| ==> s[p] <= s[q]
  }

  /** One insertion step: `a[..i]` is sorted and `a[i]` moves down by swaps
      until `a[..i + 1]` is. */
  method InsertDown(a: array<Instant>, i: nat)
    requires i < a.Length && Sorted(a[..i])
    modifies a
    ensures Sorted(a[..i + 1])
    ensures multiset(a[..]) == multiset(old(a[..]))
    ensures forall k :: i < k < a.Length ==> a[k] == old(a[k])
  {
    var j := i;
    while j > 0 && a[j - 1] > a[j]
      invariant 0 <= j <= i
      invariant forall p, q :: 0 <= p < q <= i && q != j ==> a[p] <= a[q]
      invariant multiset(a[..]) == multiset(old(a[..]))
      invariant forall k :: i < k < a.Length ==> a[k] == old(a[k])
      decreases j
    {
      Swap(a, j - 1, j);
      j := j - 1;
    }
  }

  /** Exchanges two elements, which keeps the multiset of elements. */
  method Swap(a: array<Instant>, i: nat, j: nat)
    requires i < a.Length && j < a.Length
    modifies a
    ensures a[..] == old(a[..])[i := old(a[j])][j := old(a[i])]
    ensures multiset(a[..]) == multiset(old(a[..]))
  {
    a[i], a[j] := a[j], a[i];
  }

  /** `GetMinTime`: sorts the slice in place, ascending, and returns its first
      element, the earliest time. Go indexes `t[0]`, so the slice must not be
      empty. */
  method GetMinTime(t: array<Instant>) returns (m: Instant)
    requires t.Length > 0
    modifies t
    ensures Sorted(t[..]) && multiset(t[..]) == multiset(old(t[..]))
    ensures m == t[0] && m in old(t[..])
    ensures forall i :: 0 <= i < t.Length ==> m <= old(t[i])
  {
    for i := 0 to t.Length
      invariant Sorted(t[..i])
      invariant multiset(t[..]) == multiset(old(t[..]))
    {
      InsertDown(t, i);
    }
    assert t[..t.Length] == t[..];
    m := t[0];
    assert m in multiset(old(t[..]));
    forall i | 0 <= i < t.Length
      ensures m <= old(t[i])
    {
      assert old(t[i]) in multiset(t[..]);
    }
  }

  // ---------------------------------------------------------------------
  // FilterTimesInPast

  /** The times not before `now` (`time.Until(t) >= 0`), in order. */
  function FutureTimes(ts: seq<Instant>, now: Instant): (r: seq<Instant>)
    ensures |r| <= |ts|
    ensures forall i :: 0 <= i < |r| ==> r[i] >= now && r[i] in ts
    ensures forall t :: t in ts && t >= now ==> t in r
  {
    if |ts| == 0 then []
    else FutureTimes(ts[..|ts| - 1], now) + if ts[|ts| - 1] >= now then [ts[|ts| - 1]] else []
  }

  /** Each prediction keeps its future times; predictions left without any
      are dropped; the order is kept. */
  function FilterPast(all: seq<Prediction>, now: Instant): (r: seq<Prediction>)
    ensures |r| <= |all|
    ensures forall i :: 0 <= i < |r| ==> r[i].Time != [] && forall j :: 0 <= j < |r[i].Time| ==> r[i].Time[j] >= now
  {
    if |all| == 0 then []
    else
      var p := all[|all| - 1];
      var times := FutureTimes(p.Time, now);
      FilterPast(all[..|all| - 1], now) + if |times| > 0 then [Prediction(p.Route, times)] else []
  }

  /** The positions of `ts` holding a time not before `now`, ascending. */
  function FutureIndices(ts: seq<Instant>, now: Instant): (idx: seq<nat>)
    ensures forall k :: 0 <= k < |idx| ==> idx[k] < |ts| && ts[idx[k]] >= now
    ensures forall a, b :: 0 <= a < b < |idx| ==> idx[a] < idx[b]
    ensures forall i :: 0 <= i < |ts| && ts[i] >= now ==> i in idx
  {
    if |ts| == 0 then []
    else FutureIndices(ts[..|ts| - 1], now) + if ts[|ts| - 1] >= now then [|ts| - 1] else []
  }

  /** The kept times are exactly those at the future positions, in order
      and with their repetitions. */
  lemma {:induction false} FutureTimesAtIndices(ts: seq<Instant>, now: Instant)
    ensures |FutureTimes(ts, now)| == |FutureIndices(ts, now)|
    ensures forall k :: 0 <= k < |FutureIndices(ts, now)| ==> FutureTimes(ts, now)[k] == ts[FutureIndices(ts, now)[k]]
  {
    if |ts| > 0 {
      var pre := ts[..|ts| - 1];
      FutureTimesAtIndices(pre, now);
      var r, rp := FutureTimes(ts, now), FutureTimes(pre, now);
      var idx, ip := FutureIndices(ts, now), FutureIndices(pre, now);
      if ts[|ts| - 1] >= now {
        assert r == rp + [ts[|ts| - 1]] && idx == ip + [|ts| - 1];
      } else {
        assert r == rp && idx == ip;
      }
      forall k | 0 <= k < |idx| ensures r[k] == ts[idx[k]] {
        if k < |ip| {
          assert r[k] == rp[k] == pre[ip[k]] && idx[k] == ip[k];
        }
      }
    }
  }

  /** The positions of the predictions that keep at least one time, ascending. */
  function KeptIndices(all: seq<Prediction>, now: Instant): (idx: seq<nat>)
    ensures forall k :: 0 <= k < |idx| ==> idx[k] < |all|
  {
    if |all| == 0 then []
    else KeptIndices(all[..|all| - 1], now) + if FutureTimes(all[|all| - 1].Time, now) != [] then [|all| - 1] else []
  }

  /** Only predictions with a future time are listed. */
  lemma {:induction false} KeptIndicesKept(all: seq<Prediction>, now: Instant)
    ensures forall k :: 0 <= k < |KeptIndices(all, now)| ==> FutureTimes(all[KeptIndices(all, now)[k]].Time, now) != []
  {
    if |all| > 0 {
      var pre := all[..|all| - 1];
      KeptIndicesKept(pre, now);
      var idx, ip := KeptIndices(all, now), KeptIndices(pre, now);
      var last := |all| - 1;
      var tail := if FutureTimes(all[last].Time, now) != [] then [last] else [];
      assert idx == ip + tail;
      forall k | 0 <= k < |idx| ensures FutureTimes(all[idx[k]].Time, now) != [] {
        if k < |ip| {
          assert idx[k] == ip[k] && all[ip[k]] == pre[ip[k]];
        } else {
          assert idx[k] == tail[0] == last;
        }
      }
    }
  }

  /** The positions are listed in ascending order. */
  lemma {:induction false} KeptIndicesAscending(all: seq<Prediction>, now: Instant)
    ensures forall a, b :: 0 <= a < b < |KeptIndices(all, now)| ==> KeptIndices(all, now)[a] < KeptIndices(all, now)[b]
  {
    if |all| > 0 {
      var pre := all[..|all| - 1];
      KeptIndicesAscending(pre, now);
      var idx, ip := KeptIndices(all, now), KeptIndices(pre, now);
      var last := |all| - 1;
      var tail := if FutureTimes(all[last].Time, now) != [] then [last] else [];
      assert idx == ip + tail;
      forall a, b | 0 <= a < b < |idx| ensures idx[a] < idx[b] {
        assert idx[a] == ip[a] < |pre|;
        if b < |ip| {
          assert idx[b] == ip[b];
        } else {
          assert idx[b] == tail[0] == last;
        }
      }
    }
  }

  /** Every prediction with a future time is listed. */
  lemma {:induction false} KeptIndicesComplete(all: seq<Prediction>, now: Instant)
    ensures forall i :: 0 <= i < |all| && FutureTimes(all[i].Time, now) != [] ==> i in KeptIndices(all, now)
  {
    if |all| > 0 {
      var pre := all[..|all| - 1];
      KeptIndicesComplete(pre, now);
      var idx, ip := KeptIndices(all, now), KeptIndices(pre, now);
      var last := |all| - 1;
      var tail := if FutureTimes(all[last].Time, now) != [] then [last] else [];
      assert idx == ip + tail;
      forall i | 0 <= i < |all| && FutureTimes(all[i].Time, now) != [] ensures i in idx {
        if i < last {
          assert all[i] == pre[i];
          var k :| 0 <= k < |ip| && ip[k] == i;
          assert idx[k] == i;
        } else {
          assert idx[|ip|] == last;
        }
      }
    }
  }

  /** Every prediction with a future time is kept, in order, with its route
      and exactly its future times; no other prediction is. */
  lemma {:induction false} FilterPastAtIndices(all: seq<Prediction>, now: Instant)
    ensures |FilterPast(all, now)| == |KeptIndices(all, now)|
    ensures forall k :: 0 <= k < |KeptIndices(all, now)| ==>
              var p := all[KeptIndices(all, now)[k]];
              FilterPast(all, now)[k] == Prediction(p.Route, FutureTimes(p.Time, now))
  {
    if |all| > 0 {
      var pre := all[..|all| - 1];
      FilterPastAtIndices(pre, now);
      var p := all[|all| - 1];
      var r, rp := FilterPast(all, now), FilterPast(pre, now);
      var idx, ip := KeptIndices(all, now), KeptIndices(pre, now);
      if FutureTimes(p.Time, now) != [] {
        assert r == rp + [Prediction(p.Route, FutureTimes(p.Time, now))] && idx == ip + [|all| - 1];
      } else {
        assert r == rp && idx == ip;
      }
      forall k | 0 <= k < |idx| ensures r[k] == Prediction(all[idx[k]].Route, FutureTimes(all[idx[k]].Time, now)) {
        if k < |ip| {
          assert r[k] == rp[k] && idx[k] == ip[k] && all[ip[k]] == pre[ip[k]];
        }
      }
    }
  }

  lemma {:induction false} FutureTimesIdempotent(ts: seq<Instant>, now: Instant)
    ensures FutureTimes(FutureTimes(ts, now), now) == FutureTimes(ts, now)
  {
    if |ts| > 0 {
      FutureTimesIdempotent(ts[..|ts| - 1], now);
      var r := FutureTimes(ts, now);
      var pre := FutureTimes(ts[..|ts| - 1], now);
      if ts[|ts| - 1] >= now {
        assert r[..|r| - 1] == pre;
      } else {
        assert r == pre;
      }
    }
  }

  /** Filtering twice at the same instant removes nothing more. */
  lemma {:induction false} FilterPastIdempotent(all: seq<Prediction>, now: Instant)
    ensures FilterPast(FilterPast(all, now), now) == FilterPast(all, now)
  {
    if |all| > 0 {
      var p := all[|all| - 1];
      FilterPastIdempotent(all[..|all| - 1], now);
      FutureTimesIdempotent(p.Time, now);
      var r := FilterPast(all, now);
      var pre := FilterPast(all[..|all| - 1], now);
      if |FutureTimes(p.Time, now)| > 0 {
        assert r[..|r| - 1] == pre;
      } else {
        assert r == pre;
      }
    }
  }

  /** `FilterTimesInPast` at clock reading `now`. */
  method FilterTimesInPast(all: seq<Prediction>, now: Instant) returns (ret: seq<Prediction>)
    ensures ret == FilterPast(all, now)
  {
    ret := [];
    for i := 0 to |all|
      invariant ret == FilterPast(all[..i], now)
    {
      assert all[..i + 1][..i] == all[..i];
      var p := all[i];
      var times: seq<Instant> := [];
      for j := 0 to |p.Time|
        invariant times == FutureTimes(p.Time[..j], now)
      {
        assert p.Time[..j + 1][..j] == p.Time[..j];
        if Until(now, p.Time[j]) >= 0 {
          times := times + [p.Time[j]];
        }
      }
      assert p.Time[..|p.Time|] == p.Time;
      if |times| > 0 {
        ret := ret + [Prediction(p.Route, times)];
      }
    }
    assert all[..|all|] == all;
  }

  // ---------------------------------------------------------------------
  // Draw

  function Min(x: int, y: int): (m: int)
    ensures m <= x && m <= y && (m == x || m == y)
  {
    if x < y then x else y
  }

  /** The minute estimates `Draw` prints: for at most three predictions, at
      most three times each, the whole minutes until that time, rounded
      down. */
  method EstimateRows(preds: seq<Prediction>, now: Instant) returns (rows: seq<seq<int>>)
    ensures |rows| == Min(3, |preds|)
    ensures forall i :: 0 <= i < |rows| ==> |rows[i]| == Min(3, |preds[i].Time|) && |rows[i]| <= |preds[i].Time|
    ensures forall i, j :: 0 <= i < |rows| && 0 <= j < |rows[i]| ==>
              rows[i][j] * Minute <= preds[i].Time[j] - now < (rows[i][j] + 1) * Minute
    ensures forall i, j :: 0 <= i < |rows| && 0 <= j < |rows[i]| && preds[i].Time[j] >= now ==> rows[i][j] >= 0
  {
    var subset := preds[0..Min(3, |preds|)];
    rows := [];
    for i := 0 to |subset|
      invariant |rows| == i
      invariant forall a :: 0 <= a < i ==> |rows[a]| == Min(3, |preds[a].Time|)
      invariant forall a, b :: 0 <= a < i && 0 <= b < |rows[a]| ==>
                  rows[a][b] * Minute <= preds[a].Time[b] - now < (rows[a][b] + 1) * Minute
    {
      var p := subset[i];
      var ests: seq<int> := [];
      for j := 0 to Min(|p.Time|, 3)
        invariant |ests| == j
        invariant forall b :: 0 <= b < j ==> ests[b] * Minute <= p.Time[b] - now < (ests[b] + 1) * Minute
      {
        var est := Until(now, p.Time[j]);
        ests := ests + [est / Minute];
      }
      rows := rows + [ests];
    }
  }

  class MbtaSlide {
    var StationName: string
    var Predictions: seq<Prediction>

    /** `NewMbtaSlide`; the fetch helper it configures is not part of this
        class. */
    constructor (stationId: string)
      ensures StationName == LookupStationName(stationId) && Predictions == []
    {
      StationName := LookupStationName(stationId);
      Predictions := [];
    }

    /** `Parse`: a body that is not JSON fails and keeps the old predictions;
        otherwise the resources become the flattened predictions. */
    method Parse(response: Option<(seq<Resource>, seq<Resource>)>, parseTime: string -> Option<Instant>)
      returns (ok: bool, ghost lookup: map<string, Route>, ghost order: seq<string>)
      modifies this`Predictions
      ensures ok <==> response.Some?
      ensures !ok ==> Predictions == old(Predictions)
      ensures ok ==> forall i :: 0 <= i < |Predictions| ==> Predictions[i].Time != []
      ensures ok ==> var trips := TripRoutes(response.value.0);
                     Flattened(Predictions, trips, Grouped(response.value.1, r => PredictionEntry(trips, parseTime, r)),
                               lookup, order)
    {
      lookup, order := map[], [];
      if response.None? {
        return false, lookup, order;
      }
      var (included, data) := response.value;
      var trips := BuildTripIdToRouteMap(included);
      var byRoute := BuildRouteToPredictionsMap(data, trips, parseTime);
      var flat;
      flat, lookup, order := FlattenPredictions(trips, byRoute);
      Predictions := flat;
      return true, lookup, order;
    }
  }
}
