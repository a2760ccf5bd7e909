/** covidslide.go: daily case totals for the US, Massachusetts and Arizona,
    and the day-over-day differences the slide graphs. Dates are day
    numbers; the HTTP download and CSV decoding of one day's report are an
    input (`None` for a transport or CSV error), and `strconv.Atoi` a
    function parameter. */
module Covid {
  import opened Wrappers

  type Date = int

  /** `HISTORICAL_COVID_DAYS`: days fetched; one more than the days graphed. */
  const HistoricalDays := 29

  datatype DailyData = DailyData(Label: string, Total: int, Totals: map<Date, int>, Diffs: map<Date, int>)

  /** `NewDailyData`: an empty series. */
  function NewDailyData(name: string): (d: DailyData)
    ensures d.Label == name && d.Total == 0 && |d.Totals| == 0 && |d.Diffs| == 0
  {
    DailyData(name, 0, map[], map[])
  }

  // ---------------------------------------------------------------------
  // CalculateDiffs, for the days today + i with i in [-(H - 1), -1].

  /** The `lastVal` of step `i`: the total of day `today + i - 1` if present,
      else the value carried from the step before (0 before the first). */
  function LastVal(totals: map<Date, int>, today: Date, i: int): int
    requires -(HistoricalDays - 1) <= i <= -1
    decreases i + HistoricalDays
  {
    var prior := if i == -(HistoricalDays - 1) then 0 else LastVal(totals, today, i - 1);
    if today + i - 1 in totals then totals[today + i - 1] else prior
  }

  /** Gaps are glossed over: `lastVal` is the total of the latest day present
      in `[today - H, today + i - 1]`, or 0 when none is. */
  lemma {:induction false} LastValIsLatest(totals: map<Date, int>, today: Date, i: int)
    requires -(HistoricalDays - 1) <= i <= -1
    ensures (forall d :: today - HistoricalDays <= d < today + i ==> d !in totals) ==> LastVal(totals, today, i) == 0
    ensures forall d :: (today - HistoricalDays <= d < today + i && d in totals &&
                         (forall e :: d < e < today + i ==> e !in totals)) ==> LastVal(totals, today, i) == totals[d]
    decreases i + HistoricalDays
  {
    if i > -(HistoricalDays - 1) {
      LastValIsLatest(totals, today, i - 1);
    }
  }

  /** The difference recorded for day `today + i`: its total minus the carried
      value, when the day is present and the carried value positive; else 0. */
  function DiffFor(totals: map<Date, int>, today: Date, i: int): int
    requires -(HistoricalDays - 1) <= i <= -1
  {
    var last := LastVal(totals, today, i);
    if today + i in totals && last > 0 then totals[today + i] - last else 0
  }

  /** `Diffs` after the steps before `k`. */
  function DiffsBefore(diffs: map<Date, int>, totals: map<Date, int>, today: Date, k: int): map<Date, int>
    requires -(HistoricalDays - 1) <= k <= 0
    decreases k + HistoricalDays
  {
    if k == -(HistoricalDays - 1) then diffs
    else DiffsBefore(diffs, totals, today, k - 1)[today + k - 1 := DiffFor(totals, today, k - 1)]
  }

  /** `Total` after the steps before `k`: reassigned at every present day. */
  function TotalBefore(total: int, totals: map<Date, int>, today: Date, k: int): int
    requires -(HistoricalDays - 1) <= k <= 0
    decreases k + HistoricalDays
  {
    if k == -(HistoricalDays - 1) then total
    else
      var t := TotalBefore(total, totals, today, k - 1);
      if today + k - 1 in totals then totals[today + k - 1] else t
  }

  /** Every day of the window gets its difference written, and no other day
      of `Diffs` changes. */
  lemma {:induction false} DiffsBeforeEntry(diffs: map<Date, int>, totals: map<Date, int>, today: Date, k: int)
    requires -(HistoricalDays - 1) <= k <= 0
    ensures forall d :: today - (HistoricalDays - 1) <= d < today + k ==>
              d in DiffsBefore(diffs, totals, today, k) &&
              DiffsBefore(diffs, totals, today, k)[d] == DiffFor(totals, today, d - today)
    ensures forall d :: !(today - (HistoricalDays - 1) <= d < today + k) ==>
              (d in DiffsBefore(diffs, totals, today, k) <==> d in diffs) &&
              (d in diffs ==> DiffsBefore(diffs, totals, today, k)[d] == diffs[d])
    decreases k + HistoricalDays
  {
    if k > -(HistoricalDays - 1) {
      DiffsBeforeEntry(diffs, totals, today, k - 1);
    }
  }

  /** `Total` ends as the total of the latest day present in the window, or
      unchanged when no day is. */
  lemma {:induction false} TotalIsLatest(total: int, totals: map<Date, int>, today: Date, k: int)
    requires -(HistoricalDays - 1) <= k <= 0
    ensures (forall d :: today - (HistoricalDays - 1) <= d < today + k ==> d !in totals) ==>
              TotalBefore(total, totals, today, k) == total
    ensures forall d :: (today - (HistoricalDays - 1) <= d < today + k && d in totals &&
                         (forall e :: d < e < today + k ==> e !in totals)) ==>
              TotalBefore(total, totals, today, k) == totals[d]
    decreases k + HistoricalDays
  {
    if k > -(HistoricalDays - 1) {
      TotalIsLatest(total, totals, today, k - 1);
    }
  }

  /** A series after `CalculateDiffs` on day `today`. */
  function Recalculated(data: DailyData, today: Date): (r: DailyData)
    ensures r.Label == data.Label && r.Totals == data.Totals
  {
    data.(Total := TotalBefore(data.Total, data.Totals, today, 0),
          Diffs := DiffsBefore(data.Diffs, data.Totals, today, 0))
  }

  /** `CalculateDiffs` with `today` the clock's date. `Totals` and `Label` are
      left alone. */
  method CalculateDiffs(data: DailyData, today: Date) returns (r: DailyData)
    ensures r.Label == data.Label && r.Totals == data.Totals
    ensures r.Diffs == DiffsBefore(data.Diffs, data.Totals, today, 0)
    ensures r.Total == TotalBefore(data.Total, data.Totals, today, 0)
    ensures r == Recalculated(data, today)
  {
    r := data;
    var lastVal := 0;
    for i := -HistoricalDays + 1 to 0
      invariant r.Label == data.Label && r.Totals == data.Totals
      invariant r.Diffs == DiffsBefore(data.Diffs, data.Totals, today, i)
      invariant r.Total == TotalBefore(data.Total, data.Totals, today, i)
      invariant lastVal == if i == -(HistoricalDays - 1) then 0 else LastVal(data.Totals, today, i - 1)
    {
      var dA := today + i - 1;
      if dA in r.Totals {
        lastVal := r.Totals[dA];
      }
      var dB := today + i;
      var okB := dB in r.Totals;
      if okB {
        r := r.(Total := r.Totals[dB]);
      }
      r := r.(Diffs := r.Diffs[dB := 0]);
      if okB && lastVal > 0 {
        r := r.(Diffs := r.Diffs[dB := r.Totals[dB] - lastVal]);
      }
    }
  }

  /** `ToDiffsForGraph`: the H - 1 differences in date order, 0 for a missing
      date (the slide converts them to floats, exactly). */
  method ToDiffsForGraph(diffs: map<Date, int>, today: Date) returns (r: seq<int>)
    ensures |r| == HistoricalDays - 1
    ensures forall k :: 0 <= k < |r| ==>
              var d := today - (HistoricalDays - 1) + k;
              r[k] == if d in diffs then diffs[d] else 0
  {
    r := [];
    for i := -HistoricalDays + 1 to 0
      invariant |r| == i + HistoricalDays - 1
      invariant forall k :: 0 <= k < |r| ==>
                  var d := today - (HistoricalDays - 1) + k;
                  r[k] == if d in diffs then diffs[d] else 0
    {
      var d := today + i;
      var val := if d in diffs then diffs[d] else 0;
      r := r + [val];
    }
  }

  /** After `CalculateDiffs` every graphed value is that day's difference:
      no date in the window is missing. */
  lemma GraphAfterCalculate(data: DailyData, today: Date, k: nat)
    requires k < HistoricalDays - 1
    ensures var diffs := DiffsBefore(data.Diffs, data.Totals, today, 0);
            var d := today - (HistoricalDays - 1) + k;
            d in diffs && diffs[d] == DiffFor(data.Totals, today, k - (HistoricalDays - 1))
  {
    DiffsBeforeEntry(data.Diffs, data.Totals, today, 0);
  }

  // ---------------------------------------------------------------------
  // QueryForDate

  type Row = seq<string>

  /** The sum of column 7 over the rows whose column `col` is `name`; a count
      `Atoi` rejects adds 0. */
  function RegionSum(rows: seq<Row>, atoi: string -> Option<int>, col: nat, name: string): int
    requires col < 8 && forall i :: 0 <= i < |rows| ==> |rows[i]| >= 8
  {
    if |rows| == 0 then 0
    else
      var row := rows[|rows| - 1];
      var n := match atoi(row[7]) case Some(v) => v case None => 0;
      RegionSum(rows[..|rows| - 1], atoi, col, name) + if row[col] == name then n else 0
  }

  /** A region's sum counts only its own rows: with no row for it the sum is
      0, whatever the other rows hold. */
  lemma {:induction false} RegionSumOfOthers(rows: seq<Row>, atoi: string -> Option<int>, col: nat, name: string)
    requires col < 8 && forall i :: 0 <= i < |rows| ==> |rows[i]| >= 8
    requires forall i :: 0 <= i < |rows| ==> rows[i][col] != name
    ensures RegionSum(rows, atoi, col, name) == 0
  {
    if |rows| > 0 {
      RegionSumOfOthers(rows[..|rows| - 1], atoi, col, name);
    }
  }

  /** Stores a positive sum under `d`; a sum of 0 or less stores nothing. */
  function StorePositive(totals: map<Date, int>, d: Date, sum: int): (m: map<Date, int>)
    ensures sum > 0 ==> m == totals[d := sum]
    ensures sum <= 0 ==> m == totals
  {
    if sum > 0 then totals[d := sum] else totals
  }

  /** The rows after the header. */
  function Body(rows: seq<Row>): (b: seq<Row>)
    ensures |b| == if |rows| == 0 then 0 else |rows| - 1
    ensures forall i :: 0 <= i < |b| ==> b[i] == rows[i + 1]
  {
    if |rows| == 0 then [] else rows[1..]
  }

  /** Every data row has the 8 columns Go indexes. */
  predicate WellFormed(rows: seq<Row>) {
    forall i :: 1 <= i < |rows| ==> |rows[i]| >= 8
  }

  class CovidSlide {
    var UsData: DailyData
    var MaData: DailyData
    var AzData: DailyData
    /** The counts behind `LastFetchSuccessRatio`. */
    var LastAttempted: nat
    var LastSuccessful: nat

    /** `NewCovidSlide`. */
    constructor ()
      ensures UsData == NewDailyData("US") && MaData == NewDailyData("Mass") && AzData == NewDailyData("Ariz")
      ensures LastAttempted == 0 && LastSuccessful == 0
    {
      UsData := NewDailyData("US");
      MaData := NewDailyData("Mass");
      AzData := NewDailyData("Ariz");
      LastAttempted := 0;
      LastSuccessful := 0;
    }

    /** `QueryForDate`: after the header, sums column 7 over the rows of the US
        (column 3), Massachusetts and Arizona (column 2), and stores each
        positive sum under `d`. A report that could not be read changes
        nothing. Go indexes `row[7]`, so every data row needs 8 columns. */
    method QueryForDate(d: Date, report: Option<seq<Row>>, atoi: string -> Option<int>) returns (ok: bool)
      requires report.Some? ==> WellFormed(report.value)
      modifies this`UsData, this`MaData, this`AzData
      ensures ok <==> report.Some?
      ensures !ok ==> UsData == old(UsData) && MaData == old(MaData) && AzData == old(AzData)
      ensures ok ==>
        var rows := Body(report.value);
        UsData == old(UsData).(Totals := StorePositive(old(UsData).Totals, d, RegionSum(rows, atoi, 3, "US"))) &&
        MaData == old(MaData).(Totals := StorePositive(old(MaData).Totals, d, RegionSum(rows, atoi, 2, "Massachusetts"))) &&
        AzData == old(AzData).(Totals := StorePositive(old(AzData).Totals, d, RegionSum(rows, atoi, 2, "Arizona")))
    {
      if report.None? {
        return false;
      }
      var rows := report.value;
      var usSum, maSum, azSum := 0, 0, 0;
      ghost var body := Body(rows);
      if |rows| > 0 {
        for i := 1 to |rows|
          invariant usSum == RegionSum(body[..i - 1], atoi, 3, "US")
          invariant maSum == RegionSum(body[..i - 1], atoi, 2, "Massachusetts")
          invariant azSum == RegionSum(body[..i - 1], atoi, 2, "Arizona")
        {
          assert body[..i][..i - 1] == body[..i - 1];
          var row := rows[i];
          var n := 0;
          var parsed := atoi(row[7]);
          if parsed.Some? {
            n := parsed.value;
          }
          if row[3] == "US" {
            usSum := usSum + n;
          }
          if row[2] == "Massachusetts" {
            maSum := maSum + n;
          }
          if row[2] == "Arizona" {
            azSum := azSum + n;
          }
        }
        assert body[..|rows| - 1] == body;
      }
      if usSum > 0 {
        UsData := UsData.(Totals := UsData.Totals[d := usSum]);
      }
      if maSum > 0 {
        MaData := MaData.(Totals := MaData.Totals[d := maSum]);
      }
      if azSum > 0 {
        AzData := AzData.(Totals := AzData.Totals[d := azSum]);
      }
      return true;
    }

    /** The query loop of `FetchData`: each day `today - i` for `i` in
        `1..H` is queried iff the US series lacks it or it is one of the two
        most recent days. */
    method QueryDays(today: Date, report: Date -> Option<seq<Row>>, atoi: string -> Option<int>)
      returns (attempted: nat, successful: nat)
      requires forall d :: report(d).Some? ==> WellFormed(report(d).value)
      modifies this`UsData, this`MaData, this`AzData
      ensures attempted == Attempts(old(UsData.Totals), today, HistoricalDays)
      ensures successful == Successes(old(UsData.Totals), today, report, HistoricalDays)
      ensures UsData == AfterQueries(old(UsData), old(UsData.Totals), today, report, atoi, 3, "US")
      ensures MaData == AfterQueries(old(MaData), old(UsData.Totals), today, report, atoi, 2, "Massachusetts")
      ensures AzData == AfterQueries(old(AzData), old(UsData.Totals), today, report, atoi, 2, "Arizona")
    {
      attempted := 0;
      successful := 0;
      ghost var totals0 := UsData.Totals;
      ghost var us0, ma0, az0 := UsData, MaData, AzData;
      for i := 1 to HistoricalDays + 1
        invariant attempted == Attempts(totals0, today, i - 1)
        invariant successful == Successes(totals0, today, report, i - 1)
        invariant UsData == us0.(Totals := QueriedTotals(us0.Totals, totals0, today, report, atoi, 3, "US", i - 1))
        invariant MaData == ma0.(Totals := QueriedTotals(ma0.Totals, totals0, today, report, atoi, 2, "Massachusetts", i - 1))
        invariant AzData == az0.(Totals := QueriedTotals(az0.Totals, totals0, today, report, atoi, 2, "Arizona", i - 1))
      {
        QueriedTotalsAt(totals0, totals0, today, report, atoi, 3, "US", i - 1, today - i);
        var tried, read := QueryDay(today, report, atoi, i, totals0);
        if tried {
          attempted := attempted + 1;
        }
        if read {
          successful := successful + 1;
        }
      }
    }

    /** One pass of the query loop, for day `today - i`: it is queried iff
        the US series lacks it or `i < 3`, and a report that was read stores
        each region's positive sum. `totals0` are the US totals before the
        loop, which agree with the current ones on this day. */
    method QueryDay(today: Date, report: Date -> Option<seq<Row>>, atoi: string -> Option<int>, i: int,
                    ghost totals0: map<Date, int>)
      returns (tried: bool, read: bool)
      requires forall d :: report(d).Some? ==> WellFormed(report(d).value)
      requires today - i in UsData.Totals <==> today - i in totals0
      modifies this`UsData, this`MaData, this`AzData
      ensures tried == Queried(totals0, today, i)
      ensures read <==> tried && report(today - i).Some?
      ensures UsData == old(UsData).(Totals := QueriedDay(old(UsData).Totals, totals0, today, report, atoi, 3, "US", i))
      ensures MaData == old(MaData).(Totals := QueriedDay(old(MaData).Totals, totals0, today, report, atoi, 2, "Massachusetts", i))
      ensures AzData == old(AzData).(Totals := QueriedDay(old(AzData).Totals, totals0, today, report, atoi, 2, "Arizona", i))
    {
      var d := today - i;
      var ok := d in UsData.Totals;
      tried, read := false, false;
      if !ok || i < 3 {
        tried := true;
        read := QueryForDate(d, report(d), atoi);
      }
    }

    /** `FetchData` on day `today`, with `report(d)` the outcome of fetching
        day `d`'s report: queries the days, then recomputes the differences
        of all three series. `logged` says whether the failed-queries
        message is logged, under the guard as written, so it never is. */
    method FetchData(today: Date, report: Date -> Option<seq<Row>>, atoi: string -> Option<int>)
      returns (logged: bool)
      requires forall d :: report(d).Some? ==> WellFormed(report(d).value)
      modifies this
      ensures logged <==> FailureLoggedAsWritten(LastAttempted, LastSuccessful)
      ensures !logged
      ensures LastAttempted == Attempts(old(UsData.Totals), today, HistoricalDays)
      ensures LastSuccessful == Successes(old(UsData.Totals), today, report, HistoricalDays)
      ensures LastSuccessful <= LastAttempted && LastAttempted >= 2
      ensures UsData == Recalculated(AfterQueries(old(UsData), old(UsData.Totals), today, report, atoi, 3, "US"), today)
      ensures MaData == Recalculated(AfterQueries(old(MaData), old(UsData.Totals), today, report, atoi, 2, "Massachusetts"), today)
      ensures AzData == Recalculated(AfterQueries(old(AzData), old(UsData.Totals), today, report, atoi, 2, "Arizona"), today)
    {
      ghost var totals0 := UsData.Totals;
      var attempted, successful := QueryDays(today, report, atoi);
      logged := FailureLoggedAsWritten(attempted, successful);
      FailureNeverLogged(totals0, today, report);
      RecentDaysAlwaysQueried(totals0, today, HistoricalDays);
      var us := CalculateDiffs(UsData, today);
      var ma := CalculateDiffs(MaData, today);
      var az := CalculateDiffs(AzData, today);
      UsData, MaData, AzData := us, ma, az;
      LastAttempted, LastSuccessful := attempted, successful;
    }

    /** `Draw` shows the error screen when fewer than half of the queries
        succeeded: the stored ratio of successes to attempts is below 0.5.
        Before the first fetch the ratio is Go's zero value 0.0, so the
        error screen shows; every fetch attempts at least two queries, so
        the ratio is never the NaN of 0 / 0. */
    predicate ShowsError(): (b: bool)
      reads this
      ensures LastAttempted == 0 ==> b
      ensures LastAttempted > 0 ==> (b <==> (LastSuccessful as real) / (LastAttempted as real) < 0.5)
    {
      if LastAttempted == 0 then true
      else
        BelowHalf(LastSuccessful as real, LastAttempted as real);
        2 * LastSuccessful < LastAttempted
    }
  }

  /** A ratio is below one half exactly when twice the numerator is below
      the (positive) denominator. */
  lemma BelowHalf(s: real, a: real)
    requires a > 0.0
    ensures s / a < 0.5 <==> 2.0 * s < a
  {
    var r := s / a;
    assert r * a == s;
    if r < 0.5 {
      assert r * a < 0.5 * a;
    } else {
      assert r * a >= 0.5 * a;
    }
  }

  /** Whether `FetchData` queries day `today - i`. */
  predicate Queried(totals: map<Date, int>, today: Date, i: int) {
    today - i !in totals || i < 3
  }

  /** One region's totals after the queries of days `today - 1 .. today - k`:
      each queried day whose report was read stores the region's positive
      sum. Which days are queried depends on the US totals `us` before the
      fetch. */
  function QueriedTotals(totals: map<Date, int>, us: map<Date, int>, today: Date, report: Date -> Option<seq<Row>>,
                         atoi: string -> Option<int>, col: nat, name: string, k: nat): map<Date, int>
    requires col < 8 && forall d :: report(d).Some? ==> WellFormed(report(d).value)
  {
    if k == 0 then totals
    else QueriedDay(QueriedTotals(totals, us, today, report, atoi, col, name, k - 1), us, today, report, atoi, col, name, k)
  }

  /** One region's totals after the query of day `today - i`: if the day is
      queried and its report read, the region's positive sum is stored. */
  function QueriedDay(totals: map<Date, int>, us: map<Date, int>, today: Date, report: Date -> Option<seq<Row>>,
                      atoi: string -> Option<int>, col: nat, name: string, i: int): map<Date, int>
    requires col < 8 && forall d :: report(d).Some? ==> WellFormed(report(d).value)
  {
    if Queried(us, today, i) && report(today - i).Some?
    then
      var rows := report(today - i).value;
      assert WellFormed(rows);
      assert forall j :: 0 <= j < |Body(rows)| ==> Body(rows)[j] == rows[j + 1];
      StorePositive(totals, today - i, RegionSum(Body(rows), atoi, col, name))
    else totals
  }

  /** One region's series after the query loop of a fetch: its totals are
      the queried totals of the whole window; label, total and differences
      are untouched. */
  function AfterQueries(data: DailyData, us: map<Date, int>, today: Date, report: Date -> Option<seq<Row>>,
                        atoi: string -> Option<int>, col: nat, name: string): DailyData
    requires col < 8 && forall d :: report(d).Some? ==> WellFormed(report(d).value)
  {
    data.(Totals := QueriedTotals(data.Totals, us, today, report, atoi, col, name, HistoricalDays))
  }

  /** Day `d` of a region's totals after the queries: a queried day in the
      window whose report was read and whose region sum is positive holds
      that sum; every other day keeps its old entry, or its absence. */
  lemma {:induction false} QueriedTotalsAt(totals: map<Date, int>, us: map<Date, int>, today: Date,
                                           report: Date -> Option<seq<Row>>, atoi: string -> Option<int>,
                                           col: nat, name: string, k: nat, d: Date)
    requires col < 8 && forall d :: report(d).Some? ==> WellFormed(report(d).value)
    ensures var q := QueriedTotals(totals, us, today, report, atoi, col, name, k);
            if today - k <= d < today && Queried(us, today, today - d) && report(d).Some? &&
               RegionSum(Body(report(d).value), atoi, col, name) > 0
            then d in q && q[d] == RegionSum(Body(report(d).value), atoi, col, name)
            else (d in q <==> d in totals) && (d in totals ==> q[d] == totals[d])
  {
    if k > 0 {
      QueriedTotalsAt(totals, us, today, report, atoi, col, name, k - 1, d);
    }
  }

  /** How many of the days `today - 1 .. today - k` are queried. */
  function Attempts(totals: map<Date, int>, today: Date, k: nat): (n: nat)
    ensures n <= k
  {
    if k == 0 then 0 else Attempts(totals, today, k - 1) + if Queried(totals, today, k) then 1 else 0
  }

  /** How many of those queries read a report. */
  function Successes(totals: map<Date, int>, today: Date, report: Date -> Option<seq<Row>>, k: nat): (n: nat)
    ensures n <= Attempts(totals, today, k)
  {
    if k == 0 then 0
    else Successes(totals, today, report, k - 1) + if Queried(totals, today, k) && report(today - k).Some? then 1 else 0
  }

  /** The two most recent days are always queried, so at least two queries
      are attempted per fetch. */
  lemma {:induction false} RecentDaysAlwaysQueried(totals: map<Date, int>, today: Date, k: nat)
    requires k >= 2
    ensures Attempts(totals, today, k) >= 2
  {
    if k > 2 {
      RecentDaysAlwaysQueried(totals, today, k - 1);
    }
  }

  /** The condition under which `FetchData` logs that some queries failed,
      as written: more successes than attempts. */
  predicate FailureLoggedAsWritten(attempted: nat, successful: nat) {
    attempted < successful
  }

  /** As written the log never fires: a fetch whose queries all fail (two
      attempted, none read) logs nothing. */
  lemma FailureNeverLogged(totals: map<Date, int>, today: Date, report: Date -> Option<seq<Row>>)
    ensures !FailureLoggedAsWritten(Attempts(totals, today, HistoricalDays), Successes(totals, today, report, HistoricalDays))
    ensures (forall d :: report(d).None?) ==>
              Attempts(totals, today, HistoricalDays) >= 2 && Successes(totals, today, report, HistoricalDays) == 0
  {
    RecentDaysAlwaysQueried(totals, today, HistoricalDays);
    if forall d :: report(d).None? {
      NoReportNoSuccess(totals, today, report, HistoricalDays);
    }
  }

  lemma {:induction false} NoReportNoSuccess(totals: map<Date, int>, today: Date, report: Date -> Option<seq<Row>>, k: nat)
    requires forall d :: report(d).None?
    ensures Successes(totals, today, report, k) == 0
  {
    if k > 0 {
      NoReportNoSuccess(totals, today, report, k - 1);
    }
  }

  /** The intended condition: fewer successes than attempts. */
  predicate FailureLogged(attempted: nat, successful: nat) {
    successful < attempted
  }

  /** It fires exactly when some queried day's report could not be read. */
  lemma {:induction false} FailureLoggedIff(totals: map<Date, int>, today: Date, report: Date -> Option<seq<Row>>, k: nat)
    ensures FailureLogged(Attempts(totals, today, k), Successes(totals, today, report, k)) <==>
            exists i :: 1 <= i <= k && Queried(totals, today, i) && report(today - i).None?
  {
    if k > 0 {
      FailureLoggedIff(totals, today, report, k - 1);
      if Queried(totals, today, k) && report(today - k).None? {
        assert 1 <= k <= k && Queried(totals, today, k) && report(today - k).None?;
      } else {
        if exists i :: 1 <= i <= k && Queried(totals, today, i) && report(today - i).None? {
          var i :| 1 <= i <= k && Queried(totals, today, i) && report(today - i).None?;
          assert i < k;
        }
      }
    }
  }
}
