/** vaccinationslide.go: people vaccinated per state, read from one CSV
    download. The CSV reader's result, `civil.ParseDate` and
    `strconv.ParseFloat` followed by the truncating `int(n)` are inputs. */
module Vaccination {
  import opened Wrappers
  import Covid

  type Date = Covid.Date
  type Row = seq<string>

  /** `strings.ToUpper` on ASCII letters. */
  function UpperChar(c: char): (u: char)
    ensures 'a' <= c <= 'z' ==> u as int == c as int - 32
    ensures !('a' <= c <= 'z') ==> u == c
  {
    if 'a' <= c <= 'z' then (c as int - 32) as char else c
  }

  function Upper(s: string): (u: string)
    ensures |u| == |s| && forall i :: 0 <= i < |s| ==> u[i] == UpperChar(s[i])
  {
    if |s| == 0 then [] else Upper(s[..|s| - 1]) + [UpperChar(s[|s| - 1])]
  }

  /** `c` is the name character `n` in either letter case. */
  predicate EitherCase(c: char, n: char) {
    c == n || ('A' <= n <= 'Z' && c as int == n as int + 32)
  }

  /** Header matching ignores letter case: a header cell matches an
      upper-case name exactly when it spells the name with each letter in
      either case. */
  lemma UpperMatchesAnyCase(s: string, name: string)
    requires forall i :: 0 <= i < |name| ==> !('a' <= name[i] <= 'z')
    ensures Upper(s) == name <==> |s| == |name| && forall i :: 0 <= i < |s| ==> EitherCase(s[i], name[i])
  {
    var u := Upper(s);
    if u == name {
      forall i | 0 <= i < |s| ensures EitherCase(s[i], name[i]) {
        UpperCharInverse(s[i], name[i]);
      }
    }
    if |s| == |name| && forall i :: 0 <= i < |s| ==> EitherCase(s[i], name[i]) {
      forall i | 0 <= i < |s| ensures u[i] == name[i] {
        UpperCharInverse(s[i], name[i]);
      }
    }
  }

  lemma UpperCharInverse(c: char, n: char)
    requires !('a' <= n <= 'z')
    ensures UpperChar(c) == n <==> EitherCase(c, n)
  {
    if 'a' <= c <= 'z' {
      assert UpperChar(c) as int == c as int - 32;
    }
  }

  /** The last header column whose upper-cased text is `name`. */
  function LastColumn(header: seq<string>, name: string): (c: Option<nat>)
    ensures c.Some? <==> exists i :: 0 <= i < |header| && Upper(header[i]) == name
    ensures c.Some? ==> c.value < |header| && Upper(header[c.value]) == name &&
                        forall j :: c.value < j < |header| ==> Upper(header[j]) != name
  {
    if |header| == 0 then None
    else if Upper(header[|header| - 1]) == name then Some(|header| - 1)
    else LastColumn(header[..|header| - 1], name)
  }

  /** -1 for a missing column, as the Go code keeps it. */
  function ColumnIndex(c: Option<nat>): int {
    match c case Some(i) => i case None => -1
  }

  /** The header loop of `Parse`: both columns found in one pass. */
  method FindColumns(header: seq<string>) returns (dateCol: int, countCol: int)
    ensures dateCol == ColumnIndex(LastColumn(header, "DATE"))
    ensures countCol == ColumnIndex(LastColumn(header, "PEOPLE_VACCINATED"))
  {
    dateCol, countCol := -1, -1;
    for c := 0 to |header|
      invariant dateCol == ColumnIndex(LastColumn(header[..c], "DATE"))
      invariant countCol == ColumnIndex(LastColumn(header[..c], "PEOPLE_VACCINATED"))
    {
      assert header[..c + 1][..c] == header[..c];
      var h := Upper(header[c]);
      if h == "DATE" {
        dateCol := c;
      }
      if h == "PEOPLE_VACCINATED" {
        countCol := c;
      }
    }
    assert header[..|header|] == header;
  }

  /** Where a row's fields are and how they are read: the date and count
      columns, the first date kept (`HISTORICAL_COVID_DAYS` before today),
      `civil.ParseDate`, and `strconv.ParseFloat` truncated by `int(n)`. */
  datatype Reader = Reader(DateCol: nat, CountCol: nat, MinDate: Date,
                           ParseDate: string -> Option<Date>, ParseCount: string -> Option<int>)

  /** The rows `r` can read: both columns and the location in column 1. */
  predicate Readable(r: Reader, rows: seq<Row>) {
    forall i :: 0 <= i < |rows| ==> r.DateCol < |rows[i]| && r.CountCol < |rows[i]| && |rows[i]| >= 2
  }

  /** The (date, count) a data row contributes, if it is kept: its date
      parses, is not before `MinDate`, and its count cell is not empty. A
      count that does not parse is stored as 0. */
  function Kept(r: Reader, row: Row): (k: Option<(Date, int)>)
    requires r.DateCol < |row| && r.CountCol < |row|
    ensures k.Some? <==> r.ParseDate(row[r.DateCol]).Some? && r.ParseDate(row[r.DateCol]).value >= r.MinDate && row[r.CountCol] != ""
    ensures k.Some? ==> k.value.0 == r.ParseDate(row[r.DateCol]).value &&
                        k.value.1 == (if r.ParseCount(row[r.CountCol]).Some? then r.ParseCount(row[r.CountCol]).value else 0)
  {
    match r.ParseDate(row[r.DateCol])
    case None => None
    case Some(d) =>
      if d < r.MinDate then None
      else if row[r.CountCol] == "" then None
      else
        var n := match r.ParseCount(row[r.CountCol]) case Some(v) => v case None => 0;
        Some((d, n))
  }

  /** Whether `row` stores a value under date `d` for location `place`. */
  predicate Writes(r: Reader, row: Row, place: string, d: Date)
    requires r.DateCol < |row| && r.CountCol < |row| && |row| >= 2
  {
    var k := Kept(r, row);
    k.Some? && row[1] == place && k.value.0 == d
  }

  predicate Width(rows: seq<Row>, w: nat) {
    forall i :: 0 <= i < |rows| ==> |rows[i]| == w
  }

  /** `totals` after storing every kept row of `place`, in row order. */
  function Stored(totals: map<Date, int>, r: Reader, rows: seq<Row>, place: string): map<Date, int>
    requires Readable(r, rows)
  {
    if |rows| == 0 then totals
    else
      var m := Stored(totals, r, rows[..|rows| - 1], place);
      var row := rows[|rows| - 1];
      var k := Kept(r, row);
      if k.Some? && row[1] == place then m[k.value.0 := k.value.1] else m
  }

  /** A date no row of `place` writes keeps its earlier total, or stays
      absent. */
  lemma {:induction false} StoredUntouched(totals: map<Date, int>, r: Reader, rows: seq<Row>, place: string, d: Date)
    requires Readable(r, rows)
    requires forall i :: 0 <= i < |rows| ==> !Writes(r, rows[i], place, d)
    ensures d in Stored(totals, r, rows, place) <==> d in totals
    ensures d in totals ==> Stored(totals, r, rows, place)[d] == totals[d]
  {
    if |rows| > 0 {
      var pre := rows[..|rows| - 1];
      assert forall i :: 0 <= i < |pre| ==> pre[i] == rows[i];
      StoredUntouched(totals, r, pre, place, d);
      assert !Writes(r, rows[|rows| - 1], place, d);
    }
  }

  /** A date written by some row of `place` holds the count of the last such
      row: later rows overwrite earlier ones. */
  lemma {:induction false} StoredLastWins(totals: map<Date, int>, r: Reader, rows: seq<Row>, place: string, d: Date, i: nat)
    requires Readable(r, rows)
    requires i < |rows| && Writes(r, rows[i], place, d)
    requires forall j :: i < j < |rows| ==> !Writes(r, rows[j], place, d)
    ensures d in Stored(totals, r, rows, place)
    ensures Stored(totals, r, rows, place)[d] == Kept(r, rows[i]).value.1
  {
    var pre := rows[..|rows| - 1];
    assert forall j :: 0 <= j < |pre| ==> pre[j] == rows[j];
    if i < |rows| - 1 {
      StoredLastWins(totals, r, pre, place, d, i);
      assert !Writes(r, rows[|rows| - 1], place, d);
    }
  }

  /** The row loop of `Parse`, on the three totals maps. */
  method StoreRows(r: Reader, rows: seq<Row>, us0: map<Date, int>, ma0: map<Date, int>, az0: map<Date, int>)
    returns (us: map<Date, int>, ma: map<Date, int>, az: map<Date, int>)
    requires Readable(r, rows)
    ensures us == Stored(us0, r, rows, "United States")
    ensures ma == Stored(ma0, r, rows, "Massachusetts")
    ensures az == Stored(az0, r, rows, "Arizona")
  {
    us, ma, az := us0, ma0, az0;
    for i := 0 to |rows|
      invariant us == Stored(us0, r, rows[..i], "United States")
      invariant ma == Stored(ma0, r, rows[..i], "Massachusetts")
      invariant az == Stored(az0, r, rows[..i], "Arizona")
    {
      assert rows[..i + 1][..i] == rows[..i];
      var row := rows[i];
      var d := r.ParseDate(row[r.DateCol]);
      if d.None? || d.value < r.MinDate || row[r.CountCol] == "" {
        continue;
      }
      var n := r.ParseCount(row[r.CountCol]);
      var count := if n.Some? then n.value else 0;
      if row[1] == "Massachusetts" {
        ma := ma[d.value := count];
      }
      if row[1] == "Arizona" {
        az := az[d.value := count];
      }
      if row[1] == "United States" {
        us := us[d.value := count];
      }
    }
    assert rows[..|rows|] == rows;
  }

  /** The reader a header sets up, when it has both columns. */
  function ReaderFor(header: seq<string>, today: Date, parseDate: string -> Option<Date>, parseCount: string -> Option<int>): (r: Option<Reader>)
    ensures r.Some? <==> LastColumn(header, "DATE").Some? && LastColumn(header, "PEOPLE_VACCINATED").Some?
    ensures r.Some? ==> r.value.DateCol != r.value.CountCol && r.value.DateCol < |header| && r.value.CountCol < |header| && |header| >= 2
  {
    match (LastColumn(header, "DATE"), LastColumn(header, "PEOPLE_VACCINATED"))
    case (Some(dc), Some(cc)) => Some(Reader(dc, cc, today - Covid.HistoricalDays, parseDate, parseCount))
    case _ => None
  }

  class VaccinationSlide {
    var UsData: Covid.DailyData
    var MaData: Covid.DailyData
    var AzData: Covid.DailyData

    /** `NewVaccinationSlide`, without its fetch helper. */
    constructor ()
      ensures UsData == Covid.NewDailyData("US") && MaData == Covid.NewDailyData("Mass") && AzData == Covid.NewDailyData("Ariz")
    {
      UsData := Covid.NewDailyData("US");
      MaData := Covid.NewDailyData("Mass");
      AzData := Covid.NewDailyData("Ariz");
    }

    /** `Parse` on day `today` with `csv` the reader's result (`None` for a
        CSV error; the reader gives every record the width of the first).
        A CSV error or a header lacking either column returns false and
        changes nothing. Otherwise each location's kept rows are stored and
        all three series get their differences recomputed; an empty file
        has no header to check and succeeds. */
    method Parse(csv: Option<seq<Row>>, today: Date,
                 parseDate: string -> Option<Date>, parseCount: string -> Option<int>) returns (ok: bool)
      requires csv.Some? && |csv.value| > 0 ==> Width(csv.value, |csv.value[0]|)
      modifies this
      ensures !ok ==> UsData == old(UsData) && MaData == old(MaData) && AzData == old(AzData)
      ensures ok <==> csv.Some? && (|csv.value| == 0 || ReaderFor(csv.value[0], today, parseDate, parseCount).Some?)
      ensures ok && |csv.value| == 0 ==>
                UsData == Covid.Recalculated(old(UsData), today) &&
                MaData == Covid.Recalculated(old(MaData), today) &&
                AzData == Covid.Recalculated(old(AzData), today)
      ensures ok && |csv.value| > 0 ==>
                var r := ReaderFor(csv.value[0], today, parseDate, parseCount).value;
                var rows := csv.value[1..];
                Readable(r, rows) &&
                UsData == Covid.Recalculated(old(UsData).(Totals := Stored(old(UsData.Totals), r, rows, "United States")), today) &&
                MaData == Covid.Recalculated(old(MaData).(Totals := Stored(old(MaData.Totals), r, rows, "Massachusetts")), today) &&
                AzData == Covid.Recalculated(old(AzData).(Totals := Stored(old(AzData.Totals), r, rows, "Arizona")), today)
    {
      if csv.None? {
        return false;
      }
      var rows := csv.value;
      var us, ma, az := UsData.Totals, MaData.Totals, AzData.Totals;
      if |rows| > 0 {
        var dateCol, countCol := FindColumns(rows[0]);
        if dateCol == -1 || countCol == -1 {
          return false;
        }
        var r := Reader(dateCol, countCol, today - Covid.HistoricalDays, parseDate, parseCount);
        assert Some(r) == ReaderFor(rows[0], today, parseDate, parseCount);
        us, ma, az := StoreRows(r, rows[1..], us, ma, az);
      }
      UsData := Covid.CalculateDiffs(UsData.(Totals := us), today);
      MaData := Covid.CalculateDiffs(MaData.(Totals := ma), today);
      AzData := Covid.CalculateDiffs(AzData.(Totals := az), today);
      return true;
    }
  }

  /** What `Draw` shows. */
  datatype Screen = ErrorScreen(Title: string, Message: string) | DataRows(Header: string, Rows: seq<(int, Covid.DailyData)>)

  /** `Draw`: the error screen unless the last fetch succeeded; otherwise the
      heading and one row per series at y = 8, 16 and 24. */
  function Draw(lastFetchSuccess: bool, us: Covid.DailyData, ma: Covid.DailyData, az: Covid.DailyData): (s: Screen)
    ensures s.ErrorScreen? <==> !lastFetchSuccess
    ensures s.DataRows? ==> |s.Rows| == 3 && s.Rows[0] == (8, us) && s.Rows[1] == (16, ma) && s.Rows[2] == (24, az)
  {
    if !lastFetchSuccess then ErrorScreen("Covid Vaccination", "Missing data.")
    else DataRows("COVID-19 VACCINATIONS", [(8, us), (16, ma), (24, az)])
  }
}
