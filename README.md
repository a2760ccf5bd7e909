# LedMatrix in Dafny

LedMatrix is a Go program that drives a 128×32 LED matrix. A slideshow
engine rotates a list of slides. The engine is started, stopped, frozen and
unfrozen through a small HTTP control endpoint, and an advance ticker moves
it to the next enabled slide. Each slide fetches its data periodically
through an HTTP helper and draws it on a pixel surface with bitmap glyphs
and icons. The slides show transit predictions, COVID and vaccination
counts, a tracked flight, the weather, and countdowns to New Year,
Christmas and calendar events.

This project models that core, one Dafny module per Go file:

- the slideshow engine (`Slideshow`) and its HTTP guards (`Controller`);
- both fetch helpers: the started/stopped loop with its success flag
  (`HttpSlide`) and the older time-based response cache (`Slide`);
- the pixel buffers, glyph blitting, text alignment, boxes and hex colours
  (`Surface`, `Drawing`, `Pixel`, `Glyphs`, `Icons`);
- each slide's parsing and selection logic (`Mbta`, `Covid`,
  `Vaccination`, `Flight`, `Weather`, `NewYear`, `Christmas`, `StayHome`,
  `Engagement`, `Countdown`) and the brightness floor of the file display
  (`SaveToFile`).

Go's semantics are modelled explicitly in small helper modules:

- `GoInt`: truncating `/` and `%`;
- `GoTime`: `time.Time` and `time.Duration` as integer nanoseconds, with
  the zero time in year 1;
- `Fmt`: decimal formatting;
- `Colors`: RGBA colours;
- `Wrappers`: `Option`.

Objects whose fields the Go code updates become classes, with `modifies`
clauses and a ghost event trace. That trace records the `Initialize`,
`Terminate`, `StartDraw`, `StopDraw` and redraw calls that the slideshow
makes on its slides. Pure computations become functions with lemmas, and
loops become methods with invariants.

The clock, the network, JSON, CSV and RFC 3339 decoding, `strconv`, and
random draws are never performed. Wherever the Go code would consult them,
the model takes their results as parameters (`now`, `Option` bodies and
parse functions).

Where the code and its evident intent differ (see "## Findings"), the
model follows the code as written, and a separate definition states and
proves the intended behaviour beside it.

## Model

| member | source | states |
|---|---|---|
| SaveToFile.Max | savetofiledisplay.go:106-111 | the result is at least both arguments and is one of them |
| SaveToFile.FloorColor | savetofiledisplay.go:99-104 | R, G and B each end at least `MIN_BRIGHTNESS` (40): a channel already at 40 or more is kept, a darker one becomes exactly 40; alpha is kept |
| SaveToFile.FloorColorIdempotent | savetofiledisplay.go:99-104 | flooring an already floored colour changes nothing |
| Pixel.PixelGrid.constructor | pixel.go:11-20 | a fresh grid of `Height` rows of `Width` zero pixels |
| Pixel.PixelGrid.GetValue | pixel.go:22-24 | the pixel at row `y`, column `x`; Go indexes without a bounds check, so `x < Width` and `y < Height` are required |
| Pixel.PixelGrid.SetValue | pixel.go:26-30 | reading `(x, y)` back gives `p`, and every other cell keeps its pixel |
| Glyphs.MakeGlyph | glyphs.go:16-20 | the glyph keeps its character and layout and is as wide as the layout's first row, which must exist |
| Glyphs.UnknownIsCheckerboard | glyphs.go:38-50 | the fallback glyph is 5 wide with 8 rows of 5 cells, and cell `(i, j)` is lit exactly when `i + j` is even |
| Glyphs.Lookup | glyphs.go:56-62 | a registered character gives its glyph, any other character the fallback glyph |
| Glyphs.RegisterThenLookup | glyphs.go:16-22 | after registering `c`, looking up `c` gives the new glyph (overwriting an earlier one) and every other character looks up as before |
| Glyphs.GlyphService.constructor | glyphs.go:24-54 | the registry holds only the glyph for 'a', and the fallback is the checkerboard |
| Glyphs.GlyphService.Register | glyphs.go:16-22 | the registry maps `c` to the glyph built from `layout`, and nothing else changes |
| Glyphs.GlyphService.GetGlyph | glyphs.go:56-62 | the lookup with fallback on the current registry; an unregistered character gives the fallback glyph |
| Icons.MakeIcon | icons.go:16-21 | the icon keeps its name and layout; its width is that of the first row and its height the number of rows |
| Icons.LookupIcon | icons.go:89-98 | a known name gives its icon; otherwise the "missing" icon if registered, else the zero icon |
| Icons.InitialIcons | icons.go:25-87 | the built-in set holds exactly "biohazard-16", "house-16" and "missing" |
| Icons.InitialIconsAre16x16 | icons.go:30-85 | every built-in icon is 16 wide and 16 tall, every row included |
| Icons.EveryLookupIs16x16 | icons.go:89-98 | after `InitIcons`, every name, known or not, resolves to a 16x16 icon |
| Icons.IconSet.constructor | icons.go:14 | the registry starts empty and not yet made (a nil map) |
| Icons.IconSet.RegisterIcon | icons.go:16-23 | the registry maps `name` to the new icon, overwriting any earlier one, and `GetIcon(name)` returns it |
| Icons.IconSet.InitIcons | icons.go:25-87 | the registry is made afresh and holds exactly the built-in set |
| Icons.IconSet.GetIcon | icons.go:89-98 | the two-level fallback lookup on the current registry |
| Slide.HttpHelper.constructor | slide.go:28-33 | the helper keeps the URL and interval, with the zero last-fetch time and an empty cache |
| Slide.HttpHelper.Fetch | slide.go:35-57 | before `LastFetchTime + RefreshInternal` the cached body is returned and nothing changes; otherwise a network error returns `(nil, false)` and changes nothing, and a body is returned, cached and stamped with the fetch time |
| Slide.FirstFetchNotCached | slide.go:28-39 | a new helper's first fetch, at any time at least one interval after the zero time, reports exactly the network's outcome |
| Slide.RefetchWithinInterval | slide.go:36-39 | within the interval after a successful fetch, the next fetch succeeds with the same body whatever the network would say |
| HttpSlide.BuildRequest | httpslide.go:67-76 | a configured URL callback decides the request; otherwise the request is a GET of the configured URL exactly when that URL parses |
| HttpSlide.BodyToParse | httpslide.go:78-114 | a body reaches the parser exactly when the request was built, the transport delivered a response and the status is 200, and it is that response's body |
| HttpSlide.FetchVerdict | httpslide.go:78-116 | the success flag a fetch leaves is true exactly when a body reached the parser and the parser accepted it |
| HttpSlide.HttpHelper.constructor | httpslide.go:29-34 | a new helper keeps its configuration, has no ticker, and has not fetched |
| HttpSlide.HttpHelper.Fetch | httpslide.go:78-123 | the new success flag is the fetch verdict, a body is recorded as parsed exactly when one reached the parser, and nothing else changes |
| HttpSlide.HttpHelper.Request | httpslide.go:78-114 | the fetch up to the parser: the body returned is exactly the one that reaches the parser, a failure before it records an unsuccessful fetch, and every call counts as a fetch |
| HttpSlide.HttpHelper.Deliver | httpslide.go:116 | the parser's verdict on the body becomes the success flag, and the body is recorded as parsed |
| HttpSlide.HttpHelper.StartLoop | httpslide.go:36-54 | starting an already started loop changes nothing; otherwise the ticker is set and one synchronous fetch is made, with `Fetch`'s whole effect: its verdict, one more fetch counted, and the body that reached the parser recorded |
| HttpSlide.HttpHelper.StartTicker | httpslide.go:36-45 | the ticker is set exactly when none was running, and afterwards one runs |
| HttpSlide.HttpHelper.StopLoop | httpslide.go:56-65 | stopping reports whether a ticker was running and always leaves none |
| Controller.Decide | controller.go:30-82 | only POST is served (405 otherwise); each action is taken exactly when its path and the show's state allow it, with 200; a refused known path is exactly the 412 case and an unknown path exactly the 400 case |
| Controller.Controller.constructor | controller.go:14-19 | the controller drives the given show and no shutdown has been requested |
| Controller.Controller.ServeHTTP | controller.go:30-82 | the response code is the decision's; a refused request leaves the show alone; `/start` creates the welcome slide, runs and ticks the show, initialises every slide between drawing and clearing the welcome, and shows the first enabled slide when there is one; `/stop` stops the current slide, terminates every slide and blanks the screen; `/freeze` only sets the flag; `/unfreeze` clears it and moves on to the next enabled slide after the current one; an accepted start, stop, freeze or unfreeze is refused (412) if repeated; `/shutdown` signals the shutdown channel |
| Slideshow.Step | slideshow.go:63 | one index step stays below the slide count and wraps from the last slide to the first |
| Slideshow.Probe | slideshow.go:62-71 | every index the advance loop visits is a valid slide index |
| Slideshow.ProbeWraps | slideshow.go:62-71 | within one cycle the `k`-th index visited is `cur + k`, wrapped once past the end |
| Slideshow.Scan | slideshow.go:62-71 | the probing stops at the first enabled slide met, and reports none only when no slide in a whole cycle is enabled |
| Slideshow.NextEnabled | slideshow.go:62-71 | the slide the advance settles on is an enabled slide |
| Slideshow.ProbeCovers | slideshow.go:62-71 | every slide index is visited within one cycle from any starting index |
| Slideshow.NextEnabledIffSomeEnabled | slideshow.go:62-71 | the advance finds a slide exactly when some slide is enabled |
| Slideshow.NextEnabledIsFirst | slideshow.go:62-71 | every slide skipped before the chosen one is disabled |
| Slideshow.FirstAdvanceFromStart | slideshow.go:31-71 | the first advance after start, from index -1, lands on the lowest-indexed enabled slide |
| Slideshow.InitializeEach | slideshow.go:85-87 | each slide is initialised once, in list order |
| Slideshow.TerminateEach | slideshow.go:96-98 | each slide is terminated once, in list order |
| Slideshow.Slideshow.constructor | slideshow.go:23-29 | a new show holds the configured slides and is stopped, unfrozen, without a ticker or current slide |
| Slideshow.Slideshow.Advance | slideshow.go:59-74 | the outgoing slide stops drawing, the current slide becomes the next enabled slide after the old index, and that slide starts drawing |
| Slideshow.Slideshow.Seek | slideshow.go:62-71 | the loop's resulting index is the next enabled slide after the starting index, whenever one exists |
| Slideshow.Slideshow.WaitForReadiness | slideshow.go:76-88 | every slide is initialised, in order, and the show's state is otherwise untouched |
| Slideshow.Slideshow.Start | slideshow.go:31-57 | the show runs with an active ticker; the welcome slide draws, all slides initialise, the welcome slide stops, and the first enabled slide starts drawing |
| Slideshow.Slideshow.ShowWelcome | slideshow.go:32-37 | the show is marked running at index -1 with a fresh enabled welcome slide drawing |
| Slideshow.Slideshow.StartTicker | slideshow.go:48 | the advance ticker exists and ticks |
| Slideshow.Slideshow.Stop | slideshow.go:90-102 | the show stops and its ticker stops; the current slide stops drawing, every slide terminates in order, and a blank image is drawn |
| Slideshow.Slideshow.Freeze | slideshow.go:104-106 | the show is frozen and nothing else changes |
| Slideshow.Slideshow.Unfreeze | slideshow.go:108-111 | the show is unfrozen and advances once to the next enabled slide |
| Slideshow.Slideshow.Tick | slideshow.go:49-56 | a tick advances exactly when the ticker is active and the show is not frozen, and otherwise changes nothing; an advance has `Advance`'s effect (the next enabled slide, or the index left where the cycle ended, the current slide that index's slide, the draw trace) and touches nothing but the index, the current slide and the trace |
| Surface.HexDigit | surface.go:158-164 | a character that hex-decodes has a value below 16 |
| Surface.HexByte | surface.go:158-164 | a two-digit pair decodes exactly when both characters are hex digits |
| Surface.ColorFromHex | surface.go:158-169 | a colour is produced exactly when the string has six leading hex digits, and it is always opaque |
| Surface.HexChar | surface.go:158-164 | the digit written for a value decodes back to that value |
| Surface.HexOf | surface.go:158-169 | the hex form of a colour has exactly the six digits `ColorFromHex` reads |
| Surface.ColorFromHexRoundTrip | surface.go:158-169 | decoding a colour's hex form, followed by anything, gives back its red, green and blue with alpha 255 |
| Surface.Surface.constructor | surface.go:18-29 | the grid has the given size, every cell is the zero colour, the midpoint is half the width, and the font is the default one |
| Surface.Surface.GetValue | surface.go:39-44 | a read succeeds exactly inside the grid and gives that cell |
| Surface.Surface.SetValue | surface.go:46-53 | a write succeeds exactly inside the grid, changes exactly that cell, and outside changes nothing |
| Surface.SetThenGet | surface.go:39-53 | an in-bounds write is read back, and every other cell reads as before |
| Surface.Surface.WriteString | surface.go:55-81 | the glyph array holds each character's glyph at the byte where it starts and zero glyphs at continuation bytes; it is drawn from the origin the alignment gives for the width measured over the characters, so exactly the cells it lights take the colour and all others keep theirs |
| Surface.Surface.WriteStringBoxed | surface.go:83-117 | the glyph array is filled, byte slot by byte slot, only for the characters before the first one that pushes the width past `max`; it is aligned by a width that still includes that overflowing glyph, and exactly the cells the filled glyphs light take the colour |
| Surface.Surface.WriteGlyph | surface.go:119-127 | exactly the cells under the glyph's set bits take the colour |
| Surface.Surface.Clear | surface.go:129-136 | every cell becomes opaque black |
| Surface.Surface.DrawBox | surface.go:138-144 | exactly the cells in the rectangle take the colour |
| Surface.Surface.DrawEmptyBox | surface.go:146-156 | exactly the cells on the box outline (including the column one past the right edge) take the colour |
| Drawing.SetRGBA | drawing.go:88 | a pixel write inside the image changes exactly that pixel, and one outside changes nothing |
| Drawing.GlyphsFor | drawing.go:19-25 | the glyphs the width is measured over: one per character (not per byte), each the font's glyph for it or the unknown glyph |
| Drawing.Utf8Len | drawing.go:19 | a character takes one to four bytes, and one exactly when it is ASCII |
| Drawing.Slots | drawing.go:19-25 | the array `make([]Glyph, len(str))` filled at each character's starting byte has one entry per byte |
| Drawing.ByteLenPrefix | drawing.go:19-21 | a prefix of the string has no more bytes than the string, and each character adds its own byte count |
| Drawing.ByteLenAppend | drawing.go:19 | the byte length of a concatenation is the sum of the byte lengths |
| Drawing.AsciiSlots | drawing.go:19-25 | on ASCII text the array holds exactly one glyph per character and has one entry per character |
| Drawing.AdvanceAppend | drawing.go:39-43 | the advance of two glyph runs drawn one after the other is the sum of their advances |
| Drawing.AdvanceZeros | drawing.go:39-43 | each zero glyph advances the pen by one column |
| Drawing.SlotsDrift | drawing.go:19-43 | the drawn array advances further than the measured width by one column per continuation byte, so text with multi-byte characters is drawn wider than it is aligned by |
| Drawing.FillSlot | drawing.go:21-25 | storing a character's glyph at its starting byte extends the filled prefix of the array by that character's slots |
| Drawing.FilledPrefix | drawing.go:46-59 | an array filled up to a character and zero after it is those slots followed by zero glyphs for the remaining bytes |
| Drawing.CollectSlots | drawing.go:19-25 | the loop leaves the byte-slot array and the advance measured over the characters |
| Drawing.AdvanceAtLeastCount | drawing.go:19-27 | with glyph widths that are not negative, the running width is at least one column per glyph |
| Drawing.StringCoversWithinWidth | drawing.go:18-44 | every pixel a drawn string lights lies between its origin and origin plus measured width, minus one |
| Drawing.AlignedTextBounds | drawing.go:29-37 | every lit pixel of text aligned about `x` lies right of `x` (left alignment), left of `x` (right alignment), or within half the text width either side of `x` (centre) |
| Drawing.ZeroGlyphsLightNothing | drawing.go:47-75 | the zero glyphs left in unused array slots draw nothing |
| Drawing.WriteGlyph | drawing.go:84-92 | exactly the in-bounds pixels under the glyph's set bits take the colour |
| Drawing.WriteGlyphs | drawing.go:39-43 | the glyphs are drawn side by side, each one column after the previous one's width, and nothing else changes |
| Drawing.WriteString | drawing.go:18-44 | exactly the pixels lit by the byte-slot glyph array, drawn from the origin the alignment gives for the width measured over the characters, take the colour; all others keep theirs |
| Drawing.BoxedCount | drawing.go:49-57 | the number of glyphs kept never exceeds the string's length |
| Drawing.BoxedCountIsFirstOverflow | drawing.go:49-57 | every kept prefix fits within `max`, and the first glyph left out is the one that pushes the width past `max` |
| Drawing.BoxedPrefixesFit | drawing.go:49-57 | every kept prefix fits within `max` |
| Drawing.BoxedNextOverflows | drawing.go:49-57 | the first glyph left out pushes the running width past `max` |
| Drawing.CollectBoxed | drawing.go:47-59 | the array is the byte slots of the fitting characters followed by zero glyphs for the bytes of the rest, and the width counts the overflowing glyph too |
| Drawing.WriteStringBoxed | drawing.go:46-82 | only the byte slots of the characters before the first overflowing one are filled and drawn, aligned by a width that includes the overflowing glyph; nothing else changes |
| Drawing.DrawBox | drawing.go:94-100 | exactly the in-bounds pixels of the rectangle take the colour |
| Drawing.DrawEmptyBox | drawing.go:102-112 | exactly the pixels on the outline take the colour: top and bottom rows, the left column and the column one past the right edge |
| Drawing.ErrorMessage | drawing.go:116 | for two-digit codes the message is "E #" and the two zero-padded numbers joined by "-", eight characters long; every character of it is ASCII |
| Drawing.DrawError | drawing.go:114-118 | the (all ASCII) error message is drawn in yellow, left-aligned at the top-left corner, and nothing else changes |
| Drawing.GetLeftOfCenterX | drawing.go:133-135 | the result is half the image width, rounded down, and lies inside a non-empty image |
| Mbta.LookupStationName | mbtaslide.go:37-57 | a known station id gives its name from the fixed table, any other id gives "?????" |
| Mbta.TypeCode | mbtaslide.go:375-383 | route types print as the numbers 0 to 4 |
| Mbta.RouteTypeOf | mbtaslide.go:125-136 | API codes 0 to 3 become light rail, heavy rail, commuter rail and bus, in that order; every other code is unknown |
| Mbta.LastWinsEntry | mbtaslide.go:118-161 | a map built by overwriting holds a key exactly when some element writes it, with the value of the last element that does |
| Mbta.LastWinsPresent | mbtaslide.go:118-161 | a key is present exactly when some element writes it |
| Mbta.LastWinsLatest | mbtaslide.go:118-161 | a present key holds the value of the last element that writes it |
| Mbta.GroupedIsCollect | mbtaslide.go:166-195 | a map built by appending holds a key exactly when some element contributes to it, with all contributions in list order |
| Mbta.TripRoutesEntry | mbtaslide.go:114-163 | a trip is mapped exactly when it names a route defined among the resources, and its entry takes that route's type, id and colour and the trip's headsign |
| Mbta.BuildTripIdToRouteMap | mbtaslide.go:114-163 | the two passes build exactly the trip map of the route definitions and the trips |
| Mbta.FirstSlashAt | mbtaslide.go:232-234 | in a slash-free field followed by "/", the first slash sits right after the field |
| Mbta.SplitAtSlash | mbtaslide.go:232-234 | a string splits uniquely at its first slash |
| Mbta.RouteToString | mbtaslide.go:232-234 | the key is the type code, colour, id and destination joined by three slashes: it opens with the type code and a slash and closes with a slash and the destination |
| Mbta.SplitFields | mbtaslide.go:232-234 | four fields joined by slashes, the first three slash-free, split back into the same fields |
| Mbta.RouteToStringInjective | mbtaslide.go:232-234 | when colours and ids hold no slash, two routes with the same route string are the same route |
| Mbta.BuildRouteToPredictionsMap | mbtaslide.go:165-196 | a route string is a key exactly when some prediction with a departure time, a parsable time and a known trip contributes to it, and maps to those times in input order; the map is the grouping of the contributing predictions' times by route string |
| Mbta.RouteLookup | mbtaslide.go:199-203 | every trip's route is reachable by its route string, and every entry is some trip's route filed under its own string |
| Mbta.FlattenPredictions | mbtaslide.go:198-229 | one prediction per distinct route string that has times and a known route, carrying that route and those times, in some order |
| Mbta.PairPredictions | mbtaslide.go:206-226 | keys with no times or no known route are skipped; every other key gives exactly one prediction with its route and times |
| Mbta.InsertDown | mbtaslide.go:237-241 | one insertion step extends the sorted prefix by one element and only permutes the array |
| Mbta.Swap | mbtaslide.go:237-241 | exactly the two positions exchange their values |
| Mbta.GetMinTime | mbtaslide.go:236-242 | the slice ends sorted ascending as a permutation of itself, and the result is its earliest time |
| Mbta.FutureTimes | mbtaslide.go:247-252 | exactly the times not before now are kept |
| Mbta.FutureIndices | mbtaslide.go:247-252 | the positions of the times not before now, ascending: each such position is listed and no other |
| Mbta.FutureTimesAtIndices | mbtaslide.go:247-252 | the kept times are exactly the times at those positions, in their order and with their repetitions |
| Mbta.FilterPast | mbtaslide.go:244-259 | every kept prediction has at least one time, and all its times are not before now |
| Mbta.KeptIndices | mbtaslide.go:244-259 | the listed positions of the predictions that keep a time are positions of the input |
| Mbta.KeptIndicesKept | mbtaslide.go:244-259 | every listed position holds a prediction with at least one time not before now |
| Mbta.KeptIndicesAscending | mbtaslide.go:244-259 | the positions are listed in ascending order, as the loop visits them |
| Mbta.KeptIndicesComplete | mbtaslide.go:244-259 | every prediction with a time not before now has its position listed |
| Mbta.FilterPastAtIndices | mbtaslide.go:244-259 | every prediction with a future time is kept, in order, with its route and exactly its future times, and no other prediction is |
| Mbta.FutureTimesIdempotent | mbtaslide.go:247-252 | filtering the times twice at the same instant removes nothing more |
| Mbta.FilterPastIdempotent | mbtaslide.go:244-259 | filtering the predictions twice at the same instant removes nothing more |
| Mbta.FilterTimesInPast | mbtaslide.go:244-259 | the nested loops compute exactly the filtered predictions |
| Mbta.Min | mbtaslide.go:392-398 | the result is the smaller of the two arguments |
| Mbta.EstimateRows | mbtaslide.go:287-301 | at most three predictions with at most three times each, each shown as the whole minutes until that time, rounded down, never negative for a future time |
| Mbta.MbtaSlide.constructor | mbtaslide.go:49-69 | the slide's station name is the looked-up name and it has no predictions |
| Mbta.MbtaSlide.Parse | mbtaslide.go:91-112 | a body that does not decode fails and keeps the old predictions; otherwise it succeeds and the stored predictions are the flattening of the trip map built from the included resources and of the times grouped by route string from the data resources: one per route string with times and a known route, each with that route and its times in input order |
| Covid.NewDailyData | covidslide.go:211-217 | a new series carries its label, a zero total and no totals or differences |
| Covid.LastValIsLatest | covidslide.go:243-252 | the value a difference is taken against is the total of the latest earlier day present in the window, or 0 when there is none, so gaps are glossed over |
| Covid.DiffsBeforeEntry | covidslide.go:246-265 | every day of the window gets its difference written, and no date outside the window changes |
| Covid.TotalIsLatest | covidslide.go:254-259 | the series total ends as the total of the latest day present in the window, or unchanged when no day is |
| Covid.Recalculated | covidslide.go:242-267 | recalculating keeps the label and the totals |
| Covid.CalculateDiffs | covidslide.go:242-267 | the loop leaves exactly the recalculated series: window differences written, total of the latest day, label and totals kept |
| Covid.ToDiffsForGraph | covidslide.go:269-280 | one value per graphed day, in date order, each that day's difference or 0 when it is missing |
| Covid.GraphAfterCalculate | covidslide.go:242-280 | after recalculation no graphed day is missing, so each graphed value is that day's computed difference |
| Covid.RegionSumOfOthers | covidslide.go:147-170 | a region's sum counts only its own rows: with none of them the sum is 0 |
| Covid.StorePositive | covidslide.go:172-180 | a positive sum is stored under the date, and a sum of 0 or less leaves the totals as they were |
| Covid.Body | covidslide.go:147-151 | the header row is skipped and every other row is kept, in order |
| Covid.CovidSlide.constructor | covidslide.go:31-37 | the three series start empty under the labels "US", "Mass" and "Ariz" |
| Covid.CovidSlide.QueryForDate | covidslide.go:119-182 | an unreadable report fails and changes nothing; otherwise each region's positive sum of its rows' counts is stored under the date |
| Covid.CovidSlide.QueryDays | covidslide.go:86-101 | a day is queried exactly when the US series lacked it before the fetch or it is one of the two most recent days; the counts of queries and readable reports are tallied, and each series' totals become its `QueriedTotals`, its label, total and differences unchanged |
| Covid.CovidSlide.QueryDay | covidslide.go:90-99 | one pass of the loop: day `today - i` is queried iff the US series lacks it or `i < 3`, a report is read iff it is queried and available, and each series' totals become `QueriedDay` of the old ones, nothing else changing |
| Covid.QueriedTotalsAt | covidslide.go:90-101 | after the queries, a day in the window that was queried, whose report was read and whose region sum is positive holds that sum; every other day keeps its old entry, or stays absent |
| Covid.CovidSlide.ShowsError | covidslide.go:71 | `Draw`'s gate: the error screen shows exactly when the ratio of successful to attempted queries is below 0.5, and always before any query, when Go's ratio is its zero value |
| Covid.CovidSlide.FetchData | covidslide.go:85-115 | the stored counts are the attempts and successes of the query loop, with at least two attempts and successes never above attempts; under the guard as written the failure message is never logged; each of the three series ends as its queried totals recalculated for today |
| Covid.Attempts | covidslide.go:90-100 | never more attempts than days looked at |
| Covid.Successes | covidslide.go:90-100 | never more successes than attempts |
| Covid.RecentDaysAlwaysQueried | covidslide.go:94-96 | the two most recent days are always queried, so every fetch attempts at least two queries |
| Covid.NoReportNoSuccess | covidslide.go:90-100 | when no report can be read, no query succeeds |
| Covid.FailureNeverLogged | covidslide.go:103-108 | under the condition as written the failure message is never logged, even when every query fails |
| Covid.FailureLoggedIff | covidslide.go:103-108 | under the intended condition the message is logged exactly when some queried day's report could not be read |
| Vaccination.UpperChar | vaccinationslide.go:78 | lower-case ASCII letters map to their upper-case letters, every other character is kept |
| Vaccination.Upper | vaccinationslide.go:78 | the upper-cased header has the same length, each character upper-cased |
| Vaccination.UpperMatchesAnyCase | vaccinationslide.go:78-79 | a header cell matches an upper-case column name exactly when it spells the name with each letter in either case |
| Vaccination.UpperCharInverse | vaccinationslide.go:78-79 | a character upper-cases to a character that is not a lower-case letter exactly when it is that character in either case |
| Vaccination.LastColumn | vaccinationslide.go:77-85 | a column is found exactly when some header names it in any case, and it is the last such header |
| Vaccination.FindColumns | vaccinationslide.go:72-85 | the header loop finds the last date column and the last people-vaccinated column, or -1 for a missing one |
| Vaccination.Kept | vaccinationslide.go:98-125 | a row is kept exactly when its date parses, is not before the cutoff and its count cell is not empty; it contributes that date and the parsed count, or 0 when the count does not parse |
| Vaccination.StoredUntouched | vaccinationslide.go:127-135 | a date that no row of a location writes keeps its earlier total, or stays absent |
| Vaccination.StoredLastWins | vaccinationslide.go:127-135 | a date written by rows of a location holds the count of the last such row |
| Vaccination.StoreRows | vaccinationslide.go:74-136 | the row loop stores into the three locations' totals exactly what their kept rows say |
| Vaccination.ReaderFor | vaccinationslide.go:72-95 | a header sets up a reader exactly when both columns are present, and the two columns differ |
| Vaccination.VaccinationSlide.constructor | vaccinationslide.go:24-37 | the three series start empty under the labels "US", "Mass" and "Ariz" |
| Vaccination.VaccinationSlide.Parse | vaccinationslide.go:59-143 | a CSV error or a header without both columns fails and changes nothing; otherwise every location's kept rows are stored and all three series are recalculated |
| Vaccination.Draw | vaccinationslide.go:145-159 | the error screen exactly when the last fetch failed; otherwise the three series at rows 8, 16 and 24 |
| Flight.TrackedEntries | flightslide.go:42-54 | a flight is tracked exactly when some visited input date parses to its date and maps to its id |
| Flight.OneFlightPerDay | flightslide.go:42-54 | when distinct date texts parse to distinct dates, no two tracked flights share a day |
| Flight.PickTime | flightslide.go:158-168 | the filed time without an estimate, else the estimate without an actual time, else the actual time; departed (or arrived) exactly when both an estimate and an actual time exist |
| Flight.DisplayFor | flightslide.go:151-187 | the title, airports, times, flags and delays (seconds scaled to durations) come from the flight, and the result is never the empty display |
| Flight.FindTarget | flightslide.go:132-142 | the result is the first flight whose filed departure falls on today, or the zero flight when there is none |
| Flight.RoundToMinute | flightslide.go:206 | the rounded duration is a whole number of minutes within half a minute of the input |
| Flight.HoursMinutes | flightslide.go:205-209 | at least one hour and fewer than 60 minutes, together making up the rounded duration |
| Flight.SplitMinutes | flightslide.go:206-209 | a whole number of minutes divides into `k / 60` hours and `k % 60` minutes |
| Flight.GetDurationString | flightslide.go:204-213 | "h:mm" of the rounded duration for at least an hour, else the truncated whole minutes followed by " Min" |
| Flight.ShortDurationsTruncate | flightslide.go:212 | a duration under an hour reads its whole minutes (0 to 59, truncated, not rounded) followed by " Min", and anything within a minute of zero, either side, reads "0 Min" |
| Flight.StatusOf | flightslide.go:242-257 | "Arrived" exactly after departure and arrival; yellow "Late" with the pending delay exactly when that delay is positive; otherwise green "On Time" |
| Flight.Draw | flightslide.go:215-273 | a connection error first, then "No data." for the empty display, else the board with its status and the "Dep."/"Arr." prefixes exactly for a departed or arrived flight |
| Flight.FlightSlide.constructor | flightslide.go:31-57 | the tracked flights are those of the input whose dates parse, no flight is active, and the fetch helper is configured with a ten-minute interval and a request callback |
| Flight.FlightSlide.GetActiveFlight | flightslide.go:195-202 | a flight is found exactly when one is tracked for today, and it is the first such; otherwise the zero flight |
| Flight.FlightSlide.IsEnabled | flightslide.go:101-105 | enabled exactly when some tracked flight is dated today |
| Flight.FlightSlide.Initialize | flightslide.go:59-86 | with a flight tracked for today, the first such flight becomes the active flight; a running fetch loop is left alone, otherwise the ticker is set and one fetch is made at once, whose body, when one arrives, goes through `Parse` (display data set, the loop stopped for an arrived flight, the success flag its verdict) and whose failure leaves the display as it was; without a flight for today nothing changes |
| Flight.FlightSlide.Terminate | flightslide.go:88-91 | afterwards no fetch ticker runs, whether or not an arrived flight had already stopped it |
| Flight.FlightSlide.Parse | flightslide.go:119-193 | `ParseEffect`: an undecodable body fails and changes nothing; no flight filed for today clears the display and fails; otherwise the display is built from the first flight filed for today and an arrived flight stops the fetch loop |
| Weather.SegmentEnd | weatherslide.go:269 | the `[^/]+` run from a position ends at the next slash or the end of the URL, and holds no slash |
| Weather.RunEnd | weatherslide.go:269 | the `[a-z_]+` run from a position ends at the first other character, and holds only those characters |
| Weather.MatchAt | weatherslide.go:269-270 | a match at a position gives two non-empty captures: a slash-free segment, a slash and a run of `[a-z_]`, and that run alone |
| Weather.Captures | weatherslide.go:269-270 | any captures found are non-empty |
| Weather.CapturesIsLeftmost | weatherslide.go:269-270 | the captures are those of the leftmost position where the pattern matches |
| Weather.NoCapturesNoMatch | weatherslide.go:269-271 | no captures are reported only when no position matches |
| Weather.IconKey | weatherslide.go:268-292 | the condition with its time of day is looked up first, then the bare condition, and a URL the pattern does not match, or whose conditions the map lacks, has no icon |
| Weather.IconKeyOfUrl | weatherslide.go:268-292 | for every URL made of `/icons/land/`, a slash-free time of day, a slash, a `[a-z_]+` condition and then the end or any other character, the icon is the map entry for "time of day/condition" if present, else the entry for the bare condition, else none |
| Weather.MatchAtPrefix | weatherslide.go:269-270 | such a string matches the pattern at its start, capturing the whole key and the condition run up to the first character outside `[a-z_]` |
| Weather.MatchAtEnds | weatherslide.go:269-270 | after the prefix, the match at the start is fixed by where the slash-free run and the `[a-z_]` run end: it captures from the segment to the end of the condition, and the condition alone |
| Weather.SegmentEndAt | weatherslide.go:269 | the `[^/]+` run from a position ends at the first slash after it |
| Weather.RunEndAt | weatherslide.go:269 | the `[a-z_]+` run from a position ends at the first character outside `[a-z_]`, or at the end of the URL |
| Weather.Trunc | weatherslide.go:176 | converting a float to an integer truncates toward zero |
| Weather.BoilingAsWritten | weatherslide.go:175-176 | as written, every Celsius reading is shown as `int(C + 32)`, so 100 °C reads 132 °F; the corrected conversion gives 212 |
| Weather.FahrenheitProperties | weatherslide.go:175-176 | the corrected conversion is within one degree of `C × 1.8 + 32`, and exact at 0, 100 and -40 |
| Weather.PeriodEndingAt | weatherslide.go:258-266 | none exactly when no period ends at the time, else the first period that does |
| Weather.GetForecastWithEndTime | weatherslide.go:258-266 | the loop returns the first period ending at the expected time, or none |
| Weather.WeatherSlide.constructor | weatherslide.go:99-114 | the weather starts as all zero values with no icons |
| Weather.WeatherSlide.ParseObservations | weatherslide.go:157-179 | an undecodable or stale observation fails and changes nothing; otherwise the current temperature becomes the as-written conversion `int(C + 32)` of the reading, the icon is set, and nothing else changes |
| Weather.WeatherSlide.ParseForecast | weatherslide.go:181-256 | a stale or undecodable forecast changes nothing; otherwise today's high (before 18:00), tonight's low and icon, and tomorrow's high, low and icon are filled in turn, and a missing period fails the parse, keeping what was set before it |
| Weather.DayLabel | weatherslide.go:331 | a weekday label is three letters |
| Weather.Forecast1Text | weatherslide.go:332-337 | the first forecast shows high and low, or the low alone when the high is 0 |
| Weather.Draw | weatherslide.go:319-343 | the error screen exactly when either fetch failed; otherwise the current conditions and the two forecasts in their three boxes |
| NewYear.TargetYear | newyearslide.go:26-32 | the countdown targets next year, except in January, when it targets the current year |
| NewYear.HoursMinutesSeconds | newyearslide.go:78-83 | for a non-negative duration, hours, minutes below 60 and seconds below 60 that add up to its whole seconds |
| NewYear.FmtDuration | newyearslide.go:78-85 | the text is at least twelve characters: three `%02d` fields and two " : " separators |
| NewYear.FmtDurationReadsBack | newyearslide.go:78-85 | under 100 hours the text is twelve characters, two digits each for hours, minutes and seconds between " : " separators, and the fields read back as the duration's whole seconds |
| NewYear.NewYearSlide.constructor | newyearslide.go:20-23 | a new slide counts down to the zero time |
| NewYear.NewYearSlide.Initialize | newyearslide.go:25-34 | the target is midnight on January 1 of the target year |
| NewYear.NewYearSlide.IsEnabled | newyearslide.go:54-57 | enabled exactly until an hour after midnight |
| NewYear.NewYearSlide.Remaining | newyearslide.go:64-67 | the time until midnight, clamped to 0 once midnight has passed |
| NewYear.NewYearSlide.DrawText | newyearslide.go:59-71 | the countdown, "UNTIL" and the target year, in that order |
| NewYear.ZerosAfterMidnight | newyearslide.go:54-67 | during the enabled hour after midnight the countdown reads "00 : 00 : 00" |
| Christmas.TreeShape | christmasslide.go:12-38 | the tree has 25 rows, each within columns 0 to 20, symmetric about column 10 and never narrower than the row above |
| Christmas.EveryRowHasRoom | christmasslide.go:118-126 | every row a sparkle may be drawn in has a column strictly inside the tree, so the sampling loop can succeed |
| Christmas.GetRandomWithinTree | christmasslide.go:118-126 | the result is the first sampled point strictly inside the tree, and none is returned only when no sample was inside |
| Christmas.DaysUntil | christmasslide.go:128-131 | the remaining time in whole days, rounded up |
| Christmas.ChristmasSlide.constructor | christmasslide.go:45-48 | a new slide targets the zero time |
| Christmas.ChristmasSlide.Initialize | christmasslide.go:50-53 | the target is December 25 of the current year |
| Christmas.ChristmasSlide.IsEnabled | christmasslide.go:67-69 | enabled exactly when the count shown is the true day count and lies between 0 and 30 |
| Christmas.ChristmasSlide.DisplayedDays | christmasslide.go:109-113 | the count shown is the days until Christmas, or 0 once Christmas has begun |
| Christmas.EnabledWindow | christmasslide.go:67-69 | the slide is enabled exactly from 30 days before Christmas until a day after it began |
| StayHome.Min | stayhomeslide.go:97-102 | the result is the smaller of the two arguments |
| StayHome.GetDayCount | stayhomeslide.go:92-95 | the count is the number of whole days elapsed, counting a begun day, less one |
| StayHome.IsEnabled | stayhomeslide.go:37-42 | the slide is enabled exactly on counts divisible by 10, 25 or 365, whatever their sign |
| StayHome.ZeroRemainder | stayhomeslide.go:39-41 | Go's truncating remainder is zero exactly when the mathematical remainder is |
| StayHome.SizeSumAppend | stayhomeslide.go:52-74 | adding a block adds its marks to the total |
| StayHome.SizeSumConcat | stayhomeslide.go:52-74 | the marks of two runs of blocks add up |
| StayHome.Share | stayhomeslide.go:53-60 | the share a loop pass takes, the full unit or Go's remainder, is the count left over, capped at the unit |
| StayHome.NextBlock | stayhomeslide.go:58-61 | block `i` of a line of `lineDiff` marks holds `Min(5, lineDiff - 5 * i)` marks |
| StayHome.NextLine | stayhomeslide.go:53-56 | line `j` of a count of `diff` holds `Min(50, diff - 50 * j)` marks |
| StayHome.LinePrefixShape | stayhomeslide.go:57-73 | the first `n` blocks of a line: block `k` is at column `k`, holds `Min(5, lineDiff - 5 * k)` marks and is drawn as its size says |
| StayHome.LineBlocksShape | stayhomeslide.go:57-73 | a line of `lineDiff` marks has `lineDiff / 5 + 1` blocks, block `k` at column `k` with `Min(5, lineDiff - 5 * k)` marks, together exactly `lineDiff`, and on a line of at most 50 marks each holds 0 to 5 and sits in columns 0 to 10 |
| StayHome.LinePrefixSum | stayhomeslide.go:57-73 | the first `n` blocks of a line hold its first `5 * n` marks |
| StayHome.LinesPrefix | stayhomeslide.go:52-74 | the first `j` lines of a tally are a prefix of the whole, so line `j` sits right after the lines before it |
| StayHome.LinesBounded | stayhomeslide.go:52-74 | every block of a tally holds 0 to 5 marks, sits in columns 0 to 10 and is drawn as its size says |
| StayHome.LinesSum | stayhomeslide.go:52-74 | the first `n` lines of a tally hold its first `50 * n` marks |
| StayHome.TallyShape | stayhomeslide.go:52-74 | a whole tally holds exactly the count's marks, each block 0 to 5 marks in columns 0 to 10 |
| StayHome.TallyLine | stayhomeslide.go:57-73 | for a non-negative `lineDiff`, the blocks are `LineBlocks(j, lineDiff)`: `lineDiff / 5 + 1` of them, block `k` at column `k` holding `Min(5, lineDiff - 5 * k)` marks, together exactly `lineDiff` (a full line of 50 marks has eleven blocks, the last one empty); every block, on any input, lies on line `j` with up to four strokes and a diagonal only when full |
| StayHome.Tally | stayhomeslide.go:52-74 | for a non-negative count the blocks are `Lines(diff, diff / 50 + 1)`, line `j` holding `Min(50, diff - 50 * j)` marks, and together exactly `diff` marks, each block 0 to 5 marks in columns 0 to 10 |
| StayHome.Draw | stayhomeslide.go:44-90 | tally marks laid out line by line as `Lines` of the day count and summing to it, or the count as a number, then "DAYS SINCE" and "OFFICES CLOSED" |
| Engagement.Bounce | engagementslide.go:59-67 | a coordinate steps by its direction, and the direction turns around exactly when the new position is at or past either edge |
| Engagement.BounceStaysInside | engagementslide.go:56-67 | with at least one column of room, a coordinate inside its range and heading away from any edge it touches stays so after a step |
| Engagement.EngagementSlide.constructor | engagementslide.go:18-23 | the banner starts at the origin heading down and right with the first colour, and fits on screen when it is narrower than the display |
| Engagement.EngagementSlide.Draw | engagementslide.go:45-72 | both coordinates bounce, the colour index advances cyclically through the six colours, the banner is written at the new position, and an on-screen banner stays on screen |
| Countdown.UpcomingMembers | countdownslide.go:44-50 | exactly the events dated today or later remain, and the list never grows |
| Countdown.UpcomingAppend | countdownslide.go:44-50 | the filter keeps the events' order: filtering a concatenation concatenates the filtered parts |
| Countdown.FilterEvents | countdownslide.go:44-50 | the loop keeps exactly the upcoming events, in order |
| Countdown.YVals | countdownslide.go:53-63 | one row per event for one to three events, four rows otherwise, strictly increasing down the screen |
| Countdown.Draw | countdownslide.go:42-76 | the first four upcoming events, each on its row with its non-negative day count as text, its label and its colour |

## Left out

- Goroutines and tickers (the advance ticker, the fetch loops, `StartDraw`/`StopDraw` drawing tickers): each tick is an explicit method call (`Slideshow.Slideshow.Tick`, `HttpSlide.HttpHelper.Fetch`), and the unsynchronised field writes between goroutines are not modelled.
- `Slide` as an interface: each slide is a `Slideshow.Slide` object with an `enabled` flag standing for its `IsEnabled` answer, and its hooks are recorded in a ghost trace instead of running slide code.
- Slideshow.Slideshow.Advance: the scan is bounded to one cycle of `len(Slides)` probes and reports failure when no slide is enabled, where the Go loop would spin forever (slideshow.go:70).
- `WaitForConnection`, `ConnectionPresent` and `SyncTime` (network probing and process execution) are not modelled; `WaitForReadiness` keeps only the initialisation order.
- `ListenAndServe` and the response texts in controller.go are not modelled: the model returns the status code and the state change; the `/shutdown` channel send is modelled as setting `ShutdownRequested`, without the blocking of an unbuffered channel.
- Debug file writes in both `Fetch` functions (httpslide.go:125-132, slide.go:54) are I/O and are left out.
- `time.Now`, the network, JSON, CSV, RFC 3339 and `civil` date parsing, `strconv.Atoi` and `strconv.ParseFloat` are parameters or `Option` inputs; Atoi's range limit and ParseFloat's rounding are therefore not modelled.
- `time.Format` output such as "3:04 PM" and weekday names are not modelled beyond the choice of which text is shown.
- HttpSlide.BuildRequest: the request is a value holding the method and URL. The flight and weather slides' own request callbacks (headers, authentication, URL formatting) are not modelled.
- Weather.IconKey: the PNG icons and their base64 decoding in weatherslide.go's `GetIcon` are not modelled; the model returns the icon key that would be decoded.
- The weather icon regular expression is modelled for ASCII input only; Go's regexp engine on other input is not.
- Vaccination.Upper: `strings.ToUpper` is modelled for ASCII letters only.
- Floating point: firework physics (newyearslide.go:87-175), `FormatNumber` (covidslide.go:187-201) and `LastFetchSuccessRatio`, which is modelled as the pair of counts it divides; before the first fetch the ratio is Go's zero value 0.0, which shows the error, and every fetch attempts at least two days, so the division never sees zero.
- Weather.WeatherSlide.ParseObservations: the `float64` temperature reading is modelled as an exact real, so the rounding of `C + 32.0` to a double before `int(...)` truncates it (weatherslide.go:176) is not captured; near a whole number the model can read one degree lower or higher than Go (a reading of -2^-60 °C shows 32 in Go and 31 here, 0.9999999999999999 °C shows 33 in Go and 32 here).
- Day counts taken with `math.Ceil` on float hours are modelled as integer ceiling division.
- `Duration.Round` saturation at the extremes of int64 is not modelled.
- The pixel layout of covid, mbta and vaccination `Draw` (data rows, graphs, line colour boxes, destination truncation), the sort of predictions by earliest time, and the individual strokes of a stay-home tally (`DrawVertLine`, `DrawHorizLine`) are not modelled; the model keeps which rows, limits and counts are drawn.
- Engagement: the banner's horizontal limit is computed once from the banner width rather than by measuring text on every frame.
- The `DEBUG_DRAW` outline box is not modelled: the definition of that flag is not part of this model.
- The countdown, engagement, covid, vaccination, mbta and weather slides' `IsEnabled` always answer true and carry no logic to model.
- drawing.go's `ColorFromHex` (drawing.go:120-131) is the same decoding as surface.go's and is modelled once, as Surface.ColorFromHex.
- Covid.CovidSlide.QueryForDate: requires every data row of a report to have at least eight columns (`WellFormed`), and so do `QueryDay`, `QueryDays` and `FetchData` for every report they may read. Go indexes `row[7]`, `row[3]` and `row[2]` without a width check (covidslide.go:153-167); `csv.Reader` gives every row the header's width, so a report whose header has fewer than eight columns panics on its first data row. That panic path is not modelled.
- Covid: the `Diffs` map shared between copies of a `DailyData` value (Go map aliasing) is modelled as a value.
- The weather, MBTA and vaccination slides' `Initialize` (`StartLoop`) and `Terminate` (`StopLoop`), and covid's `Initialize` (`FetchData` then a ticker) and `Terminate`, are not modelled as methods of those slides. `StartLoop`'s first fetch runs the slide's parser synchronously; only `Flight.FlightSlide.Initialize` composes that fetch with its slide's `Parse`.
- HttpSlide.HttpHelper.Fetch: the configured parse callback is reduced to its verdict on a body, so a periodic fetch records success or failure but its effect on the slide (predictions, series, display data, the flight slide's `StopLoop`) is not linked to it; each slide's `Parse` models that effect on its own.
- Hardware and UI files (leddisplay.go, webdisplay.go, public_html/main.js), the image rendering in savetofiledisplay.go, and the wiring or rendering-only files (main.go, config.go, display.go, timeslide.go, welcomeslide.go, glyphtestslide.go, coronavirusslide.go, icons/weather/generateicons.go) are not part of this model.
- Controller.Controller.ServeHTTP: an accepted `/start` requires a non-empty slide list, because Go's `Advance` takes `% len(s.Slides)` (slideshow.go:63) and panics on zero slides; an accepted `/unfreeze` requires a current slide, because before the first start `CurrentSlide` is a nil interface and `StopDraw` on it (slideshow.go:59-60) panics after `Frozen` has been cleared, a panic net/http recovers from. Neither panic path is modelled.
- Icons.IconSet.RegisterIcon: requires `InitIcons` to have made the map, because Go writes into a nil map before then and panics; that panic path is not modelled.
- Christmas.GetRandomWithinTree: the random draws are a parameter sequence, and the model returns the first accepted draw or nothing when the sequence runs out, where Go keeps drawing.

## Findings

| source | as written | input that shows it | evidently intended | confidence | as-written member | corrected member |
|---|---|---|---|---|---|---|
| covidslide.go:103-108 | the failure warning is guarded by `attempted < successful`, which can never hold because every success is an attempt | a fetch in which every queried report fails: at least two days attempted and none read, and nothing is logged | warn when `successful < attempted` | not executed | Covid.FailureNeverLogged | Covid.FailureLoggedIff |
| weatherslide.go:175-176 | the Celsius to Fahrenheit factor `9 / 5` is integer constant division and equals 1 | 100 °C gives 132 | multiply by 1.8, so 100 °C gives 212 | not executed | Weather.BoilingAsWritten | Weather.FahrenheitProperties |
