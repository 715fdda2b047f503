# Dispatch control and geofence analysis, modelled in Dafny

The dashboard checks urban bus services against their schedule. Each bus
passes a fixed list of control points on its route. A control point is a
circle called a geofence.

The model covers three screens.

**Geofence analyser (`src/app/geocercas/page.tsx`), module `Geocercas`.**
- The GPS trace is read two points at a time. Each pair is classified as an
  entry, an exit, a near-zone pass or a pass-through of the geofence.
- The radius grows through 10, 20 … 500 m until a zone yields a detection.
  The best detection is the one with the smallest mean distance; ties go to
  the better kind.
- Each detection is stamped with its expected arrival. That time is the
  start time plus the scheduled minutes for the control, read from a
  per-route table that depends on the departure time.
- The detections are grouped per geofence per vehicle. They are then turned
  into the "late or early" records sent to the dispatch service.

**Offline GPS analyser (`src/app/dashboard/controlDespacho/DataOffLineGps.tsx`), module `OfflineGps`.**
- Every single point inside a zone is an entry. The search radius is the
  first one that captures the most points, and the search stops early at
  20 m once two points are captured.
- The arrival time of a record is moved back by a number of seconds that
  depends on the radius used.
- "Late or early" is written as `-1h 2min 3seg`.

**Dispatch table (`src/app/dashboard/controlDespacho/page.tsx`), module `ControlDespacho`.**
- Turns the dispatches of a date into table rows: three base cells, one
  (expected, arrival, late-by) triple per control, then the driver.
- Each reported "late-by" text is normalised to a signed integer.
- Rows are sorted by assignment code, descending, and filtered by a search
  text.
- A row total adds the positive late-by values. It is shown on screen and
  written to the Excel export.

**Shared modules.**
- `Fleet`: the records the screens share, plus the record-building loop of
  the send step as a generic method.
- `Clock`: `timeToSeconds`, `calculateEndTime` and the hour/minute/second
  text with its reader.
- `Schedule`: the per-route minute tables (contiguous time ranges).
- `Text`: the JavaScript string and number operations the code uses
  (`split`, `trim`, ASCII case mapping, `includes`, `/^[+-]?\d+/`,
  `parseInt`, `padStart`).
- `Wrappers`: `Option` and `Result`.

**How the source is turned into Dafny.**
- Loops that build arrays become methods with `while`/`for` loops. Each such
  method is proved equal to a specification function, and the properties
  are lemmas about those functions.
- Geometry (haversine distance, distance to a segment) is an uninterpreted
  `Geometry` value passed in. Every lemma holds for all geometries.
- What the server returns is a `FetchOutcome` parameter: an HTTP failure
  status, a thrown error, or the list of points.
- JavaScript `NaN` from `Number()` of a non-numeric field is `None`. Where
  it reaches a string it is written out as `"NaN"`, as the source prints it.
- On a timestamp with no space, `timestamp.split(" ")[1]` is `undefined`.
  The `TypeError` comes from the next `.split(":")` on that `undefined`.
  In src/app/geocercas/page.tsx it is raised inside `timeToSeconds`
  (line 344), which is reached from line 958. In
  src/app/dashboard/controlDespacho/DataOffLineGps.tsx it is raised inside
  `adjustTimeForLargeRadius` (line 244), which is reached from lines
  789-792. When the radius is unknown, that function returns early and the
  error is raised inside `timeToSeconds` (line 266) instead. Either way,
  the page catches it, and the model returns it as the send step's
  `MissingArrivalTime` error.

Two properties cross the files:
- The offline screen's late-by texts go into the dispatch table, and
  `ControlDespacho.OfflineVoladoNormalised` shows what the table makes of
  them. Under a minute it shows `+0`. Under an hour it shows the signed
  minutes. From an hour on it shows the signed hours, because the leading
  integer of `1h 5min 0seg` is `1`.
- On-screen and in the Excel export, the row total is computed in two
  slightly different ways. `ControlDespacho.TotalsAgree` proves that both
  give the same number.

## Model

| member | source | states |
|---|---|---|
| Text.Digits | src/app/geocercas/page.tsx:364-370 | a number's decimal text is non-empty digits, one digit exactly below ten, no leading zero |
| Text.DecimalValueOfDigits | src/app/geocercas/page.tsx:343-349 | reading a number's decimal text (`Number`) gives the number back |
| Text.DigitsInjective | src/app/geocercas/page.tsx:364-370 | different numbers have different decimal texts |
| Text.Pad2 | src/app/geocercas/page.tsx:380 | `padStart(2, "0")` reads back as the number and has two digits below 100 |
| Text.IndexOf | src/app/geocercas/page.tsx:344 | the first position of the separator in the text |
| Text.Split | src/app/geocercas/page.tsx:344 | `split` yields at least one part and no part holds the separator |
| Text.JoinSplit | src/app/geocercas/page.tsx:344 | joining the parts of a split with the separator gives the text back |
| Text.SplitJoin | src/app/geocercas/page.tsx:344 | splitting separator-free parts joined by the separator gives the parts back |
| Text.SplitTwo | src/app/geocercas/page.tsx:376 | "a:b" with separator-free a, b splits into exactly [a, b] |
| Text.SplitThree | src/app/geocercas/page.tsx:344 | "a:b:c" splits into exactly [a, b, c] |
| Text.DigitRun | src/app/dashboard/controlDespacho/page.tsx:268 | the leading run of digits: all digits, followed by a non-digit or the end |
| Text.ContainsAt | src/app/dashboard/controlDespacho/page.tsx:266 | text containing the pattern at some position `includes` it |
| Text.NotContainsWithout | src/app/dashboard/controlDespacho/page.tsx:266 | text that lacks the pattern's first character does not `includes` it |
| Text.DigitRunAll | src/app/dashboard/controlDespacho/page.tsx:268 | on a digits-only text the leading run of digits is the whole text |
| Text.ParseIntOfDigits | src/app/dashboard/controlDespacho/page.tsx:145-146 | `parseInt` of an optionally signed decimal text gives the signed number |
| Clock.NumberOfPad2 | src/app/geocercas/page.tsx:344 | `Number` of a zero-padded field is the field's value |
| Clock.TimeToSecondsOfClock | src/app/geocercas/page.tsx:343-349 | `timeToSeconds` of "HH:MM:SS" is h·3600 + m·60 + s |
| Clock.TimeToSecondsOfHoursMinutes | src/app/geocercas/page.tsx:343-349 | `timeToSeconds` of "HH:MM" counts the missing seconds as zero |
| Clock.MissingFieldsAreZero | src/app/geocercas/page.tsx:345-347 | empty and missing fields count as zero (`parts[i] \|\| 0`) |
| Clock.ToHms | src/app/geocercas/page.tsx:358-360 | hours, minutes below 60 and seconds below 60 that add back up to the total |
| Clock.ReadTokenOfDigits | src/app/dashboard/controlDespacho/DataOffLineGps.tsx:284-293 | a field written as digits plus unit reads back as its number |
| Clock.ReadThreeTokens | src/app/dashboard/controlDespacho/DataOffLineGps.tsx:284-285 | an hours-minutes-seconds text reads back as h·3600 + m·60 + s |
| Clock.ReadTwoTokens | src/app/dashboard/controlDespacho/DataOffLineGps.tsx:286-287 | a minutes-seconds text reads back as m·60 + s |
| Clock.ReadOneToken | src/app/dashboard/controlDespacho/DataOffLineGps.tsx:288-289 | a seconds-only text reads back as its seconds |
| Clock.ReadHmsTextRoundTrip | src/app/dashboard/controlDespacho/DataOffLineGps.tsx:280-293 | the duration text for any number of seconds reads back as that number |
| Clock.ClockFieldsOfPadded | src/app/geocercas/page.tsx:376 | `split(":").map(Number)` of "HH:MM" gives back h and m |
| Clock.EndTimeReadsBack | src/app/geocercas/page.tsx:375-381 | the end time is "HH:MM" whose minutes are below 60 and whose total minutes are the start's plus those added |
| Clock.ClockFieldsOfMinutesText | src/app/geocercas/page.tsx:376-380 | the clock text written for a minute count reads back as its hours and minutes |
| Clock.NaNEndTime | src/app/geocercas/page.tsx:376-380 | an unreadable start gives "NaN:NaN" |
| Schedule.Lookup | src/app/geocercas/page.tsx:155-164 | the minutes of the first range holding the time, or the fallback when none does |
| Schedule.ChainFromRows | src/app/geocercas/page.tsx:117-157 | a chained table has well-formed ranges of the same width, each ending one second before the next starts |
| Schedule.ChainShape | src/app/geocercas/page.tsx:117-157 | a chained table is contiguous and of uniform width |
| Schedule.EndsBefore | src/app/geocercas/page.tsx:117-157 | in a contiguous table an earlier range ends before a later one starts |
| Schedule.LookupInRow | src/app/geocercas/page.tsx:155-164 | a time inside one range is in no other, and the lookup returns that range's minutes |
| Schedule.LookupOutside | src/app/geocercas/page.tsx:155-164 | a time before the first or after the last range gets the fallback |
| Schedule.CoveredFrom | src/app/geocercas/page.tsx:117-157 | a contiguous table leaves no gap between its first and last times |
| Schedule.LookupCovered | src/app/geocercas/page.tsx:155-164 | every time between the first start and the last end lies in some range, whose minutes are returned |
| Schedule.LookupWidth | src/app/geocercas/page.tsx:155-164 | the lookup has the width of the table's rows |
| Schedule.FirstHolding | src/app/geocercas/page.tsx:155-164 | the first range holding the time |
| Geocercas.GetDynamicMinutesForRoute5 | src/app/geocercas/page.tsx:108-165 | the route-5 table gives seven minute offsets for any start |
| Geocercas.GetDynamicMinutesForRoute6 | src/app/geocercas/page.tsx:168-339 | the route-6 table gives seven minute offsets for any start |
| Geocercas.Route5Shape | src/app/geocercas/page.tsx:117-164 | the route-5 ranges are contiguous rows of seven and the fallback is the last row |
| Geocercas.Route6Shape | src/app/geocercas/page.tsx:177-338 | the route-6 ranges are contiguous rows of seven and the fallback is the last row |
| Geocercas.Route5Lookup | src/app/geocercas/page.tsx:108-165 | a start in a range gets that range's row; one before 6:00:00 or after 6:43:59 gets the fallback |
| Geocercas.Route6Lookup | src/app/geocercas/page.tsx:168-339 | a start in a range gets that range's row; one before 4:55:00 or after 7:25:59 gets the fallback |
| Geocercas.MinutesForStart | src/app/geocercas/page.tsx:813-818 | the minute offsets for the route and start time have seven entries; MinutesForStartRow and MinutesForUnreadableStart say which row |
| Geocercas.MinutesForStartRow | src/app/geocercas/page.tsx:813-818 | a readable start "H:M" gets the row of the range holding H:M:00, from the route-5 table for route "5" and the route-6 table otherwise, or that table's fallback when no range holds it |
| Geocercas.MinutesForUnreadableStart | src/app/geocercas/page.tsx:813-818 | a start whose hours or minutes are `NaN` gets the route's fallback row |
| Geocercas.CalculateTimeDifference | src/app/geocercas/page.tsx:342-373 | the text starts with "+" exactly when the end is not before the start, and with "-" exactly when it is before; it reads back as end minus start in seconds |
| Geocercas.SignedDifferenceRoundTrip | src/app/geocercas/page.tsx:356-372 | the text of any signed number of seconds reads back as that number |
| Geocercas.EqualTimesGivePlusZero | src/app/geocercas/page.tsx:362-372 | a time compared with itself gives "+0s" |
| Geocercas.GetGeofencesByRoute | src/app/geocercas/page.tsx:402-527 | route "6" gets the route-6 geofences and every other route the route-5 ones |
| Geocercas.RouteGeofencesShape | src/app/geocercas/page.tsx:402-527 | seven active geofences numbered 1 to 7, each of radius 10 |
| Geocercas.PairClassification | src/app/geocercas/page.tsx:652-701 | a pair is an entry, exit, near-zone or pass-through exactly in the cases the distances say, and nothing otherwise |
| Geocercas.PairDetectionFields | src/app/geocercas/page.tsx:657-701 | the detection carries the pair, the rounded distances, the second point's timestamp and medium confidence exactly for a pass-through |
| Geocercas.OptionToSeq | src/app/geocercas/page.tsx:657-701 | at most one pushed detection per pair |
| Geocercas.PairsBefore | src/app/geocercas/page.tsx:648-706 | the pairs before position i push at most i detections |
| Geocercas.TrajectoryDetections | src/app/geocercas/page.tsx:645-710 | no detection for a trace of at most one point, and at most one per consecutive pair otherwise |
| Geocercas.AnalyzeTrajectoryIntersection | src/app/geocercas/page.tsx:645-710 | the loop over the pairs returns the specified detections |
| Geocercas.PairsBeforePrefix | src/app/geocercas/page.tsx:648-706 | the detections of fewer pairs are a prefix of those of more pairs |
| Geocercas.PairsBeforeMembers | src/app/geocercas/page.tsx:648-706 | a detection is pushed before position i exactly when some earlier pair produces it |
| Geocercas.TrajectoryMembers | src/app/geocercas/page.tsx:645-710 | a detection is returned exactly when some consecutive pair of the trace produces it |
| Geocercas.BestIndexUpTo | src/app/geocercas/page.tsx:719-736 | the index the scan keeps is one already scanned |
| Geocercas.BestDetection | src/app/geocercas/page.tsx:712-739 | nothing exactly for no detections, otherwise one of them |
| Geocercas.GetBestDetection | src/app/geocercas/page.tsx:712-739 | the scan returns the specified best detection |
| Geocercas.BestIndexIsBest | src/app/geocercas/page.tsx:719-736 | the kept detection has the smallest mean distance, the best kind among those, and comes first among equals |
| Geocercas.BestIsUnique | src/app/geocercas/page.tsx:719-736 | only one index is best in that sense |
| Geocercas.BestTies | src/app/geocercas/page.tsx:719-736 | two best indices have equal mean distance and equal kind score |
| Geocercas.BestDetectionChoice | src/app/geocercas/page.tsx:712-739 | for a non-empty list the result is the detection at the best index |
| Geocercas.AnalyzeWithAdaptiveRadius | src/app/geocercas/page.tsx:742-762 | the loop over the radii returns the specified result |
| Geocercas.AdaptiveSmallestStep | src/app/geocercas/page.tsx:745-761 | a detection comes from the first radius with any detection, once tagged with that radius; none means no radius had one and the radius reported is 10 |
| Geocercas.AdaptiveTagging | src/app/geocercas/page.tsx:750-757 | the detection carries the widened geofence and its radius, has no end time and is stamped at one of the trace's points |
| Geocercas.TrajectoryEndTimes | src/app/geocercas/page.tsx:645-710 | every detection of a pair has no end time, the geofence as given, and the timestamp of a trace point |
| Geocercas.SearchResults | src/app/geocercas/page.tsx:802-807 | one search result per geofence; SearchesNumbered and CollectMembers give the content |
| Geocercas.Collect | src/app/geocercas/page.tsx:802-807 | the found detections, at most one per geofence; CollectMembers, CollectIncreasing and CollectRepresented give membership and order |
| Geocercas.DetectAcrossGeofences | src/app/geocercas/page.tsx:802-807 | the `forEach` over the geofences collects the specified detections |
| Geocercas.AnalyzeVehicle | src/app/geocercas/page.tsx:763-851 | the analysis of one vehicle is the specified result |
| Geocercas.CollectMembers | src/app/geocercas/page.tsx:802-807 | each collected detection is the one found for its own geofence |
| Geocercas.CollectIncreasing | src/app/geocercas/page.tsx:802-807 | collected detections follow the route order, with strictly increasing geofence ids |
| Geocercas.CollectRepresented | src/app/geocercas/page.tsx:802-807 | a geofence appears among the detections exactly when its search found one |
| Geocercas.SearchesNumbered | src/app/geocercas/page.tsx:802-807 | the search for the i-th geofence reports geofence i + 1 |
| Geocercas.AnalyzeVehicleStatus | src/app/geocercas/page.tsx:776-850 | error exactly when the fetch failed (with "HTTP status" or the message), not detected for no points, detected exactly when there are detections, point count as received |
| Geocercas.AnalyzeVehicleDetections | src/app/geocercas/page.tsx:802-833 | the detections are the found ones in route order, each with the end time of its own control |
| Geocercas.CollectAnalysis | src/app/geocercas/page.tsx:810-833 | stamping end times on the collected detections keeps their order and source |
| Geocercas.EndTimesNumbered | src/app/geocercas/page.tsx:821-832 | each stamped detection keeps its geofence, was found for it, and expects start plus that control's minutes |
| Geocercas.FindResult | src/app/geocercas/page.tsx:897 | the first result of the vehicle, or nothing exactly when there is none |
| Geocercas.FindDetection | src/app/geocercas/page.tsx:898 | the first detection at the geofence, or nothing exactly when there is none |
| Geocercas.GroupResultsByGeofence | src/app/geocercas/page.tsx:893-909 | one group per geofence, with one entry per scheduled vehicle in schedule order |
| Geocercas.GroupStatus | src/app/geocercas/page.tsx:896-905 | detected exactly when the vehicle's result has a detection at the geofence; error exactly when it has none and the analysis failed; not detected otherwise |
| Geocercas.EntryErrorMeansFailedAnalysis | src/app/geocercas/page.tsx:896-905 | when failed analyses carry no detections, an entry is an error exactly when its vehicle's analysis failed |
| Geocercas.AnalyzedTimestamps | src/app/geocercas/page.tsx:763-851 | every detection is stamped with the date and time of a received point and belongs to the vehicle |
| Geocercas.SendDataToApi | src/app/geocercas/page.tsx:935-961 | the records built are the specified ones, or why nothing is posted |
| Geocercas.RecordOfStamped | src/app/geocercas/page.tsx:950-958 | the record of a stamped detection arrives at its point's time, and its volado is the difference text of its expected and arrival times |
| Geocercas.ApiDataOfStampedDetections | src/app/geocercas/page.tsx:946-961 | with every detection stamped, the send posts one record per detection |
| Geocercas.AnalyzeBatch | src/app/geocercas/page.tsx:868-873 | one analysis per scheduled vehicle, in schedule order |
| Geocercas.ApiDataOfAnalyses | src/app/geocercas/page.tsx:935-961 | when no point's date or time holds a space, the analyses of a batch always post, one record per detection |
| Fleet.Round | src/app/geocercas/page.tsx:662-663 | `Math.round` is within half a unit of its argument |
| Fleet.ArrivalOfTimestamp | src/app/geocercas/page.tsx:957 | the time part of "date time" is the point's time |
| Fleet.NoArrivalWithoutSpace | src/app/geocercas/page.tsx:957 | a timestamp without a space has no time part |
| Fleet.FindGeofenceIndex | src/app/geocercas/page.tsx:823 | `findIndex`: the first geofence with the id, or -1 exactly when none has it |
| Fleet.FindInNumbered | src/app/geocercas/page.tsx:823 | in geofences numbered from 1, id i + 1 is at index i |
| Fleet.WithEndTimes | src/app/geocercas/page.tsx:821-832 | stamping end times keeps the number of detections; AssignEndTimeNumbered gives each detection's end time |
| Fleet.AssignEndTimeNumbered | src/app/geocercas/page.tsx:825-827 | a detection of geofence i expects start plus the minutes of control i |
| Fleet.WithDetections | src/app/geocercas/page.tsx:947 | the results kept are exactly those with at least one detection |
| Fleet.PairsOfFiltered | src/app/geocercas/page.tsx:947-949 | dropping results with no detections leaves the (result, detection) pairs unchanged |
| Fleet.PairsCount | src/app/geocercas/page.tsx:949-958 | there are as many pairs as detections |
| Fleet.PairsBelong | src/app/geocercas/page.tsx:949-958 | each pair is a result together with one of its own detections |
| Fleet.PairsStep | src/app/geocercas/page.tsx:949-958 | one more result appends exactly its detections, in order |
| Fleet.PairsPrefix | src/app/geocercas/page.tsx:949-958 | the pairs of the first n results are a prefix of all pairs |
| Fleet.SetEndTimes | src/app/geocercas/page.tsx:821-832 | the `forEach` stamping end times returns the specified detections |
| Fleet.Built | src/app/geocercas/page.tsx:949-958 | one record per pair |
| Fleet.Posted | src/app/geocercas/page.tsx:935-961 | nothing to send exactly for no results, an error exactly when some record cannot be built, otherwise one record per pair in order |
| Fleet.PostedWhenAllBuilt | src/app/geocercas/page.tsx:935-961 | when every record can be built the send succeeds with one record per detection |
| Fleet.RecordsMatchPush | src/app/geocercas/page.tsx:951 | pushing the next pair's record keeps the records matching the pairs |
| Fleet.RecordsMatchAll | src/app/geocercas/page.tsx:946-958 | records matching every pair are exactly the built records |
| Fleet.PushRecords | src/app/geocercas/page.tsx:949-958 | the inner `forEach` pushes the records of one result's detections or reports a record that cannot be built |
| Fleet.BuildRecords | src/app/geocercas/page.tsx:946-959 | the nested `forEach` succeeds exactly when every record can be built, and then yields the built records |
| Fleet.SendRecords | src/app/geocercas/page.tsx:935-961 | the send step returns the specified outcome |
| OfflineGps.GetDynamicMinutesForRoute25 | src/app/dashboard/controlDespacho/DataOffLineGps.tsx:127-205 | the route-25 table gives eight minute offsets for any start |
| OfflineGps.Route25Shape | src/app/dashboard/controlDespacho/DataOffLineGps.tsx:134-195 | twelve contiguous five-minute ranges from 5:00:00, each a row of eight |
| OfflineGps.Route25Lookup | src/app/dashboard/controlDespacho/DataOffLineGps.tsx:127-205 | a start between 5:00:00 and 5:59:59 gets the row of its five-minute slot; any other start gets the fallback |
| OfflineGps.MinutesForStart | src/app/dashboard/controlDespacho/DataOffLineGps.tsx:687-694 | the minute offsets for a start time have eight entries; MinutesForStartRow and MinutesForUnreadableStart say which row |
| OfflineGps.MinutesForStartRow | src/app/dashboard/controlDespacho/DataOffLineGps.tsx:687-694 | a readable start "H:M" gets the route-25 row of the range holding H:M:00, the row of its five-minute slot when the hour is 5, or the fallback when no range holds it |
| OfflineGps.MinutesForUnreadableStart | src/app/dashboard/controlDespacho/DataOffLineGps.tsx:687-694 | a start whose hours or minutes are `NaN` gets the fallback row |
| OfflineGps.AdjustTimeForLargeRadius | src/app/dashboard/controlDespacho/DataOffLineGps.tsx:207-259 | the adjusted arrival time is the specified one |
| OfflineGps.HmsFieldsOfClockText | src/app/dashboard/controlDespacho/DataOffLineGps.tsx:252-258 | the "HH:MM:SS" text of a number of seconds reads back as that number |
| OfflineGps.AdjustedTimeValue | src/app/dashboard/controlDespacho/DataOffLineGps.tsx:207-259 | an unknown radius leaves the time alone; an unreadable time gives "NaN:NaN:NaN"; otherwise the time less the radius' seconds, not before midnight |
| OfflineGps.TimeDifference | src/app/dashboard/controlDespacho/DataOffLineGps.tsx:261-294 | the text starts with "-" exactly when the end is before the start; it reads back as end minus start in seconds |
| OfflineGps.DifferenceText | src/app/dashboard/controlDespacho/DataOffLineGps.tsx:276-293 | the text starts with "-" exactly for a negative difference |
| OfflineGps.HmsTextStartsWithDigit | src/app/dashboard/controlDespacho/DataOffLineGps.tsx:284-293 | the duration text starts with a digit |
| OfflineGps.DifferenceTextRoundTrip | src/app/dashboard/controlDespacho/DataOffLineGps.tsx:276-293 | the text of any signed difference reads back as that difference |
| OfflineGps.HmsTextTokens | src/app/dashboard/controlDespacho/DataOffLineGps.tsx:284-293 | the duration text ends in "seg", mentions "min" from a minute on, and is "Nseg" below a minute |
| OfflineGps.HoursTokens | src/app/dashboard/controlDespacho/DataOffLineGps.tsx:284-285 | with hours the text ends in "seg" and mentions "min" |
| OfflineGps.MinutesTokens | src/app/dashboard/controlDespacho/DataOffLineGps.tsx:286-287 | with minutes but no hours the text ends in "seg" and mentions "min" |
| OfflineGps.TimeDifferenceFormat | src/app/dashboard/controlDespacho/DataOffLineGps.tsx:261-294 | ends in "seg"; mentions "min" exactly when the times differ by a minute or more; equal times give "0seg" |
| OfflineGps.DifferenceTextFormat | src/app/dashboard/controlDespacho/DataOffLineGps.tsx:276-293 | ends in "seg"; mentions "min" exactly from a minute either way; zero gives "0seg" |
| OfflineGps.SignedText | src/app/dashboard/controlDespacho/DataOffLineGps.tsx:291-293 | the sign in front keeps the "seg" ending and the mention of "min" |
| OfflineGps.RouteGeofencesShape | src/app/dashboard/controlDespacho/DataOffLineGps.tsx:337-409 | every route gets the same eight geofences, numbered 1 to 8 |
| OfflineGps.InsideUpTo | src/app/dashboard/controlDespacho/DataOffLineGps.tsx:521-560 | the first i points push at most i entries |
| OfflineGps.InsideDetections | src/app/dashboard/controlDespacho/DataOffLineGps.tsx:506-566 | at most one entry per point; InsideInOrder, InsideMembers and InsideFields give the content |
| OfflineGps.AnalyzeTrajectoryIntersection | src/app/dashboard/controlDespacho/DataOffLineGps.tsx:506-566 | the loop over the points returns the specified entries |
| OfflineGps.InsideIndices | src/app/dashboard/controlDespacho/DataOffLineGps.tsx:521-560 | the positions of exactly the points inside the zone, in increasing order |
| OfflineGps.InsideInOrder | src/app/dashboard/controlDespacho/DataOffLineGps.tsx:521-560 | the k-th entry is the entry at the k-th point inside the zone |
| OfflineGps.InsideMembers | src/app/dashboard/controlDespacho/DataOffLineGps.tsx:506-566 | a detection is returned exactly when it is the entry at some point inside the zone |
| OfflineGps.InsideFields | src/app/dashboard/controlDespacho/DataOffLineGps.tsx:547-557 | every entry is high-confidence, from and to one trace point inside the zone, with its rounded distance, timestamp, geofence and vehicle |
| OfflineGps.WiderKeepsPoints | src/app/dashboard/controlDespacho/DataOffLineGps.tsx:540 | a wider radius captures every point a narrower one does |
| OfflineGps.SubtractedForEverySearchRadius | src/app/dashboard/controlDespacho/DataOffLineGps.tsx:207-249 | the time correction knows exactly the radii of the search |
| OfflineGps.StepsTried | src/app/dashboard/controlDespacho/DataOffLineGps.tsx:584-605 | the search tries at most the ten radii |
| OfflineGps.TagAll | src/app/dashboard/controlDespacho/DataOffLineGps.tsx:609-613 | tagging keeps the number of detections; AdaptiveTagging states each tagged detection |
| OfflineGps.AnalyzeWithAdaptiveRadius | src/app/dashboard/controlDespacho/DataOffLineGps.tsx:568-630 | the loop with its early stop returns the specified outcome |
| OfflineGps.ChoiceIsFirstMaximum | src/app/dashboard/controlDespacho/DataOffLineGps.tsx:584-605 | the radius kept is the first with the most captured points among those tried; none captured means radius 10 |
| OfflineGps.AdaptiveFirstMaximum | src/app/dashboard/controlDespacho/DataOffLineGps.tsx:568-630 | the result is the first radius with the most points among those tried, or no detections at radius 10 |
| OfflineGps.AdaptiveEarlyStop | src/app/dashboard/controlDespacho/DataOffLineGps.tsx:602-605 | two or more points at 20 m stop the search at 10 or 20 m with the 20 m count |
| OfflineGps.AdaptiveCapturesWidest | src/app/dashboard/controlDespacho/DataOffLineGps.tsx:584-605 | the count returned is the count of the last radius tried |
| OfflineGps.AdaptiveTagging | src/app/dashboard/controlDespacho/DataOffLineGps.tsx:607-623 | every detection carries the widened geofence and its radius, no end time, and a trace point's timestamp |
| OfflineGps.DetectAcrossGeofences | src/app/dashboard/controlDespacho/DataOffLineGps.tsx:672-684 | the `forEach` over the geofences appends each one's detections in route order |
| OfflineGps.AnalyzeVehicle | src/app/dashboard/controlDespacho/DataOffLineGps.tsx:632-729 | the analysis of one vehicle is the specified result |
| OfflineGps.AnalyzeVehicleStatus | src/app/dashboard/controlDespacho/DataOffLineGps.tsx:647-728 | error exactly when the fetch failed, not detected for no points, detected exactly when there are detections, point count as received |
| OfflineGps.SpreadMembers | src/app/dashboard/controlDespacho/DataOffLineGps.tsx:672-684 | each collected detection comes from the search of its own geofence |
| OfflineGps.SpreadInRouteOrder | src/app/dashboard/controlDespacho/DataOffLineGps.tsx:672-684 | collected detections follow the route order |
| OfflineGps.EveryDetectionTimed | src/app/dashboard/controlDespacho/DataOffLineGps.tsx:686-706 | every detection is for controls 1 to 8, comes from its geofence's search and expects start plus that control's minutes |
| OfflineGps.AnalyzedTimestamps | src/app/dashboard/controlDespacho/DataOffLineGps.tsx:632-729 | every detection is stamped at a received point and belongs to the vehicle |
| OfflineGps.AnalyzeBatch | src/app/dashboard/controlDespacho/DataOffLineGps.tsx:745-757 | one analysis per scheduled vehicle, in schedule order |
| OfflineGps.SendDataToApi | src/app/dashboard/controlDespacho/DataOffLineGps.tsx:765-813 | the records built are the specified ones, or why nothing is posted |
| OfflineGps.RecordOfStamped | src/app/dashboard/controlDespacho/DataOffLineGps.tsx:788-810 | a stamped detection arrives at its adjusted time, and its volado is the difference text of its expected and adjusted arrival times |
| OfflineGps.PostedOfAnalyses | src/app/dashboard/controlDespacho/DataOffLineGps.tsx:765-813 | when no point's date or time holds a space, a batch always posts one record per detection |
| ControlDespacho.UpperOfUpper | src/app/dashboard/controlDespacho/page.tsx:257 | upper-casing twice is upper-casing once |
| ControlDespacho.RouteTables | src/app/dashboard/controlDespacho/page.tsx:9-57 | twelve headers, with the seven controls in columns 3 to 9 (exactly the subdivided ones) between the base headers and "Conductor", "Total" |
| ControlDespacho.NormaliseVolado | src/app/dashboard/controlDespacho/page.tsx:263-278 | "0", "+0", or the leading signed integer of the trimmed text |
| ControlDespacho.LeadingIntegerShape | src/app/dashboard/controlDespacho/page.tsx:268 | a match of `/^[+-]?\d+/` is a prefix made of an optional sign and digits, and matches itself |
| ControlDespacho.NormalisedIsInteger | src/app/dashboard/controlDespacho/page.tsx:263-278 | every normalised late-by is itself an integer text that `parseInt` reads |
| ControlDespacho.SignedDigitsParse | src/app/dashboard/controlDespacho/page.tsx:145 | `parseInt` reads any optionally signed digit text |
| ControlDespacho.ControlTriple | src/app/dashboard/controlDespacho/page.tsx:279-283 | the triple filed for a control: its expected time, its arrival time and its normalised late-by |
| ControlDespacho.InitialMap | src/app/dashboard/controlDespacho/page.tsx:255-258 | a blank triple under exactly the upper-cased controls |
| ControlDespacho.RowFor | src/app/dashboard/controlDespacho/page.tsx:252-294 | every row has eleven cells; RowShape and RowControls give their content |
| ControlDespacho.BuildRow | src/app/dashboard/controlDespacho/page.tsx:252-294 | the row built is the specified one |
| ControlDespacho.ControlValuesInOrder | src/app/dashboard/controlDespacho/page.tsx:287-291 | mapping the headers and dropping the non-control ones leaves the seven control triples in header order |
| ControlDespacho.FiledKeys | src/app/dashboard/controlDespacho/page.tsx:260-285 | filing the reported controls never adds a key |
| ControlDespacho.FiledLast | src/app/dashboard/controlDespacho/page.tsx:260-285 | a control never reported keeps its blank triple; otherwise it holds the triple of its last report |
| ControlDespacho.FiledPrefix | src/app/dashboard/controlDespacho/page.tsx:260-285 | later reports do not change what the earlier ones filed |
| ControlDespacho.InitialKeys | src/app/dashboard/controlDespacho/page.tsx:255-258 | the initial keys are exactly the route's controls |
| ControlDespacho.RowShape | src/app/dashboard/controlDespacho/page.tsx:252-294 | device, start and registration first; then each control's triple in route order; then the driver |
| ControlDespacho.RowSplit | src/app/dashboard/controlDespacho/page.tsx:253-293 | the row is the base cells, the control values and the driver |
| ControlDespacho.RowTriple | src/app/dashboard/controlDespacho/page.tsx:287-293 | cell 3 + k holds the filed triple of control k |
| ControlDespacho.RowControls | src/app/dashboard/controlDespacho/page.tsx:255-293 | cell 3 + k is blank when control k was never reported, and otherwise holds its last report |
| ControlDespacho.UnlistedControlIgnored | src/app/dashboard/controlDespacho/page.tsx:261-262 | a report without a name or for a control not on the route leaves the row unchanged |
| ControlDespacho.Rows | src/app/dashboard/controlDespacho/page.tsx:252-294 | one row per dispatch |
| ControlDespacho.BuildRows | src/app/dashboard/controlDespacho/page.tsx:252-294 | the `map` over the dispatches returns the specified rows |
| ControlDespacho.InsertByCodasig | src/app/dashboard/controlDespacho/page.tsx:250 | inserting adds the dispatch and keeps the rest |
| ControlDespacho.SortByCodasig | src/app/dashboard/controlDespacho/page.tsx:250 | sorting is a permutation |
| ControlDespacho.WithCodasigAppend | src/app/dashboard/controlDespacho/page.tsx:250 | the dispatches with a given code in a concatenation are those of each part |
| ControlDespacho.WithCodasigNone | src/app/dashboard/controlDespacho/page.tsx:250 | no dispatch has a code above the bound |
| ControlDespacho.InsertBounded | src/app/dashboard/controlDespacho/page.tsx:250 | inserting keeps every code under a shared bound |
| ControlDespacho.InsertDescending | src/app/dashboard/controlDespacho/page.tsx:250 | inserting into a descending list keeps it descending |
| ControlDespacho.InsertStable | src/app/dashboard/controlDespacho/page.tsx:250 | the inserted dispatch goes after those with the same code |
| ControlDespacho.SortDescending | src/app/dashboard/controlDespacho/page.tsx:250 | the sorted list is descending by code |
| ControlDespacho.SortStable | src/app/dashboard/controlDespacho/page.tsx:250 | sorting keeps the relative order of dispatches with equal codes |
| ControlDespacho.SortByCodasigIsStable | src/app/dashboard/controlDespacho/page.tsx:250 | `sort((a, b) => b.codasig - a.codasig)`: descending, a permutation, and stable |
| ControlDespacho.Contribution | src/app/dashboard/controlDespacho/page.tsx:543-548 | a late-by adds its `parseInt` value exactly when that value is positive and the text is not "+0" |
| ControlDespacho.DisplayedTotal | src/app/dashboard/controlDespacho/page.tsx:599 | the displayed total is "+" and its digits, and `parseInt` reads it back |
| ControlDespacho.TrimOfZero | src/app/dashboard/controlDespacho/page.tsx:142-143 | the default "0" is already trimmed |
| ControlDespacho.ContributionsAgree | src/app/dashboard/controlDespacho/page.tsx:142-147 | the export's default-then-trim and the screen's trim-then-default add the same amount |
| ControlDespacho.TotalsAgreeUpTo | src/app/dashboard/controlDespacho/page.tsx:140-157 | the two totals agree over every prefix of the row |
| ControlDespacho.TotalsAgree | src/app/dashboard/controlDespacho/page.tsx:537-550 | the on-screen total and the Excel total of a row are equal |
| ControlDespacho.FiledVoladoReadBack | src/app/dashboard/controlDespacho/page.tsx:142 | both totals read back exactly the late-by that was filed |
| ControlDespacho.NoEdgeSpaces | src/app/dashboard/controlDespacho/page.tsx:142 | an integer text is non-empty and trimming leaves it alone |
| ControlDespacho.FilteredRows | src/app/dashboard/controlDespacho/page.tsx:311-322 | filtering keeps at most the rows given; FilterInOrder gives which rows and their order |
| ControlDespacho.MatchingIndices | src/app/dashboard/controlDespacho/page.tsx:311-322 | the positions of exactly the matching rows, in order |
| ControlDespacho.FilterInOrder | src/app/dashboard/controlDespacho/page.tsx:311-322 | the filtered rows are exactly the matching rows, in their original order |
| ControlDespacho.EmptySearchMatches | src/app/dashboard/controlDespacho/page.tsx:317-318 | any text cell outside the control columns matches the empty search |
| ControlDespacho.EmptySearchKeeps | src/app/dashboard/controlDespacho/page.tsx:311-322 | an empty search keeps every row that starts with a text cell |
| ControlDespacho.EmptySearchKeepsRows | src/app/dashboard/controlDespacho/page.tsx:311-322 | an empty search keeps the whole table |
| ControlDespacho.RowStartsWithDevice | src/app/dashboard/controlDespacho/page.tsx:253 | a row starts with the device id |
| ControlDespacho.RowCell | src/app/dashboard/controlDespacho/page.tsx:287-293 | cell 3 + k is the triple of control k |
| ControlDespacho.RowTimes | src/app/dashboard/controlDespacho/page.tsx:99-113 | a row has control times exactly when some control has an expected or an arrival time that is not blank |
| ControlDespacho.TimesOfShapedRow | src/app/dashboard/controlDespacho/page.tsx:99-113 | for any row of that shape, times exist exactly when some triple has a non-blank time |
| ControlDespacho.NoControlsNoTimes | src/app/dashboard/controlDespacho/page.tsx:99-113 | a dispatch with no reported controls has no control times |
| ControlDespacho.FlattenPrefix | src/app/dashboard/controlDespacho/page.tsx:118-126 | the cells written for the first i columns are a prefix of the row |
| ControlDespacho.FlattenAt | src/app/dashboard/controlDespacho/page.tsx:118-126 | column i's cells sit at its offset in the row |
| ControlDespacho.SameOffsets | src/app/dashboard/controlDespacho/page.tsx:118-157 | columns of equal widths start at equal offsets |
| ControlDespacho.HeaderBlocks | src/app/dashboard/controlDespacho/page.tsx:118-126 | one block of header cells per column |
| ControlDespacho.ExportHeader | src/app/dashboard/controlDespacho/page.tsx:116-128 | the header row built is the one the source writes |
| ControlDespacho.CellBlocks | src/app/dashboard/controlDespacho/page.tsx:140-157 | one block of data cells per column |
| ControlDespacho.ExportRow | src/app/dashboard/controlDespacho/page.tsx:133-168 | the data row built, with its total, is the specified one |
| ControlDespacho.ExportSheet | src/app/dashboard/controlDespacho/page.tsx:116-171 | the sheet is the header row followed by one data row per filtered row |
| ControlDespacho.VisibleShape | src/app/dashboard/controlDespacho/page.tsx:134-135 | without the driver a row has ten cells: texts, then the seven triples |
| ControlDespacho.BlockWidths | src/app/dashboard/controlDespacho/page.tsx:118-157 | each column writes as many header cells as data cells |
| ControlDespacho.AlignedLayouts | src/app/dashboard/controlDespacho/page.tsx:118-157 | columns of equal widths line up cell for cell |
| ControlDespacho.ExcelColumnsAgree | src/app/dashboard/controlDespacho/page.tsx:118-168 | with one "Total" the header is as wide as every data row, and each header lines up with its data, driver and total included |
| ControlDespacho.HeaderLayout | src/app/dashboard/controlDespacho/page.tsx:118-126 | the header is the column blocks followed by "Conductor" and "Total" |
| ControlDespacho.RowLayout | src/app/dashboard/controlDespacho/page.tsx:133-166 | the data row is the column blocks followed by the driver and the total |
| ControlDespacho.ExcelHeaderTooWide | src/app/dashboard/controlDespacho/page.tsx:118-128 | as written, the header is one cell wider than every data row and ends "Total", "Total" |
| ControlDespacho.HmsTextHasNoCapitals | src/app/dashboard/controlDespacho/DataOffLineGps.tsx:284-293 | the offline duration text has no capital letters |
| ControlDespacho.LeadingOfDigits | src/app/dashboard/controlDespacho/page.tsx:268 | the leading integer of sign, digits and a non-digit is the sign and digits |
| ControlDespacho.TrimOfUnpadded | src/app/dashboard/controlDespacho/page.tsx:265 | trimming text with no space at either end leaves it alone |
| ControlDespacho.OfflineTextIsPlain | src/app/dashboard/controlDespacho/page.tsx:265-266 | the offline late-by text is non-empty, already trimmed and already lower case |
| ControlDespacho.OfflineSecondsOnly | src/app/dashboard/controlDespacho/page.tsx:266-271 | under a minute the offline text has no "m" and ends in "seg" |
| ControlDespacho.OfflineFirstUnit | src/app/dashboard/controlDespacho/page.tsx:266-268 | from a minute on the text mentions "m" and its leading integer is the signed minutes, or the signed hours from an hour |
| ControlDespacho.OfflineMentionsMinutes | src/app/dashboard/controlDespacho/page.tsx:266 | from a minute on the offline text contains "m" |
| ControlDespacho.LeadingOfMinutes | src/app/dashboard/controlDespacho/page.tsx:268 | between a minute and an hour, the leading integer is the signed minutes |
| ControlDespacho.LeadingOfHours | src/app/dashboard/controlDespacho/page.tsx:268 | from an hour on, the leading integer is the signed hours |
| ControlDespacho.OfflineVoladoNormalised | src/app/dashboard/controlDespacho/page.tsx:263-278 | an offline late-by becomes "+0" under a minute, the signed minutes under an hour, and the signed hours from an hour |
| ControlDespacho.OfflineVoladoContribution | src/app/dashboard/controlDespacho/page.tsx:543-548 | an offline late-by adds its whole hours from an hour late, its whole minutes from a minute late, and nothing otherwise |

## Left out

- Network I/O (`fetch` of schedules, GPS traces, dispatches and the POST of records) and JSON parsing: a fetch is the `FetchOutcome` parameter, and the send step stops at the list of records it would post.
- The analysis date in `src/app/geocercas/page.tsx` is a fixed constant inside the URL, and URLs are not modelled.
- Haversine distance and point-to-segment distance are floating point. They are the `Geometry` parameter, with `Math.round` modelled on reals as floor(x + 0.5).
- Floating-point rounding of `Math.round(distance * 10) / 10` is done on exact reals.
- Batching of three vehicles with `Promise.all` and the pauses between batches are not modelled. `AnalyzeBatch` gives the results in schedule order, which is the order `Promise.all` keeps.
- React state, rendering, toasts, console logging, the PDF export, and writing the XLSX file and the JSON summary download are not modelled. The Excel sheet is modelled as rows of text.
- `getTodayLocal` and the clock are not modelled.
- `src/app/dashboard/reporteVueltas/page.tsx` is not part of this model.
- `Number()` is modelled on decimal digit strings only. Any other text is `NaN` (`None`), including signs, spaces, decimals and hexadecimal.
- `toLowerCase` and `toUpperCase` fold ASCII letters only.
- JSON fields other than the optional ones of a control (`nom_control`, `hora_estimada`, `hora_llegada`, `volado`) are always present.
- GPS points are never `undefined`, so the `continue` on missing points never fires.
- A text cell in a control column of the search filter would make the source call `.some` on a string. The model treats it as no match, and rows built by the table never have one.
- The JavaScript `sort` is modelled by a stable insertion sort. The engine's algorithm is not modelled, only the order it must produce.
- A header missing from the map of controls gives an empty triple. This cannot happen, because every header in a control column is a control of the route.
- Keys such as `constructor` that a plain JavaScript object inherits are not modelled. The route's control names never collide with them.
- `ControlDespacho.ExportRow`: a negative total is written as text `"-n"` rather than as a number. Totals add only positive values, so that case never happens.
- `Geocercas.MinutesForStart`: for a route other than "5" and "6", the geofences are the route-5 ones but the minutes are route 6's. The page fixes its route at "6", so this mismatch is never reached.
- Clock.EndTimeReadsBack: `calculateEndTime` is stated by what its result reads back as. Adding minutes in two steps versus one is not stated as an equation on texts.

## Findings

| source | as written | input that shows it | evidently intended | confidence | as-written member | corrected member |
|---|---|---|---|---|---|---|
| src/app/dashboard/controlDespacho/page.tsx:118-128 | the Excel header pushes "Total" after the active headers, which already end in "Total" | any route, any dispatch | one "Total" column, so the header is as wide as every data row | not executed | ControlDespacho.ExcelHeaderTooWide | ControlDespacho.ExcelColumnsAgree |
