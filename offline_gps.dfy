/** The offline GPS loader of the dispatch page
    (src/app/dashboard/controlDespacho/DataOffLineGps.tsx): the route-25
    schedule, the arrival-time correction for widened zones, the h/min/seg
    difference, the fixed eight geofences, the points found inside a zone,
    the radius that captures most points, the per-vehicle analysis and the
    records posted to the dispatch backend. */
module OfflineGps {
  import opened Wrappers
  import opened Text
  import opened Clock
  import opened Schedule
  import opened Fleet

  // ---------------------------------------------------------------- getDynamicMinutesForRoute25

  /** `getDynamicMinutesForRoute25`: five-minute rows from 5:00:00 to 5:59:59. */
  const Route25Ranges: seq<TimeRange> := [
    TimeRange(At(5, 0, 0), At(5, 4, 59), [5, 35, 60, 75, 90, 110, 140, 146]),
    TimeRange(At(5, 5, 0), At(5, 9, 59), [5, 35, 60, 75, 90, 110, 140, 146]),
    TimeRange(At(5, 10, 0), At(5, 14, 59), [5, 35, 60, 75, 90, 110, 140, 146]),
    TimeRange(At(5, 15, 0), At(5, 19, 59), [5, 35, 60, 75, 90, 110, 141, 147]),
    TimeRange(At(5, 20, 0), At(5, 24, 59), [5, 35, 60, 75, 90, 110, 142, 148]),
    TimeRange(At(5, 25, 0), At(5, 29, 59), [5, 35, 60, 75, 90, 110, 143, 149]),
    TimeRange(At(5, 30, 0), At(5, 34, 59), [5, 35, 60, 75, 90, 110, 144, 150]),
    TimeRange(At(5, 35, 0), At(5, 39, 59), [5, 35, 60, 75, 90, 110, 145, 151]),
    TimeRange(At(5, 40, 0), At(5, 44, 59), [5, 36, 62, 77, 92, 113, 149, 155]),
    TimeRange(At(5, 45, 0), At(5, 49, 59), [5, 37, 64, 79, 94, 116, 153, 159]),
    TimeRange(At(5, 50, 0), At(5, 54, 59), [5, 38, 66, 81, 96, 119, 157, 163]),
    TimeRange(At(5, 55, 0), At(5, 59, 59), [5, 39, 68, 83, 98, 122, 161, 167])
  ]

  /** The list used outside every range: from 6:00:00 on, and before 5:00:00 too. */
  const Route25Fallback: seq<nat> := [5, 40, 70, 85, 100, 125, 165, 171]

  function GetDynamicMinutesForRoute25(hours: nat, minutes: nat, seconds: nat): (r: seq<nat>)
    ensures |r| == 8
  {
    Route25Shape();
    LookupWidth(Route25Ranges, At(hours, minutes, seconds), Route25Fallback, 8);
    Lookup(Route25Ranges, At(hours, minutes, seconds), Route25Fallback)
  }

  /** The route-25 table is ascending and gap-free, every row has one entry
      per geofence, and its twelve rows are the five-minute buckets of the
      hour from 5:00:00. */
  lemma Route25Shape()
    ensures Contiguous(Route25Ranges) && AllOfWidth(Route25Ranges, 8)
    ensures |Route25Ranges| == 12
    ensures forall k :: 0 <= k < 12 ==>
              Route25Ranges[k].start == At(5, 0, 0) + 300 * k && Route25Ranges[k].end == Route25Ranges[k].start + 299
  {
    assert ChainFrom(Route25Ranges, 12, 8);
    assert ChainFrom(Route25Ranges, 11, 8);
    assert ChainFrom(Route25Ranges, 10, 8);
    assert ChainFrom(Route25Ranges, 9, 8);
    assert ChainFrom(Route25Ranges, 8, 8);
    assert ChainFrom(Route25Ranges, 7, 8);
    assert ChainFrom(Route25Ranges, 6, 8);
    assert ChainFrom(Route25Ranges, 5, 8);
    assert ChainFrom(Route25Ranges, 4, 8);
    assert ChainFrom(Route25Ranges, 3, 8);
    assert ChainFrom(Route25Ranges, 2, 8);
    assert ChainFrom(Route25Ranges, 1, 8);
    assert ChainFrom(Route25Ranges, 0, 8);
    ChainShape(Route25Ranges, 8);
  }

  /** A time between 5:00:00 and 5:59:59 gets the row of its five-minute
      bucket; any other time, before or after, gets the fallback. */
  lemma Route25Lookup(hours: nat, minutes: nat, seconds: nat)
    ensures var t := At(hours, minutes, seconds);
            At(5, 0, 0) <= t <= At(5, 59, 59) ==>
              GetDynamicMinutesForRoute25(hours, minutes, seconds) == Route25Ranges[(t - At(5, 0, 0)) / 300].minutes
    ensures var t := At(hours, minutes, seconds);
            (t < At(5, 0, 0) || t > At(5, 59, 59)) ==>
              GetDynamicMinutesForRoute25(hours, minutes, seconds) == Route25Fallback
  {
    var t := At(hours, minutes, seconds);
    Route25Shape();
    if At(5, 0, 0) <= t <= At(5, 59, 59) {
      var k := (t - At(5, 0, 0)) / 300;
      assert Holds(Route25Ranges[k], t);
      LookupInRow(Route25Ranges, k, t, Route25Fallback);
    } else {
      LookupOutside(Route25Ranges, t, Route25Fallback);
    }
  }

  /** The minutes `analyzeVehicle` uses for a start time; a start time whose
      hours or minutes read as `NaN` falls outside every range. */
  function MinutesForStart(startTime: string): (r: seq<nat>)
    ensures |r| == 8
  {
    var fields := ClockFields(startTime);
    if fields.None? then Route25Fallback else GetDynamicMinutesForRoute25(fields.value.0, fields.value.1, 0)
  }

  /** A readable start "H:M" takes the route-25 row at H:M:00: the row of
      the range that holds it, the row of its five-minute slot from 5:00 to
      5:59, and the fallback when no range holds it. */
  lemma MinutesForStartRow(startTime: string, h: nat, m: nat)
    requires ClockFields(startTime) == Some((h, m))
    ensures forall i :: 0 <= i < |Route25Ranges| && Holds(Route25Ranges[i], At(h, m, 0)) ==>
              MinutesForStart(startTime) == Route25Ranges[i].minutes
    ensures 5 == h && m < 60 ==> MinutesForStart(startTime) == Route25Ranges[m / 5].minutes
    ensures (forall i :: 0 <= i < |Route25Ranges| ==> !Holds(Route25Ranges[i], At(h, m, 0))) ==>
              MinutesForStart(startTime) == Route25Fallback
  {
    Route25Shape();
    forall i | 0 <= i < |Route25Ranges| && Holds(Route25Ranges[i], At(h, m, 0))
      ensures MinutesForStart(startTime) == Route25Ranges[i].minutes
    {
      LookupInRow(Route25Ranges, i, At(h, m, 0), Route25Fallback);
    }
    if h == 5 && m < 60 {
      Route25Lookup(h, m, 0);
      assert (At(h, m, 0) - At(5, 0, 0)) / 300 == m / 5;
    }
  }

  /** A start time whose hours or minutes do not read as numbers takes the
      route-25 fallback row. */
  lemma MinutesForUnreadableStart(startTime: string)
    requires ClockFields(startTime).None?
    ensures MinutesForStart(startTime) == Route25Fallback
  {
  }

  // ---------------------------------------------------------------- adjustTimeForLargeRadius

  /** The seconds taken off an arrival time found at a radius; `None` for
      any other radius and for no radius at all, which leave the time as it is. */
  function SecondsToSubtract(adaptiveRadius: Option<nat>): Option<nat> {
    match adaptiveRadius
    case None => None
    case Some(radius) =>
      if radius == 10 then Some(40)
      else if radius == 20 || radius == 30 || radius == 40 then Some(45)
      else if radius == 50 then Some(30)
      else if radius == 100 then Some(90)
      else if radius == 200 then Some(150)
      else if radius == 300 then Some(140)
      else if radius == 400 then Some(180)
      else if radius == 500 then Some(240)
      else None
  }

  /** `const [hours, minutes, seconds] = timeString.split(":").map(Number)`
      and the seconds they make; `None` when a field is missing or `NaN`,
      which makes the sum `NaN`. */
  function HmsFields(time: string): Option<nat> {
    var parts := Split(time, ':');
    if |parts| >= 3 && NumberOf(parts[0]).Some? && NumberOf(parts[1]).Some? && NumberOf(parts[2]).Some? then
      Some(NumberOf(parts[0]).value * 3600 + NumberOf(parts[1]).value * 60 + NumberOf(parts[2]).value)
    else None
  }

  /** A number of seconds as zero-padded "HH:MM:SS". */
  function ClockText(total: nat): string {
    Pad2(total / 3600) + ":" + Pad2((total % 3600) / 60) + ":" + Pad2(total % 60)
  }

  /** What `adjustTimeForLargeRadius` returns. */
  function AdjustedTime(timeString: string, adaptiveRadius: Option<nat>): string {
    var delta := SecondsToSubtract(adaptiveRadius);
    if delta.None? then timeString
    else
      match HmsFields(timeString)
      case None => "NaN:NaN:NaN"
      case Some(t) => ClockText(if t < delta.value then 0 else t - delta.value)
  }

  /** `adjustTimeForLargeRadius`: picks the seconds for the radius, takes
      them off the time and keeps the result at or above midnight. */
  method AdjustTimeForLargeRadius(timeString: string, adaptiveRadius: Option<nat>) returns (r: string)
    ensures r == AdjustedTime(timeString, adaptiveRadius)
  {
    var secondsToSubtract := 0;
    match adaptiveRadius {
      case None =>
        return timeString;
      case Some(radius) =>
        if radius == 10 {
          secondsToSubtract := 40;
        } else if radius == 20 || radius == 30 || radius == 40 {
          secondsToSubtract := 45;
        } else if radius == 50 {
          secondsToSubtract := 30;
        } else if radius == 100 {
          secondsToSubtract := 90;
        } else if radius == 200 {
          secondsToSubtract := 150;
        } else if radius == 300 {
          secondsToSubtract := 140;
        } else if radius == 400 {
          secondsToSubtract := 180;
        } else if radius == 500 {
          secondsToSubtract := 240;
        } else {
          return timeString;
        }
    }
    var fields := HmsFields(timeString);
    if fields.None? {
      return "NaN:NaN:NaN";
    }
    var totalSeconds: int := fields.value;
    totalSeconds := totalSeconds - secondsToSubtract;
    if totalSeconds < 0 {
      totalSeconds := 0;
    }
    var adjustedHours := totalSeconds / 3600;
    var adjustedMinutes := (totalSeconds % 3600) / 60;
    var remainingSeconds := totalSeconds % 60;
    return Pad2(adjustedHours) + ":" + Pad2(adjustedMinutes) + ":" + Pad2(remainingSeconds);
  }

  /** A zero-padded clock text reads back as the seconds it was written from. */
  lemma HmsFieldsOfClockText(total: nat)
    ensures HmsFields(ClockText(total)) == Some(total)
    ensures TimeToSeconds(ClockText(total)) == total
    ensures var parts := Split(ClockText(total), ':');
            |parts| == 3 && |parts[0]| >= 2 && |parts[1]| == 2 && |parts[2]| == 2
  {
    var t := ToHms(total);
    ClockTextOfHms(total);
    PaddedClockFields(t.hours, t.minutes, t.seconds);
  }

  lemma ClockTextOfHms(total: nat)
    ensures ClockText(total) == Pad2(ToHms(total).hours) + ":" + Pad2(ToHms(total).minutes) + ":" + Pad2(ToHms(total).seconds)
  {
  }

  /** "HH:MM:SS" written from three numbers splits back into their texts and
      reads as the seconds they make. */
  lemma PaddedClockFields(h: nat, m: nat, s: nat)
    ensures var text := Pad2(h) + ":" + Pad2(m) + ":" + Pad2(s);
            && Split(text, ':') == [Pad2(h), Pad2(m), Pad2(s)]
            && HmsFields(text) == Some(h * 3600 + m * 60 + s)
            && TimeToSeconds(text) == h * 3600 + m * 60 + s
  {
    var text := Pad2(h) + ":" + Pad2(m) + ":" + Pad2(s);
    PaddedSplit(h, m, s);
    TimeToSecondsOfClock(h, m, s);
    NumberOfPad2(h);
    NumberOfPad2(m);
    NumberOfPad2(s);
    HmsOfParts(text, Pad2(h), Pad2(m), Pad2(s), h, m, s);
  }

  /** A text split into three numbers reads as the seconds they make. */
  lemma HmsOfParts(text: string, a: string, b: string, c: string, h: nat, m: nat, s: nat)
    requires Split(text, ':') == [a, b, c]
    requires NumberOf(a) == Some(h) && NumberOf(b) == Some(m) && NumberOf(c) == Some(s)
    ensures HmsFields(text) == Some(h * 3600 + m * 60 + s)
  {
  }

  lemma PaddedSplit(h: nat, m: nat, s: nat)
    ensures Split(Pad2(h) + ":" + Pad2(m) + ":" + Pad2(s), ':') == [Pad2(h), Pad2(m), Pad2(s)]
  {
    NoCharInDigits(Pad2(h), ':');
    NoCharInDigits(Pad2(m), ':');
    NoCharInDigits(Pad2(s), ':');
    SplitThree(Pad2(h), Pad2(m), Pad2(s), ':');
  }

  /** For a radius of the search and a readable "H:M:S", the corrected time
      is zero-padded "HH:MM:SS" (minutes and seconds two digits), and it
      stands for the time less the radius's seconds, never before midnight;
      for another radius, or none, the text is returned unchanged. */
  lemma AdjustedTimeValue(timeString: string, adaptiveRadius: Option<nat>)
    ensures SecondsToSubtract(adaptiveRadius).None? ==> AdjustedTime(timeString, adaptiveRadius) == timeString
    ensures SecondsToSubtract(adaptiveRadius).Some? && HmsFields(timeString).None? ==>
              AdjustedTime(timeString, adaptiveRadius) == "NaN:NaN:NaN"
    ensures SecondsToSubtract(adaptiveRadius).Some? && HmsFields(timeString).Some? ==>
              var t, delta := HmsFields(timeString).value, SecondsToSubtract(adaptiveRadius).value;
              var r := AdjustedTime(timeString, adaptiveRadius);
              && HmsFields(r) == Some(if t < delta then 0 else t - delta)
              && TimeToSeconds(r) == (if t < delta then 0 else t - delta)
              && |Split(r, ':')| == 3 && |Split(r, ':')[0]| >= 2 && |Split(r, ':')[1]| == 2 && |Split(r, ':')[2]| == 2
  {
    if SecondsToSubtract(adaptiveRadius).Some? && HmsFields(timeString).Some? {
      var t, delta := HmsFields(timeString).value, SecondsToSubtract(adaptiveRadius).value;
      AdjustedIsClockText(timeString, adaptiveRadius);
      HmsFieldsOfClockText(if t < delta then 0 else t - delta);
    }
  }

  lemma AdjustedIsClockText(timeString: string, adaptiveRadius: Option<nat>)
    requires SecondsToSubtract(adaptiveRadius).Some? && HmsFields(timeString).Some?
    ensures AdjustedTime(timeString, adaptiveRadius)
            == ClockText(if HmsFields(timeString).value < SecondsToSubtract(adaptiveRadius).value then 0
                         else HmsFields(timeString).value - SecondsToSubtract(adaptiveRadius).value)
  {
  }

  // ---------------------------------------------------------------- calculateTimeDifference

  const OfflineUnits: Units := Units("h", "min", "seg")

  /** `calculateTimeDifference` of this page: the h/min/seg breakdown of how
      far the end lies from the start, "-" in front when it lies before. */
  function TimeDifference(startTime: string, endTime: string): (r: string)
    ensures |r| > 0 && (r[0] == '-' <==> TimeToSeconds(endTime) < TimeToSeconds(startTime))
    ensures ReadTimeDifference(r) == Some(TimeToSeconds(endTime) - TimeToSeconds(startTime))
  {
    DifferenceTextRoundTrip(TimeToSeconds(endTime) - TimeToSeconds(startTime));
    DifferenceText(TimeToSeconds(endTime) - TimeToSeconds(startTime))
  }

  /** The text of a signed number of seconds. */
  function DifferenceText(raw: int): (r: string)
    ensures |r| > 0 && (r[0] == '-' <==> raw < 0)
    ensures raw >= 0 ==> IsDigit(r[0])
  {
    var text := HmsText(if raw < 0 then -raw else raw, OfflineUnits);
    HmsTextStartsWithDigit(if raw < 0 then -raw else raw, OfflineUnits);
    if raw < 0 then "-" + text else text
  }

  lemma HmsTextStartsWithDigit(total: nat, u: Units)
    ensures |HmsText(total, u)| > 0 && IsDigit(HmsText(total, u)[0])
  {
    var t := ToHms(total);
    var first := if t.hours > 0 then Digits(t.hours) else if t.minutes > 0 then Digits(t.minutes) else Digits(t.seconds);
    assert HmsText(total, u)[0] == first[0];
  }

  /** Reads a difference in this page's format back into seconds. */
  function ReadTimeDifference(text: string): Option<int> {
    if |text| > 0 && text[0] == '-' then
      match ReadHmsText(text[1..], OfflineUnits)
      case None => None
      case Some(n) => Some(-(n as int))
    else
      match ReadHmsText(text, OfflineUnits)
      case None => None
      case Some(n) => Some(n as int)
  }

  /** The text of any signed difference reads back as that difference. */
  lemma DifferenceTextRoundTrip(raw: int)
    ensures ReadTimeDifference(DifferenceText(raw)) == Some(raw)
  {
    var magnitude: nat := if raw < 0 then -raw else raw;
    var text := HmsText(magnitude, OfflineUnits);
    ReadHmsTextRoundTrip(magnitude, OfflineUnits);
    HmsTextStartsWithDigit(magnitude, OfflineUnits);
    if raw < 0 {
      assert DifferenceText(raw) == "-" + text;
      assert ("-" + text)[1..] == text;
    } else {
      assert DifferenceText(raw) == text;
    }
  }

  /** The text ends in the seconds token; it holds the minutes token exactly
      when there are minutes or hours. */
  lemma HmsTextTokens(total: nat)
    ensures EndsWith(HmsText(total, OfflineUnits), "seg")
    ensures total >= 60 ==> Contains(HmsText(total, OfflineUnits), "min")
    ensures total < 60 ==> HmsText(total, OfflineUnits) == Digits(total) + "seg"
  {
    var t := ToHms(total);
    assert total < 60 ==> t.hours == 0 && t.minutes == 0 && t.seconds == total;
    if t.hours > 0 {
      HoursTokens(total, t);
    } else if t.minutes > 0 {
      MinutesTokens(total, t);
    } else {
      var text := HmsText(total, OfflineUnits);
      assert text == Token(t.seconds, "seg");
      assert text[|text| - 3..] == "seg";
    }
  }

  lemma HoursTokens(total: nat, t: Hms)
    requires t == ToHms(total) && t.hours > 0
    ensures EndsWith(HmsText(total, OfflineUnits), "seg") && Contains(HmsText(total, OfflineUnits), "min")
  {
    var minutes := Token(t.minutes, "min");
    assert HmsText(total, OfflineUnits) == Token(t.hours, "h") + " " + minutes + " " + Token(t.seconds, "seg");
    TokensAround(Token(t.hours, "h") + " ", minutes, Token(t.seconds, "seg"), Digits(t.minutes));
  }

  lemma MinutesTokens(total: nat, t: Hms)
    requires t == ToHms(total) && t.hours == 0 && t.minutes > 0
    ensures EndsWith(HmsText(total, OfflineUnits), "seg") && Contains(HmsText(total, OfflineUnits), "min")
  {
    var minutes := Token(t.minutes, "min");
    assert HmsText(total, OfflineUnits) == [] + minutes + " " + Token(t.seconds, "seg");
    TokensAround([], minutes, Token(t.seconds, "seg"), Digits(t.minutes));
  }

  /** Text around a minutes token "<digits>min" holds "min" and, followed by
      a seconds token, ends in "seg". */
  lemma TokensAround(before: string, minutes: string, seconds: string, digits: string)
    requires minutes == digits + "min" && |seconds| >= 3 && seconds[|seconds| - 3..] == "seg"
    ensures var text := before + minutes + " " + seconds;
            Contains(text, "min") && EndsWith(text, "seg")
  {
    var text := before + minutes + " " + seconds;
    var i := |before| + |digits|;
    assert text[i..i + 3] == "min";
    ContainsAt(text, "min", i);
    assert text[|text| - 3..] == seconds[|seconds| - 3..];
  }

  /** Every difference ends in "seg"; it mentions "min" exactly when it is a
      minute or more either way; equal times give "0seg". */
  lemma TimeDifferenceFormat(startTime: string, endTime: string)
    ensures EndsWith(TimeDifference(startTime, endTime), "seg")
    ensures Contains(TimeDifference(startTime, endTime), "min")
            <==> TimeToSeconds(endTime) - TimeToSeconds(startTime) >= 60
                 || TimeToSeconds(startTime) - TimeToSeconds(endTime) >= 60
    ensures TimeDifference(startTime, startTime) == "0seg"
  {
    DifferenceTextFormat(TimeToSeconds(endTime) - TimeToSeconds(startTime));
    DifferenceTextFormat(0);
  }

  lemma DifferenceTextFormat(raw: int)
    ensures EndsWith(DifferenceText(raw), "seg")
    ensures Contains(DifferenceText(raw), "min") <==> raw >= 60 || raw <= -60
    ensures raw == 0 ==> DifferenceText(raw) == "0seg"
  {
    var magnitude: nat := if raw < 0 then -raw else raw;
    var text := HmsText(magnitude, OfflineUnits);
    var sign := if raw < 0 then "-" else "";
    assert DifferenceText(raw) == sign + text;
    HmsTextTokens(magnitude);
    SignedText(sign, text, magnitude);
  }

  /** A sign in front keeps the ending and whether "min" occurs. */
  lemma SignedText(sign: string, text: string, magnitude: nat)
    requires sign == "" || sign == "-"
    requires EndsWith(text, "seg")
    requires magnitude >= 60 ==> Contains(text, "min")
    requires magnitude < 60 ==> text == Digits(magnitude) + "seg"
    ensures EndsWith(sign + text, "seg")
    ensures Contains(sign + text, "min") <==> magnitude >= 60
  {
    var r := sign + text;
    PrefixKeepsEnding(sign, text, "seg");
    if magnitude >= 60 {
      PrefixKeepsOccurrence(sign, text, "min");
    } else {
      NoCharInDigits(Digits(magnitude), 'm');
      assert 'm' !in r;
      NotContainsWithout(r, "min");
    }
  }

  // ---------------------------------------------------------------- getGeofencesByRoute

  /** The eight geofences of route 25, numbered in route order. */
  const Route25Geofences: seq<Geofence> := [
    Geofence(1, "PACÍFICO", -12.199361, -77.028537, 10, true),
    Geofence(2, "GALENA", -12.166361, -76.976759, 10, true),
    Geofence(3, "CVA. ESPERANZA I", -12.180301, -76.943743, 10, true),
    Geofence(4, "PARADERO 15", -12.173399, -76.916099, 10, true),
    Geofence(5, "CVA. ESPERANZA", -12.180073, -76.943156, 10, true),
    Geofence(6, "CT", -12.165106, -76.972775, 10, true),
    Geofence(7, "FERRETERÍA", -12.197397, -77.026855, 10, true),
    Geofence(8, "MIYASHIRO", -12.202822, -77.03312, 10, true)
  ]

  /** `getGeofencesByRoute`: route "25" has its list, and every other route
      falls back to route 25's. */
  function GetGeofencesByRoute(route: string): (gs: seq<Geofence>)
    decreases if route == "25" then 0 else 1
  {
    if route == "25" then Route25Geofences else GetGeofencesByRoute("25")
  }

  /** Whatever the route, the same eight geofences, numbered 1 to 8, come back. */
  lemma RouteGeofencesShape(route: string)
    ensures GetGeofencesByRoute(route) == GetGeofencesByRoute("25")
    ensures |GetGeofencesByRoute(route)| == 8 && NumberedFromOne(GetGeofencesByRoute(route))
  {
  }

  // ---------------------------------------------------------------- analyzeTrajectoryIntersection

  /** The test of the loop: the distance rounded to a tenth of a metre,
      `Math.round(distance * 10) / 10`, no more than the radius. */
  predicate WithinRadius(geo: Geometry, g: Geofence, p: GpsPoint) {
    (Round(CenterDistance(geo, g, p) * 10.0) as real) / 10.0 <= g.radius as real
  }

  /** The detection pushed for a point inside the zone. */
  function EntryAt(geo: Geometry, g: Geofence, p: GpsPoint, vehicleId: string): Detection {
    var d := Round(CenterDistance(geo, g, p));
    Detection(Entry, p, p, d, d, None, g, High, Timestamp(p), vehicleId, None, None)
  }

  /** The detections pushed for the first `i` points of the trace. */
  function InsideUpTo(geo: Geometry, pts: seq<GpsPoint>, g: Geofence, vehicleId: string, i: nat): (ds: seq<Detection>)
    requires i <= |pts|
    ensures |ds| <= i
  {
    if i == 0 then []
    else
      InsideUpTo(geo, pts, g, vehicleId, i - 1)
      + (if WithinRadius(geo, g, pts[i - 1]) then [EntryAt(geo, g, pts[i - 1], vehicleId)] else [])
  }

  /** What `analyzeTrajectoryIntersection` returns for a trace. */
  function InsideDetections(geo: Geometry, pts: seq<GpsPoint>, g: Geofence, vehicleId: string): (ds: seq<Detection>)
    ensures |ds| <= |pts|
  {
    InsideUpTo(geo, pts, g, vehicleId, |pts|)
  }

  /** `analyzeTrajectoryIntersection`: one pass over the points, pushing an
      entry for each point inside the zone not processed before. */
  method AnalyzeTrajectoryIntersection(geo: Geometry, pts: seq<GpsPoint>, g: Geofence, vehicleId: string)
    returns (detections: seq<Detection>)
    ensures detections == InsideDetections(geo, pts, g, vehicleId)
  {
    detections := [];
    var processedIndices: set<nat> := {};
    for i := 0 to |pts|
      invariant detections == InsideUpTo(geo, pts, g, vehicleId, i)
      invariant forall j :: j in processedIndices ==> j < i
    {
      var point := pts[i];
      var distance := CenterDistance(geo, g, point);
      var roundedDistance := (Round(distance * 10.0) as real) / 10.0;
      if roundedDistance <= g.radius as real && i !in processedIndices {
        processedIndices := processedIndices + {i};
        detections := detections + [Detection(Entry, point, point, Round(distance), Round(distance), None, g, High,
                                              point.fecha + " " + point.hora, vehicleId, None, None)];
      }
    }
  }

  /** The positions of the first `i` points that lie inside the zone, in order. */
  function InsideIndices(geo: Geometry, pts: seq<GpsPoint>, g: Geofence, i: nat): (idx: seq<nat>)
    requires i <= |pts|
    ensures forall k :: 0 <= k < |idx| ==> idx[k] < i && WithinRadius(geo, g, pts[idx[k]])
    ensures forall a, b :: 0 <= a < b < |idx| ==> idx[a] < idx[b]
    ensures forall j :: 0 <= j < i && WithinRadius(geo, g, pts[j]) ==> j in idx
  {
    if i == 0 then []
    else
      var prev := InsideIndices(geo, pts, g, i - 1);
      if WithinRadius(geo, g, pts[i - 1]) then prev + [i - 1] else prev
  }

  /** The detections are the entries at the points inside the zone, one
      each, in trace order. */
  lemma {:induction false} InsideInOrder(geo: Geometry, pts: seq<GpsPoint>, g: Geofence, vehicleId: string, i: nat)
    requires i <= |pts|
    ensures |InsideUpTo(geo, pts, g, vehicleId, i)| == |InsideIndices(geo, pts, g, i)|
    ensures forall k :: 0 <= k < |InsideIndices(geo, pts, g, i)| ==>
              InsideUpTo(geo, pts, g, vehicleId, i)[k] == EntryAt(geo, g, pts[InsideIndices(geo, pts, g, i)[k]], vehicleId)
  {
    if i > 0 {
      InsideInOrder(geo, pts, g, vehicleId, i - 1);
    }
  }

  /** A detection is in the result exactly when it is the entry at a point inside the zone. */
  lemma InsideMembers(geo: Geometry, pts: seq<GpsPoint>, g: Geofence, vehicleId: string, d: Detection)
    ensures d in InsideDetections(geo, pts, g, vehicleId) <==>
            exists j :: 0 <= j < |pts| && WithinRadius(geo, g, pts[j]) && d == EntryAt(geo, g, pts[j], vehicleId)
  {
    var ds := InsideDetections(geo, pts, g, vehicleId);
    var idx := InsideIndices(geo, pts, g, |pts|);
    InsideInOrder(geo, pts, g, vehicleId, |pts|);
    if d in ds {
      var k :| 0 <= k < |ds| && ds[k] == d;
      assert WithinRadius(geo, g, pts[idx[k]]) && d == EntryAt(geo, g, pts[idx[k]], vehicleId);
    }
    if exists j :: 0 <= j < |pts| && WithinRadius(geo, g, pts[j]) && d == EntryAt(geo, g, pts[j], vehicleId) {
      var j :| 0 <= j < |pts| && WithinRadius(geo, g, pts[j]) && d == EntryAt(geo, g, pts[j], vehicleId);
      var k :| 0 <= k < |idx| && idx[k] == j;
      assert ds[k] == d;
    }
  }

  /** Every detection is an entry with high confidence at a point of the
      trace inside the zone, from and to that point, stamped with its date
      and time, for the zone as given and with no end time yet. */
  lemma InsideFields(geo: Geometry, pts: seq<GpsPoint>, g: Geofence, vehicleId: string)
    ensures forall d :: d in InsideDetections(geo, pts, g, vehicleId) ==>
              && d.kind == Entry && d.confidence == High && d.fromPoint == d.toPoint
              && d.toPoint in pts && WithinRadius(geo, g, d.toPoint)
              && d.distanceFrom == d.distanceTo == Round(CenterDistance(geo, g, d.toPoint))
              && d.timestamp == Timestamp(d.toPoint) && d.geofence == g && d.vehicleId == vehicleId
              && d.adaptiveRadius.None? && d.endTime.None?
  {
    forall d | d in InsideDetections(geo, pts, g, vehicleId)
      ensures && d.kind == Entry && d.confidence == High && d.fromPoint == d.toPoint
              && d.toPoint in pts && WithinRadius(geo, g, d.toPoint)
              && d.distanceFrom == d.distanceTo == Round(CenterDistance(geo, g, d.toPoint))
              && d.timestamp == Timestamp(d.toPoint) && d.geofence == g && d.vehicleId == vehicleId
              && d.adaptiveRadius.None? && d.endTime.None?
    {
      InsideMembers(geo, pts, g, vehicleId, d);
    }
  }

  /** With the distances fixed, widening the zone never loses a point. */
  lemma {:induction false} WiderKeepsPoints(geo: Geometry, pts: seq<GpsPoint>, g: Geofence, vehicleId: string,
                                            small: nat, large: nat, i: nat)
    requires small <= large && i <= |pts|
    ensures |InsideUpTo(geo, pts, g.(radius := small), vehicleId, i)| <= |InsideUpTo(geo, pts, g.(radius := large), vehicleId, i)|
    ensures forall j :: 0 <= j < i && WithinRadius(geo, g.(radius := small), pts[j]) ==> WithinRadius(geo, g.(radius := large), pts[j])
  {
    if i > 0 {
      WiderKeepsPoints(geo, pts, g, vehicleId, small, large, i - 1);
      assert CenterDistance(geo, g.(radius := small), pts[i - 1]) == CenterDistance(geo, g.(radius := large), pts[i - 1]);
    }
  }

  // ---------------------------------------------------------------- analyzeWithAdaptiveRadius

  const OfflineSteps: seq<nat> := [10, 20, 30, 40, 50, 100, 200, 300, 400, 500]

  /** The radii of the search are exactly those the correction knows. */
  lemma SubtractedForEverySearchRadius(radius: nat)
    ensures SecondsToSubtract(Some(radius)).Some? <==> radius in OfflineSteps
  {
  }

  /** How many points of the trace lie inside the zone widened to `radius`. */
  function CountAt(geo: Geometry, pts: seq<GpsPoint>, g: Geofence, vehicleId: string, radius: nat): nat {
    |InsideDetections(geo, pts, g.(radius := radius), vehicleId)|
  }

  /** `bestDetections` and `bestRadius`. */
  datatype Choice = Choice(detections: seq<Detection>, radius: nat)

  /** The choice after the first `n` steps: a step replaces it only when it
      finds strictly more points. */
  function ChoiceUpTo(geo: Geometry, pts: seq<GpsPoint>, g: Geofence, vehicleId: string, n: nat): Choice
    requires n <= |OfflineSteps|
  {
    if n == 0 then Choice([], 10)
    else
      var prev := ChoiceUpTo(geo, pts, g, vehicleId, n - 1);
      var ds := InsideDetections(geo, pts, g.(radius := OfflineSteps[n - 1]), vehicleId);
      if |ds| > |prev.detections| then Choice(ds, OfflineSteps[n - 1]) else prev
  }

  /** How many steps the loop runs: it stops right after 20 m when 20 m finds
      two points or more, and otherwise tries them all. */
  function StepsTried(geo: Geometry, pts: seq<GpsPoint>, g: Geofence, vehicleId: string): (n: nat)
    ensures n <= |OfflineSteps|
  {
    if CountAt(geo, pts, g, vehicleId, 20) >= 2 then 2 else |OfflineSteps|
  }

  datatype AdaptiveOutcome = AdaptiveOutcome(detections: seq<Detection>, usedRadius: nat)

  /** The detections found at a radius, each tagged with the widened zone and the radius. */
  function TagAll(ds: seq<Detection>, g: Geofence, radius: nat): (r: seq<Detection>)
    ensures |r| == |ds|
  {
    seq(|ds|, k requires 0 <= k < |ds| => Tagged(ds[k], g, radius))
  }

  /** What `analyzeWithAdaptiveRadius` returns. */
  function AdaptiveDetections(geo: Geometry, pts: seq<GpsPoint>, g: Geofence, vehicleId: string): AdaptiveOutcome {
    var best := ChoiceUpTo(geo, pts, g, vehicleId, StepsTried(geo, pts, g, vehicleId));
    if |best.detections| > 0 then AdaptiveOutcome(TagAll(best.detections, g, best.radius), best.radius)
    else AdaptiveOutcome([], 10)
  }

  /** `analyzeWithAdaptiveRadius`: tries the radius steps in order, keeps the
      one that captures strictly more points than any before it, and stops
      after 20 m when 20 m already captures two. */
  method AnalyzeWithAdaptiveRadius(geo: Geometry, pts: seq<GpsPoint>, g: Geofence, vehicleId: string)
    returns (r: AdaptiveOutcome)
    ensures r == AdaptiveDetections(geo, pts, g, vehicleId)
  {
    var bestDetections: seq<Detection> := [];
    var bestRadius: nat := 10;
    var n := 0;
    while n < |OfflineSteps|
      invariant n <= |OfflineSteps|
      invariant StepsTried(geo, pts, g, vehicleId) == 2 ==> n < 2
      invariant Choice(bestDetections, bestRadius) == ChoiceUpTo(geo, pts, g, vehicleId, n)
    {
      var radius := OfflineSteps[n];
      var adaptedGeofence := g.(radius := radius);
      var detections := AnalyzeTrajectoryIntersection(geo, pts, adaptedGeofence, vehicleId);
      if |detections| > |bestDetections| {
        bestDetections := detections;
        bestRadius := radius;
      }
      assert |detections| == CountAt(geo, pts, g, vehicleId, radius);
      assert n == 1 <==> radius == 20;
      n := n + 1;
      if |detections| >= 2 && radius == 20 {
        break;
      }
    }
    assert n == StepsTried(geo, pts, g, vehicleId);
    if |bestDetections| > 0 {
      var adaptedDetections := seq(|bestDetections|, k requires 0 <= k < |bestDetections| =>
        bestDetections[k].(geofence := g.(radius := bestRadius), adaptiveRadius := Some(bestRadius)));
      return AdaptiveOutcome(adaptedDetections, bestRadius);
    }
    return AdaptiveOutcome([], 10);
  }

  /** No step of the first `n` captures a point. */
  predicate NoneCaptured(geo: Geometry, pts: seq<GpsPoint>, g: Geofence, vehicleId: string, n: nat)
    requires n <= |OfflineSteps|
  {
    forall j :: 0 <= j < n ==> CountAt(geo, pts, g, vehicleId, OfflineSteps[j]) == 0
  }

  /** No step of the first `n` captures more than `m` points. */
  predicate CountsAtMost(geo: Geometry, pts: seq<GpsPoint>, g: Geofence, vehicleId: string, n: nat, m: nat)
    requires n <= |OfflineSteps|
  {
    forall j :: 0 <= j < n ==> CountAt(geo, pts, g, vehicleId, OfflineSteps[j]) <= m
  }

  /** The choice `c` holds the detections of the `i`-th step, one of the
      first `n`: the most any of them captures, and strictly more than any
      step before it. */
  predicate FirstMaximumAt(geo: Geometry, pts: seq<GpsPoint>, g: Geofence, vehicleId: string, n: nat, c: Choice, i: nat)
    requires n <= |OfflineSteps|
  {
    && i < n && c.radius == OfflineSteps[i]
    && c.detections == InsideDetections(geo, pts, g.(radius := OfflineSteps[i]), vehicleId)
    && CountsAtMost(geo, pts, g, vehicleId, n, |c.detections|)
    && (forall j :: 0 <= j < i ==> CountAt(geo, pts, g, vehicleId, OfflineSteps[j]) < |c.detections|)
  }

  /** No step of the first `n` captures more points than the choice holds. */
  lemma {:induction false} ChoiceBounds(geo: Geometry, pts: seq<GpsPoint>, g: Geofence, vehicleId: string, n: nat)
    requires n <= |OfflineSteps|
    ensures CountsAtMost(geo, pts, g, vehicleId, n, |ChoiceUpTo(geo, pts, g, vehicleId, n).detections|)
  {
    if n > 0 {
      ChoiceBounds(geo, pts, g, vehicleId, n - 1);
    }
  }

  /** After `n` steps the choice is empty with radius 10 when no step found
      a point, and otherwise the detections of the first step that found the
      most points. */
  lemma {:induction false} ChoiceIsFirstMaximum(geo: Geometry, pts: seq<GpsPoint>, g: Geofence, vehicleId: string, n: nat)
    requires n <= |OfflineSteps|
    ensures var c := ChoiceUpTo(geo, pts, g, vehicleId, n);
            |c.detections| == 0 ==> c.radius == 10 && NoneCaptured(geo, pts, g, vehicleId, n)
    ensures var c := ChoiceUpTo(geo, pts, g, vehicleId, n);
            |c.detections| > 0 ==> exists i :: FirstMaximumAt(geo, pts, g, vehicleId, n, c, i)
  {
    if n > 0 {
      ChoiceIsFirstMaximum(geo, pts, g, vehicleId, n - 1);
      ChoiceBounds(geo, pts, g, vehicleId, n - 1);
      ChoiceBounds(geo, pts, g, vehicleId, n);
      var prev := ChoiceUpTo(geo, pts, g, vehicleId, n - 1);
      var c := ChoiceUpTo(geo, pts, g, vehicleId, n);
      var ds := InsideDetections(geo, pts, g.(radius := OfflineSteps[n - 1]), vehicleId);
      if |ds| > |prev.detections| {
        assert c == Choice(ds, OfflineSteps[n - 1]);
        assert FirstMaximumAt(geo, pts, g, vehicleId, n, c, n - 1);
      } else if |prev.detections| > 0 {
        assert c == prev;
        var i: nat :| FirstMaximumAt(geo, pts, g, vehicleId, n - 1, prev, i);
        assert FirstMaximumAt(geo, pts, g, vehicleId, n, c, i);
      } else {
        assert c == prev;
        assert CountAt(geo, pts, g, vehicleId, OfflineSteps[n - 1]) == 0;
      }
    }
  }

  /** The search keeps the first radius among those it tries that captures
      the most points, all of them tagged with that radius; when no radius it
      tries captures any point, nothing is returned, with radius 10. */
  lemma AdaptiveFirstMaximum(geo: Geometry, pts: seq<GpsPoint>, g: Geofence, vehicleId: string)
    ensures var r := AdaptiveDetections(geo, pts, g, vehicleId);
            var n := StepsTried(geo, pts, g, vehicleId);
            |r.detections| == 0 ==> r.usedRadius == 10 && forall j :: 0 <= j < n ==> CountAt(geo, pts, g, vehicleId, OfflineSteps[j]) == 0
    ensures var r := AdaptiveDetections(geo, pts, g, vehicleId);
            var n := StepsTried(geo, pts, g, vehicleId);
            |r.detections| > 0 ==>
              exists i :: 0 <= i < n && r.usedRadius == OfflineSteps[i]
                && r.detections == TagAll(InsideDetections(geo, pts, g.(radius := OfflineSteps[i]), vehicleId), g, OfflineSteps[i])
                && (forall j :: 0 <= j < n ==> CountAt(geo, pts, g, vehicleId, OfflineSteps[j]) <= |r.detections|)
                && (forall j :: 0 <= j < i ==> CountAt(geo, pts, g, vehicleId, OfflineSteps[j]) < |r.detections|)
  {
    var n := StepsTried(geo, pts, g, vehicleId);
    var c := ChoiceUpTo(geo, pts, g, vehicleId, n);
    ChoiceIsFirstMaximum(geo, pts, g, vehicleId, n);
    if |c.detections| > 0 {
      var i: nat :| FirstMaximumAt(geo, pts, g, vehicleId, n, c, i);
      assert AdaptiveDetections(geo, pts, g, vehicleId).detections == TagAll(c.detections, g, OfflineSteps[i]);
    }
  }

  /** When 20 m captures two points or more, the radius kept is 10 m or 20 m. */
  lemma AdaptiveEarlyStop(geo: Geometry, pts: seq<GpsPoint>, g: Geofence, vehicleId: string)
    requires CountAt(geo, pts, g, vehicleId, 20) >= 2
    ensures AdaptiveDetections(geo, pts, g, vehicleId).usedRadius in {10, 20}
    ensures |AdaptiveDetections(geo, pts, g, vehicleId).detections| == CountAt(geo, pts, g, vehicleId, 20)
  {
    AdaptiveFirstMaximum(geo, pts, g, vehicleId);
    WiderKeepsPoints(geo, pts, g, vehicleId, 10, 20, |pts|);
  }

  /** Since a wider zone never loses a point, the search captures as many
      points as the widest radius it tries, at the smallest radius that does. */
  lemma AdaptiveCapturesWidest(geo: Geometry, pts: seq<GpsPoint>, g: Geofence, vehicleId: string)
    ensures var n := StepsTried(geo, pts, g, vehicleId);
            |AdaptiveDetections(geo, pts, g, vehicleId).detections| == CountAt(geo, pts, g, vehicleId, OfflineSteps[n - 1])
  {
    var n := StepsTried(geo, pts, g, vehicleId);
    AdaptiveFirstMaximum(geo, pts, g, vehicleId);
    forall j | 0 <= j < n
      ensures CountAt(geo, pts, g, vehicleId, OfflineSteps[j]) <= CountAt(geo, pts, g, vehicleId, OfflineSteps[n - 1])
    {
      WiderKeepsPoints(geo, pts, g, vehicleId, OfflineSteps[j], OfflineSteps[n - 1], |pts|);
    }
  }

  /** Every detection returned carries the zone with only its radius changed
      to the radius kept, that radius as its adaptive radius, and no end time;
      it is stamped with the date and time of a point of the trace. */
  lemma AdaptiveTagging(geo: Geometry, pts: seq<GpsPoint>, g: Geofence, vehicleId: string)
    ensures var r := AdaptiveDetections(geo, pts, g, vehicleId);
            forall d :: d in r.detections ==>
              && d.geofence == g.(radius := r.usedRadius) && d.adaptiveRadius == Some(r.usedRadius)
              && r.usedRadius in OfflineSteps && d.endTime.None?
              && d.timestamp == Timestamp(d.toPoint) && d.toPoint in pts && d.vehicleId == vehicleId
  {
    var r := AdaptiveDetections(geo, pts, g, vehicleId);
    AdaptiveFirstMaximum(geo, pts, g, vehicleId);
    if |r.detections| > 0 {
      var n := StepsTried(geo, pts, g, vehicleId);
      var i :| 0 <= i < n && r.usedRadius == OfflineSteps[i]
                && r.detections == TagAll(InsideDetections(geo, pts, g.(radius := OfflineSteps[i]), vehicleId), g, OfflineSteps[i]);
      var ds := InsideDetections(geo, pts, g.(radius := OfflineSteps[i]), vehicleId);
      InsideFields(geo, pts, g.(radius := OfflineSteps[i]), vehicleId);
      forall d | d in r.detections
        ensures && d.geofence == g.(radius := r.usedRadius) && d.adaptiveRadius == Some(r.usedRadius)
                && r.usedRadius in OfflineSteps && d.endTime.None?
                && d.timestamp == Timestamp(d.toPoint) && d.toPoint in pts && d.vehicleId == vehicleId
      {
        var k :| 0 <= k < |r.detections| && r.detections[k] == d;
        assert d == Tagged(ds[k], g, OfflineSteps[i]);
        assert ds[k] in ds;
      }
    }
  }

  // ---------------------------------------------------------------- analyzeVehicle

  /** The detections of the searches over the first `n` geofences, spread one
      after another. */
  function SpreadUpTo(geo: Geometry, pts: seq<GpsPoint>, gs: seq<Geofence>, vehicleId: string, n: nat): seq<Detection>
    requires n <= |gs|
  {
    if n == 0 then []
    else SpreadUpTo(geo, pts, gs, vehicleId, n - 1) + AdaptiveDetections(geo, pts, gs[n - 1], vehicleId).detections
  }

  /** The result `analyzeVehicle` builds from what the trace request returned. */
  function AnalyzeVehicleResult(geo: Geometry, route: string, vehicle: VehicleSchedule, outcome: FetchOutcome): BatchAnalysisResult {
    match outcome
    case HttpFailure(status) => ErrorResult(vehicle, "HTTP " + IntText(status))
    case Thrown(message) => ErrorResult(vehicle, message)
    case Received(pts) =>
      if |pts| == 0 then
        BatchAnalysisResult(vehicle.vehicleId, vehicle.codigo, vehicle.startTime, NotDetected, [], None, 0)
      else
        var gs := GetGeofencesByRoute(route);
        var ds := WithEndTimes(SpreadUpTo(geo, pts, gs, vehicle.vehicleId, |gs|), gs, vehicle.startTime,
                               MinutesForStart(vehicle.startTime));
        BatchAnalysisResult(vehicle.vehicleId, vehicle.codigo, vehicle.startTime,
                            if |ds| > 0 then Detected else NotDetected, ds, None, |pts|)
  }

  /** The `forEach` of `analyzeVehicle` over the geofences: each one's radius
      search, its detections pushed after those found before. */
  method DetectAcrossGeofences(geo: Geometry, pts: seq<GpsPoint>, geofences: seq<Geofence>, vehicleId: string)
    returns (allDetections: seq<Detection>)
    ensures allDetections == SpreadUpTo(geo, pts, geofences, vehicleId, |geofences|)
  {
    allDetections := [];
    for n := 0 to |geofences|
      invariant allDetections == SpreadUpTo(geo, pts, geofences, vehicleId, n)
    {
      var adaptive := AnalyzeWithAdaptiveRadius(geo, pts, geofences[n], vehicleId);
      if |adaptive.detections| > 0 {
        allDetections := allDetections + adaptive.detections;
      }
    }
  }

  /** `analyzeVehicle` after the request: the radius search over every
      geofence, then the end time of each detection. */
  method AnalyzeVehicle(geo: Geometry, route: string, vehicle: VehicleSchedule, outcome: FetchOutcome)
    returns (result: BatchAnalysisResult)
    ensures result == AnalyzeVehicleResult(geo, route, vehicle, outcome)
  {
    match outcome
    case HttpFailure(status) =>
      return ErrorResult(vehicle, "HTTP " + IntText(status));
    case Thrown(message) =>
      return ErrorResult(vehicle, message);
    case Received(pts) =>
      if |pts| == 0 {
        return BatchAnalysisResult(vehicle.vehicleId, vehicle.codigo, vehicle.startTime, NotDetected, [], None, 0);
      }
      var geofences := GetGeofencesByRoute(route);
      var allDetections := DetectAcrossGeofences(geo, pts, geofences, vehicle.vehicleId);
      if |allDetections| > 0 {
        var dynamicMinutes := MinutesForStart(vehicle.startTime);
        allDetections := SetEndTimes(allDetections, geofences, vehicle.startTime, dynamicMinutes);
      }
      return BatchAnalysisResult(vehicle.vehicleId, vehicle.codigo, vehicle.startTime,
                                 if |allDetections| > 0 then Detected else NotDetected, allDetections, None, |pts|);
  }

  /** The analysis of one vehicle: a failed request is an error with no
      detections, an empty trace is "not detected" with no points, and
      otherwise the status is "detected" exactly when something was found. */
  lemma AnalyzeVehicleStatus(geo: Geometry, route: string, vehicle: VehicleSchedule, outcome: FetchOutcome)
    ensures var r := AnalyzeVehicleResult(geo, route, vehicle, outcome);
            && r.vehicleId == vehicle.vehicleId && r.codigo == vehicle.codigo && r.fechaini == vehicle.startTime
            && (r.status == Error <==> !outcome.Received?)
            && (r.status == Error ==> r.detections == [] && r.gpsPointsCount == 0 && r.error.Some?)
            && (outcome.HttpFailure? ==> r.error == Some("HTTP " + IntText(outcome.status)))
            && (outcome.Received? ==> r.gpsPointsCount == |outcome.listaTablas| && r.error.None?
                                      && (r.status == Detected <==> |r.detections| > 0))
            && (outcome == Received([]) ==> r.status == NotDetected && r.detections == [])
  {
  }

  /** `d` is a detection of the search of the geofence it names, one of the first `n`. */
  predicate FromSearch(geo: Geometry, pts: seq<GpsPoint>, gs: seq<Geofence>, vehicleId: string, n: nat, d: Detection)
    requires n <= |gs|
  {
    1 <= d.geofence.id <= n && d in AdaptiveDetections(geo, pts, gs[d.geofence.id - 1], vehicleId).detections
  }

  /** Each spread detection comes from the search of the geofence it names. */
  lemma {:induction false} SpreadMembers(geo: Geometry, pts: seq<GpsPoint>, gs: seq<Geofence>, vehicleId: string, n: nat)
    requires n <= |gs| && NumberedFromOne(gs)
    ensures forall a :: 0 <= a < |SpreadUpTo(geo, pts, gs, vehicleId, n)| ==>
              FromSearch(geo, pts, gs, vehicleId, n, SpreadUpTo(geo, pts, gs, vehicleId, n)[a])
  {
    if n > 0 {
      SpreadMembers(geo, pts, gs, vehicleId, n - 1);
      var before := SpreadUpTo(geo, pts, gs, vehicleId, n - 1);
      var found := AdaptiveDetections(geo, pts, gs[n - 1], vehicleId).detections;
      AdaptiveTagging(geo, pts, gs[n - 1], vehicleId);
      assert gs[n - 1].id == n;
      AppendFromSearch(geo, pts, gs, vehicleId, n, before, found, SpreadUpTo(geo, pts, gs, vehicleId, n));
    }
  }

  /** The step of `SpreadMembers`: appending the search of the `n`-th geofence. */
  lemma AppendFromSearch(geo: Geometry, pts: seq<GpsPoint>, gs: seq<Geofence>, vehicleId: string, n: nat,
                         before: seq<Detection>, found: seq<Detection>, ds: seq<Detection>)
    requires 0 < n <= |gs| && ds == before + found
    requires forall a :: 0 <= a < |before| ==> FromSearch(geo, pts, gs, vehicleId, n - 1, before[a])
    requires found == AdaptiveDetections(geo, pts, gs[n - 1], vehicleId).detections
    requires forall d :: d in found ==> d.geofence.id == n
    ensures forall a :: 0 <= a < |ds| ==> FromSearch(geo, pts, gs, vehicleId, n, ds[a])
  {
    forall a | 0 <= a < |ds|
      ensures FromSearch(geo, pts, gs, vehicleId, n, ds[a])
    {
      if a < |before| {
        assert ds[a] == before[a];
        assert FromSearch(geo, pts, gs, vehicleId, n - 1, before[a]);
      } else {
        assert ds[a] == found[a - |before|];
      }
    }
  }

  /** The geofences of the spread detections never go back along the route. */
  lemma {:induction false} SpreadInRouteOrder(geo: Geometry, pts: seq<GpsPoint>, gs: seq<Geofence>, vehicleId: string, n: nat)
    requires n <= |gs| && NumberedFromOne(gs)
    ensures forall a, b :: 0 <= a < b < |SpreadUpTo(geo, pts, gs, vehicleId, n)| ==>
              SpreadUpTo(geo, pts, gs, vehicleId, n)[a].geofence.id <= SpreadUpTo(geo, pts, gs, vehicleId, n)[b].geofence.id
  {
    if n > 0 {
      SpreadInRouteOrder(geo, pts, gs, vehicleId, n - 1);
      SpreadMembers(geo, pts, gs, vehicleId, n - 1);
      var before := SpreadUpTo(geo, pts, gs, vehicleId, n - 1);
      var found := AdaptiveDetections(geo, pts, gs[n - 1], vehicleId).detections;
      forall a | 0 <= a < |before|
        ensures before[a].geofence.id <= n - 1
      {
        assert FromSearch(geo, pts, gs, vehicleId, n - 1, before[a]);
      }
      AdaptiveTagging(geo, pts, gs[n - 1], vehicleId);
      assert gs[n - 1].id == n;
      AppendInRouteOrder(before, found, SpreadUpTo(geo, pts, gs, vehicleId, n), n - 1);
    }
  }

  /** Detections of geofences up to `k` in route order, followed by
      detections of geofence `k + 1`, are still in route order. */
  lemma AppendInRouteOrder(before: seq<Detection>, found: seq<Detection>, ds: seq<Detection>, k: nat)
    requires ds == before + found
    requires forall a, b :: 0 <= a < b < |before| ==> before[a].geofence.id <= before[b].geofence.id
    requires forall a :: 0 <= a < |before| ==> before[a].geofence.id <= k
    requires forall d :: d in found ==> d.geofence.id == k + 1
    ensures forall a, b :: 0 <= a < b < |ds| ==> ds[a].geofence.id <= ds[b].geofence.id
  {
    forall a, b | 0 <= a < b < |ds|
      ensures ds[a].geofence.id <= ds[b].geofence.id
    {
      if b >= |before| {
        assert ds[b] == found[b - |before|];
        if a >= |before| {
          assert ds[a] == found[a - |before|];
        }
      }
    }
  }

  /** The end times given to the spread detections of a numbered route with
      one minutes entry per geofence: each detection keeps the geofence it
      names and gets the start plus that geofence's minutes. */
  lemma TimedSpread(geo: Geometry, pts: seq<GpsPoint>, gs: seq<Geofence>, vehicleId: string,
                    startTime: string, minutes: seq<nat>, ds: seq<Detection>)
    requires NumberedFromOne(gs) && |minutes| == |gs|
    requires ds == WithEndTimes(SpreadUpTo(geo, pts, gs, vehicleId, |gs|), gs, startTime, minutes)
    ensures forall a :: 0 <= a < |ds| ==>
              && 1 <= ds[a].geofence.id <= |gs|
              && ds[a].endTime == Some(CalculateEndTime(startTime, minutes[ds[a].geofence.id - 1]))
              && ds[a].(endTime := None) in AdaptiveDetections(geo, pts, gs[ds[a].geofence.id - 1], vehicleId).detections
    ensures forall a, b :: 0 <= a < b < |ds| ==> ds[a].geofence.id <= ds[b].geofence.id
  {
    var spread := SpreadUpTo(geo, pts, gs, vehicleId, |gs|);
    SpreadMembers(geo, pts, gs, vehicleId, |gs|);
    SpreadInRouteOrder(geo, pts, gs, vehicleId, |gs|);
    forall a | 0 <= a < |ds|
      ensures && ds[a].geofence == spread[a].geofence
              && ds[a].endTime == Some(CalculateEndTime(startTime, minutes[ds[a].geofence.id - 1]))
              && ds[a].(endTime := None) == spread[a]
    {
      var d := spread[a];
      assert FromSearch(geo, pts, gs, vehicleId, |gs|, d);
      AdaptiveTagging(geo, pts, gs[d.geofence.id - 1], vehicleId);
      AssignEndTimeNumbered(d, gs, startTime, minutes);
      assert d == d.(endTime := None);
    }
  }

  /** How the detections of one analysis relate to the radius searches: each
      comes from the search of the geofence it names, in route order, and
      carries the start plus the minutes of its geofence's column; so all of
      them get an end time, since there are eight geofences and eight columns. */
  lemma EveryDetectionTimed(geo: Geometry, route: string, vehicle: VehicleSchedule, pts: seq<GpsPoint>)
    requires |pts| > 0
    ensures var ds := AnalyzeVehicleResult(geo, route, vehicle, Received(pts)).detections;
            forall a :: 0 <= a < |ds| ==>
              && 1 <= ds[a].geofence.id <= |GetGeofencesByRoute(route)| == 8
              && ds[a].endTime == Some(CalculateEndTime(vehicle.startTime, MinutesForStart(vehicle.startTime)[ds[a].geofence.id - 1]))
              && ds[a].(endTime := None) in AdaptiveDetections(geo, pts, GetGeofencesByRoute(route)[ds[a].geofence.id - 1], vehicle.vehicleId).detections
    ensures var ds := AnalyzeVehicleResult(geo, route, vehicle, Received(pts)).detections;
            forall a, b :: 0 <= a < b < |ds| ==> ds[a].geofence.id <= ds[b].geofence.id
  {
    var gs := GetGeofencesByRoute(route);
    RouteGeofencesShape(route);
    var minutes := MinutesForStart(vehicle.startTime);
    var ds := AnalyzeVehicleResult(geo, route, vehicle, Received(pts)).detections;
    TimedSpread(geo, pts, gs, vehicle.vehicleId, vehicle.startTime, minutes, ds);
  }

  /** Every detection of an analysis is stamped with the date and time of a
      point of the trace, and belongs to the analysed vehicle. */
  lemma AnalyzedTimestamps(geo: Geometry, route: string, vehicle: VehicleSchedule, outcome: FetchOutcome)
    ensures var ds := AnalyzeVehicleResult(geo, route, vehicle, outcome).detections;
            forall a :: 0 <= a < |ds| ==>
              && ds[a].timestamp == Timestamp(ds[a].toPoint)
              && outcome.Received? && ds[a].toPoint in outcome.listaTablas
              && ds[a].vehicleId == vehicle.vehicleId
  {
    if outcome.Received? && |outcome.listaTablas| > 0 {
      var pts := outcome.listaTablas;
      EveryDetectionTimed(geo, route, vehicle, pts);
      var ds := AnalyzeVehicleResult(geo, route, vehicle, outcome).detections;
      assert ds == AnalyzeVehicleResult(geo, route, vehicle, Received(pts)).detections;
      forall a | 0 <= a < |ds|
        ensures ds[a].timestamp == Timestamp(ds[a].toPoint) && ds[a].toPoint in pts && ds[a].vehicleId == vehicle.vehicleId
      {
        var i := ds[a].geofence.id - 1;
        AdaptiveTagging(geo, pts, GetGeofencesByRoute(route)[i], vehicle.vehicleId);
        assert ds[a].(endTime := None) in AdaptiveDetections(geo, pts, GetGeofencesByRoute(route)[i], vehicle.vehicleId).detections;
      }
    }
  }

  /** The analyses of a batch of vehicles, in schedule order. */
  function AnalyzeBatch(geo: Geometry, route: string, vehicles: seq<VehicleSchedule>, outcomes: seq<FetchOutcome>)
    : (results: seq<BatchAnalysisResult>)
    requires |vehicles| == |outcomes|
    ensures |results| == |vehicles|
  {
    seq(|vehicles|, k requires 0 <= k < |vehicles| => AnalyzeVehicleResult(geo, route, vehicles[k], outcomes[k]))
  }

  // ---------------------------------------------------------------- sendDataToAPI

  /** One record of the list posted to the dispatch service. */
  datatype OfflineRecord = OfflineRecord(
    codasig: string,
    deviceID: string,
    nomControl: string,
    horaInicio: string,
    horaEstimada: string,
    horaLlegada: string,
    volado: string,
    fecha: string)

  /** The record of one detection of one vehicle on the page's date; `None`
      when the timestamp has no time part, on which both the correction and
      the difference raise. */
  function RecordFor(fecha: string, result: BatchAnalysisResult, d: Detection): Option<OfflineRecord> {
    var arrival := ArrivalTime(d.timestamp);
    if arrival.None? then None
    else
      var adjusted := AdjustedTime(arrival.value, d.adaptiveRadius);
      Some(OfflineRecord(IntText(result.codigo), result.vehicleId, d.geofence.name, result.fechaini,
                         d.endTime.GetOr(""), adjusted, TimeDifference(d.endTime.GetOr(""), adjusted), fecha))
  }

  function RecordBuilder(fecha: string): (BatchAnalysisResult, Detection) -> Option<OfflineRecord> {
    (result, d) => RecordFor(fecha, result, d)
  }

  /** `sendDataToAPI` up to the request: the records of every detection of
      every vehicle with detections, or why nothing is posted. */
  method SendDataToApi(fecha: string, batchResults: seq<BatchAnalysisResult>) returns (r: Result<seq<OfflineRecord>, SendError>)
    ensures r == Posted(RecordBuilder(fecha), batchResults)
  {
    r := SendRecords(RecordBuilder(fecha), batchResults);
  }

  /** The record of a detection stamped "date time", neither part holding a
      space: it arrives at the point's time less the seconds for its radius,
      never before midnight, and it is late or early by the seconds between
      the expected time and that corrected time. */
  lemma RecordOfStamped(fecha: string, result: BatchAnalysisResult, d: Detection)
    requires d.timestamp == Timestamp(d.toPoint) && ' ' !in d.toPoint.fecha && ' ' !in d.toPoint.hora
    ensures RecordFor(fecha, result, d).Some?
    ensures var rec := RecordFor(fecha, result, d).value;
            && rec.codasig == IntText(result.codigo) && rec.deviceID == result.vehicleId
            && rec.nomControl == d.geofence.name && rec.horaInicio == result.fechaini && rec.fecha == fecha
            && rec.horaEstimada == d.endTime.GetOr("")
            && rec.horaLlegada == AdjustedTime(d.toPoint.hora, d.adaptiveRadius)
            && rec.volado == TimeDifference(rec.horaEstimada, rec.horaLlegada)
  {
    ArrivalOfTimestamp(d.toPoint);
    RecordOfArrival(fecha, result, d, d.toPoint.hora, AdjustedTime(d.toPoint.hora, d.adaptiveRadius), d.endTime.GetOr(""));
  }

  lemma RecordOfArrival(fecha: string, result: BatchAnalysisResult, d: Detection, arrival: string, adjusted: string, expected: string)
    requires ArrivalTime(d.timestamp) == Some(arrival) && adjusted == AdjustedTime(arrival, d.adaptiveRadius)
    requires expected == d.endTime.GetOr("")
    ensures RecordFor(fecha, result, d)
            == Some(OfflineRecord(IntText(result.codigo), result.vehicleId, d.geofence.name, result.fechaini,
                                  expected, adjusted, TimeDifference(expected, adjusted), fecha))
  {
  }

  /** When no GPS point of any trace has a space in its date or time, the
      records of a batch's analyses can always be built: one per detection. */
  lemma PostedOfAnalyses(fecha: string, geo: Geometry, route: string, vehicles: seq<VehicleSchedule>, outcomes: seq<FetchOutcome>)
    requires |vehicles| == |outcomes| > 0
    requires forall k, p :: 0 <= k < |outcomes| && outcomes[k].Received? && p in outcomes[k].listaTablas ==>
               ' ' !in p.fecha && ' ' !in p.hora
    ensures var results := AnalyzeBatch(geo, route, vehicles, outcomes);
            Posted(RecordBuilder(fecha), results).Success?
            && |Posted(RecordBuilder(fecha), results).value| == DetectionCount(results)
  {
    var results := AnalyzeBatch(geo, route, vehicles, outcomes);
    forall k, a | 0 <= k < |results| && 0 <= a < |results[k].detections|
      ensures RecordBuilder(fecha)(results[k], results[k].detections[a]).Some?
    {
      AnalyzedTimestamps(geo, route, vehicles[k], outcomes[k]);
      RecordOfStamped(fecha, results[k], results[k].detections[a]);
    }
    PostedWhenAllBuilt(RecordBuilder(fecha), results);
  }
}
