/** The geofence reconciliation page (src/app/geocercas/page.tsx): route
    schedules, the signed h/m/s difference, the fixed routes, trajectory
    classification against a circular zone, the choice of one best
    detection, the widening radius search, the per-vehicle analysis, the
    grouping by geofence and the records sent to the dispatch backend. */
module Geocercas {
  import opened Wrappers
  import opened Text
  import opened Clock
  import opened Schedule
  import opened Fleet

  // ---------------------------------------------------------------- minute tables

  /** `getDynamicMinutesForRoute5`: 6:00:00 to 6:43:59. */
  const Route5Ranges: seq<TimeRange> := [
    TimeRange(At(6, 0, 0), At(6, 7, 59), [9, 36, 52, 68, 85, 115, 123]),
    TimeRange(At(6, 8, 0), At(6, 14, 59), [10, 36, 53, 69, 87, 117, 125]),
    TimeRange(At(6, 15, 0), At(6, 21, 59), [10, 37, 54, 70, 88, 118, 128]),
    TimeRange(At(6, 22, 0), At(6, 28, 59), [10, 39, 56, 72, 90, 120, 130]),
    TimeRange(At(6, 29, 0), At(6, 35, 59), [10, 41, 58, 74, 92, 122, 132]),
    TimeRange(At(6, 36, 0), At(6, 42, 59), [11, 44, 60, 76, 93, 123, 133]),
    TimeRange(At(6, 43, 0), At(6, 43, 59), [12, 45, 64, 85, 105, 137, 147])
  ]

  /** The list used outside every range: the last row's. */
  const Route5Fallback: seq<nat> := [12, 45, 64, 85, 105, 137, 147]

  /** `getDynamicMinutesForRoute6`: 4:55:00 to 7:25:59. */
  const Route6Ranges: seq<TimeRange> := [
    TimeRange(At(4, 55, 0), At(5, 1, 59), [4, 13, 32, 46, 56, 76, 96]),
    TimeRange(At(5, 2, 0), At(5, 8, 59), [4, 13, 32, 46, 57, 77, 97]),
    TimeRange(At(5, 9, 0), At(5, 14, 59), [4, 13, 33, 47, 57, 77, 97]),
    TimeRange(At(5, 15, 0), At(5, 19, 59), [4, 13, 34, 48, 58, 78, 98]),
    TimeRange(At(5, 20, 0), At(5, 24, 59), [4, 13, 34, 49, 60, 80, 100]),
    TimeRange(At(5, 25, 0), At(5, 29, 59), [4, 13, 35, 50, 62, 82, 102]),
    TimeRange(At(5, 30, 0), At(5, 34, 59), [4, 13, 35, 51, 62, 82, 102]),
    TimeRange(At(5, 35, 0), At(5, 39, 59), [4, 13, 35, 51, 62, 83, 103]),
    TimeRange(At(5, 40, 0), At(5, 44, 59), [4, 13, 36, 52, 62, 83, 103]),
    TimeRange(At(5, 45, 0), At(5, 49, 59), [4, 13, 38, 53, 63, 84, 104]),
    TimeRange(At(5, 50, 0), At(5, 54, 59), [5, 14, 38, 54, 64, 85, 105]),
    TimeRange(At(5, 55, 0), At(5, 59, 59), [5, 15, 39, 55, 65, 87, 107]),
    TimeRange(At(6, 0, 0), At(6, 4, 59), [5, 15, 40, 56, 66, 88, 108]),
    TimeRange(At(6, 5, 0), At(6, 9, 59), [5, 15, 41, 58, 68, 90, 110]),
    TimeRange(At(6, 10, 0), At(6, 14, 59), [5, 15, 41, 59, 69, 92, 112]),
    TimeRange(At(6, 15, 0), At(6, 19, 59), [5, 15, 42, 60, 70, 94, 114]),
    TimeRange(At(6, 20, 0), At(6, 24, 59), [5, 15, 43, 61, 71, 96, 116]),
    TimeRange(At(6, 25, 0), At(6, 29, 59), [5, 15, 44, 63, 73, 98, 118]),
    TimeRange(At(6, 30, 0), At(6, 34, 59), [5, 15, 45, 64, 74, 100, 120]),
    TimeRange(At(6, 35, 0), At(6, 39, 59), [5, 15, 46, 66, 76, 102, 122]),
    TimeRange(At(6, 40, 0), At(6, 44, 59), [5, 15, 47, 67, 78, 105, 125]),
    TimeRange(At(6, 45, 0), At(6, 49, 59), [5, 15, 48, 68, 80, 107, 127]),
    TimeRange(At(6, 50, 0), At(6, 54, 59), [5, 15, 48, 68, 82, 110, 130]),
    TimeRange(At(6, 55, 0), At(6, 59, 59), [5, 15, 48, 68, 84, 112, 132]),
    TimeRange(At(7, 0, 0), At(7, 4, 59), [5, 15, 48, 68, 85, 115, 135]),
    TimeRange(At(7, 5, 0), At(7, 9, 59), [5, 15, 48, 68, 86, 116, 136]),
    TimeRange(At(7, 10, 0), At(7, 14, 59), [5, 15, 48, 68, 87, 117, 137]),
    TimeRange(At(7, 15, 0), At(7, 19, 59), [5, 15, 48, 68, 88, 118, 138]),
    TimeRange(At(7, 20, 0), At(7, 24, 59), [5, 15, 48, 68, 88, 118, 138]),
    TimeRange(At(7, 25, 0), At(7, 25, 59), [5, 15, 48, 72, 92, 122, 142])
  ]

  const Route6Fallback: seq<nat> := [5, 15, 48, 72, 92, 122, 142]

  function GetDynamicMinutesForRoute5(hours: nat, minutes: nat, seconds: nat): (r: seq<nat>)
    ensures |r| == 7
  {
    Route5Shape();
    LookupWidth(Route5Ranges, At(hours, minutes, seconds), Route5Fallback, 7);
    Lookup(Route5Ranges, At(hours, minutes, seconds), Route5Fallback)
  }

  function GetDynamicMinutesForRoute6(hours: nat, minutes: nat, seconds: nat): (r: seq<nat>)
    ensures |r| == 7
  {
    Route6Shape();
    LookupWidth(Route6Ranges, At(hours, minutes, seconds), Route6Fallback, 7);
    Lookup(Route6Ranges, At(hours, minutes, seconds), Route6Fallback)
  }

  /** The route-5 table is ascending and gap-free, every row has one entry
      per geofence, and its fallback is its last row. */
  lemma Route5Shape()
    ensures Contiguous(Route5Ranges) && AllOfWidth(Route5Ranges, 7)
    ensures Route5Fallback == Route5Ranges[|Route5Ranges| - 1].minutes
  {
    assert ChainFrom(Route5Ranges, 7, 7);
    assert ChainFrom(Route5Ranges, 6, 7);
    assert ChainFrom(Route5Ranges, 5, 7);
    assert ChainFrom(Route5Ranges, 4, 7);
    assert ChainFrom(Route5Ranges, 3, 7);
    assert ChainFrom(Route5Ranges, 2, 7);
    assert ChainFrom(Route5Ranges, 1, 7);
    assert ChainFrom(Route5Ranges, 0, 7);
    ChainShape(Route5Ranges, 7);
  }

  /** The route-6 table is ascending and gap-free from its sixteenth row on. */
  lemma Route6Tail()
    ensures ChainFrom(Route6Ranges, 15, 7)
  {
    assert ChainFrom(Route6Ranges, 30, 7);
    assert ChainFrom(Route6Ranges, 29, 7);
    assert ChainFrom(Route6Ranges, 28, 7);
    assert ChainFrom(Route6Ranges, 27, 7);
    assert ChainFrom(Route6Ranges, 26, 7);
    assert ChainFrom(Route6Ranges, 25, 7);
    assert ChainFrom(Route6Ranges, 24, 7);
    assert ChainFrom(Route6Ranges, 23, 7);
    assert ChainFrom(Route6Ranges, 22, 7);
    assert ChainFrom(Route6Ranges, 21, 7);
    assert ChainFrom(Route6Ranges, 20, 7);
    assert ChainFrom(Route6Ranges, 19, 7);
    assert ChainFrom(Route6Ranges, 18, 7);
    assert ChainFrom(Route6Ranges, 17, 7);
    assert ChainFrom(Route6Ranges, 16, 7);
    assert ChainFrom(Route6Ranges, 15, 7);
  }

  /** The route-6 table is ascending and gap-free from its first row on. */
  lemma Route6Chain()
    ensures ChainFrom(Route6Ranges, 0, 7)
  {
    Route6Tail();
    assert ChainFrom(Route6Ranges, 14, 7);
    assert ChainFrom(Route6Ranges, 13, 7);
    assert ChainFrom(Route6Ranges, 12, 7);
    assert ChainFrom(Route6Ranges, 11, 7);
    assert ChainFrom(Route6Ranges, 10, 7);
    assert ChainFrom(Route6Ranges, 9, 7);
    assert ChainFrom(Route6Ranges, 8, 7);
    assert ChainFrom(Route6Ranges, 7, 7);
    assert ChainFrom(Route6Ranges, 6, 7);
    assert ChainFrom(Route6Ranges, 5, 7);
    assert ChainFrom(Route6Ranges, 4, 7);
    assert ChainFrom(Route6Ranges, 3, 7);
    assert ChainFrom(Route6Ranges, 2, 7);
    assert ChainFrom(Route6Ranges, 1, 7);
    assert ChainFrom(Route6Ranges, 0, 7);
  }

  /** The route-6 table is ascending and gap-free, every row has one entry
      per geofence, and its fallback is its last row. */
  lemma Route6Shape()
    ensures Contiguous(Route6Ranges) && AllOfWidth(Route6Ranges, 7)
    ensures Route6Fallback == Route6Ranges[|Route6Ranges| - 1].minutes
  {
    Route6Chain();
    ChainShape(Route6Ranges, 7);
  }

  /** A time inside a route-5 row gets that row, and only that row holds it;
      a time before 6:00:00 or after 6:43:59 gets the fallback. */
  lemma Route5Lookup(hours: nat, minutes: nat, seconds: nat)
    ensures var t := At(hours, minutes, seconds);
            forall i :: 0 <= i < |Route5Ranges| && Holds(Route5Ranges[i], t) ==>
              GetDynamicMinutesForRoute5(hours, minutes, seconds) == Route5Ranges[i].minutes
    ensures var t := At(hours, minutes, seconds);
            (t < At(6, 0, 0) || t > At(6, 43, 59)) ==>
              GetDynamicMinutesForRoute5(hours, minutes, seconds) == Route5Fallback
  {
    var t := At(hours, minutes, seconds);
    Route5Shape();
    forall i | 0 <= i < |Route5Ranges| && Holds(Route5Ranges[i], t)
      ensures GetDynamicMinutesForRoute5(hours, minutes, seconds) == Route5Ranges[i].minutes
    {
      LookupInRow(Route5Ranges, i, t, Route5Fallback);
    }
    if t < At(6, 0, 0) || t > At(6, 43, 59) {
      LookupOutside(Route5Ranges, t, Route5Fallback);
    }
  }

  /** A time inside a route-6 row gets that row; a time before 4:55:00 or
      after 7:25:59 gets the fallback. */
  lemma Route6Lookup(hours: nat, minutes: nat, seconds: nat)
    ensures var t := At(hours, minutes, seconds);
            forall i :: 0 <= i < |Route6Ranges| && Holds(Route6Ranges[i], t) ==>
              GetDynamicMinutesForRoute6(hours, minutes, seconds) == Route6Ranges[i].minutes
    ensures var t := At(hours, minutes, seconds);
            (t < At(4, 55, 0) || t > At(7, 25, 59)) ==>
              GetDynamicMinutesForRoute6(hours, minutes, seconds) == Route6Fallback
  {
    var t := At(hours, minutes, seconds);
    Route6Shape();
    forall i | 0 <= i < |Route6Ranges| && Holds(Route6Ranges[i], t)
      ensures GetDynamicMinutesForRoute6(hours, minutes, seconds) == Route6Ranges[i].minutes
    {
      LookupInRow(Route6Ranges, i, t, Route6Fallback);
    }
    if t < At(4, 55, 0) || t > At(7, 25, 59) {
      LookupOutside(Route6Ranges, t, Route6Fallback);
    }
  }

  /** The minutes `analyzeVehicle` uses for a start time: the route-5 table
      when the page's route is "5", the route-6 table otherwise; a start
      time whose hours or minutes read as `NaN` falls outside every range. */
  function MinutesForStart(route: string, startTime: string): (r: seq<nat>)
    ensures |r| == 7
  {
    var fields := ClockFields(startTime);
    if fields.None? then (if route == "5" then Route5Fallback else Route6Fallback)
    else if route == "5" then GetDynamicMinutesForRoute5(fields.value.0, fields.value.1, 0)
    else GetDynamicMinutesForRoute6(fields.value.0, fields.value.1, 0)
  }

  /** A readable start "H:M" takes its row at H:M:00: from the route-5 table
      when the route is "5" and from the route-6 table otherwise; the row of
      the range that holds it, or the table's fallback when none does. */
  lemma MinutesForStartRow(route: string, startTime: string, h: nat, m: nat)
    requires ClockFields(startTime) == Some((h, m))
    ensures route == "5" ==>
              && (forall i :: 0 <= i < |Route5Ranges| && Holds(Route5Ranges[i], At(h, m, 0)) ==>
                    MinutesForStart(route, startTime) == Route5Ranges[i].minutes)
              && ((forall i :: 0 <= i < |Route5Ranges| ==> !Holds(Route5Ranges[i], At(h, m, 0))) ==>
                    MinutesForStart(route, startTime) == Route5Fallback)
    ensures route != "5" ==>
              && (forall i :: 0 <= i < |Route6Ranges| && Holds(Route6Ranges[i], At(h, m, 0)) ==>
                    MinutesForStart(route, startTime) == Route6Ranges[i].minutes)
              && ((forall i :: 0 <= i < |Route6Ranges| ==> !Holds(Route6Ranges[i], At(h, m, 0))) ==>
                    MinutesForStart(route, startTime) == Route6Fallback)
  {
    if route == "5" {
      Route5Lookup(h, m, 0);
    } else {
      Route6Lookup(h, m, 0);
    }
  }

  /** A start time whose hours or minutes do not read as numbers takes the
      route's fallback row. */
  lemma MinutesForUnreadableStart(route: string, startTime: string)
    requires ClockFields(startTime).None?
    ensures MinutesForStart(route, startTime) == (if route == "5" then Route5Fallback else Route6Fallback)
  {
  }

  // ---------------------------------------------------------------- calculateTimeDifference

  const DifferenceUnits: Units := Units("h", "m", "s")

  /** `calculateTimeDifference`: "+" or "-" and the h/m/s breakdown of how
      far the end lies from the start. */
  function CalculateTimeDifference(startTime: string, endTime: string): (r: string)
    ensures |r| >= 2
    ensures r[0] == '+' <==> TimeToSeconds(endTime) >= TimeToSeconds(startTime)
    ensures r[0] == '-' <==> TimeToSeconds(endTime) < TimeToSeconds(startTime)
    ensures ReadTimeDifference(r) == Some(TimeToSeconds(endTime) - TimeToSeconds(startTime))
  {
    SignedDifferenceRoundTrip(TimeToSeconds(endTime) - TimeToSeconds(startTime));
    SignedDifference(TimeToSeconds(endTime) - TimeToSeconds(startTime))
  }

  /** The text of a signed number of seconds, its sign always written. */
  function SignedDifference(raw: int): (r: string)
    ensures |r| >= 2
    ensures r[0] == '+' <==> raw >= 0
    ensures r[0] == '-' <==> raw < 0
  {
    var prefix := if raw < 0 then "-" else "+";
    var text := HmsText(if raw < 0 then -raw else raw, DifferenceUnits);
    assert |Token(0, "s")| >= 2;
    prefix + text
  }

  /** Reads a signed difference back into seconds. */
  function ReadTimeDifference(text: string): Option<int> {
    if |text| == 0 || (text[0] != '+' && text[0] != '-') then None
    else
      match ReadHmsText(text[1..], DifferenceUnits)
      case None => None
      case Some(n) => Some(if text[0] == '-' then -(n as int) else n as int)
  }

  /** The text of any signed difference reads back as that difference. */
  lemma SignedDifferenceRoundTrip(raw: int)
    ensures ReadTimeDifference(SignedDifference(raw)) == Some(raw)
  {
    var magnitude: nat := if raw < 0 then -raw else raw;
    var r := SignedDifference(raw);
    assert r[1..] == HmsText(magnitude, DifferenceUnits);
    ReadHmsTextRoundTrip(magnitude, DifferenceUnits);
  }

  /** Equal times give "+0s". */
  lemma EqualTimesGivePlusZero(time: string)
    ensures CalculateTimeDifference(time, time) == "+0s"
  {
  }

  // ---------------------------------------------------------------- fixed routes

  /** The seven control points of route 5. */
  const Route5Geofences: seq<Geofence> := [
    Geofence(1, "VENEZUELA", -12.063352, -77.105005, 10, true),
    Geofence(2, "GARZON", -12.069217, -77.047214, 10, true),
    Geofence(3, "OBRERO", -12.063990, -77.024997, 10, true),
    Geofence(4, "AV SAN JUAN", -12.075216, -77.001256, 10, true),
    Geofence(5, "MADRID", -12.107674, -76.992534, 10, true),
    Geofence(6, "CT", -12.164936, -76.972806, 10, true),
    Geofence(7, "GRIFO MILAGRO", -12.172350, -76.965037, 10, true)
  ]

  /** The seven control points of route 6. */
  const Route6Geofences: seq<Geofence> := [
    Geofence(1, "PACIFICO", -12.175959, -76.957626, 10, true),
    Geofence(2, "CT", -12.165202, -76.972420, 10, true),
    Geofence(3, "MADRID", -12.108237, -76.992485, 10, true),
    Geofence(4, "ARRIOLA", -12.077288, -77.009712, 10, true),
    Geofence(5, "TRANSITO", -12.061889, -77.019737, 10, true),
    Geofence(6, "BOLIVAR", -12.071988, -77.063782, 10, true),
    Geofence(7, "INSURGENTES", -12.063117, -77.104271, 10, true)
  ]

  /** `getGeofencesByRoute`: route "5" and route "6" have their own lists;
      any other route falls back, by a recursive call, to route "5". */
  function GetGeofencesByRoute(route: string): (r: seq<Geofence>)
    ensures r == Route5Geofences || r == Route6Geofences
    ensures r == Route6Geofences <==> route == "6"
    decreases if route == "5" then 0 else 1
  {
    if route == "5" then Route5Geofences
    else if route == "6" then Route6Geofences
    else GetGeofencesByRoute("5")
  }

  /** Both routes list seven active geofences of radius 10 numbered 1 to 7. */
  lemma RouteGeofencesShape(route: string)
    ensures var gs := GetGeofencesByRoute(route);
            |gs| == 7 && NumberedFromOne(gs) &&
            forall i :: 0 <= i < |gs| ==> gs[i].radius == 10 && gs[i].active
  {
  }

  // ---------------------------------------------------------------- analyzeTrajectoryIntersection

  predicate Inside(geo: Geometry, g: Geofence, p: GpsPoint) {
    CenterDistance(geo, g, p) <= g.radius as real
  }

  /** What one consecutive pair of points yields: a boundary crossing, a
      segment that passes within the radius with both ends outside, or a
      pair found near the zone. */
  function PairDetection(geo: Geometry, g: Geofence, p1: GpsPoint, p2: GpsPoint, vehicleId: string): Option<Detection> {
    var d1 := CenterDistance(geo, g, p1);
    var d2 := CenterDistance(geo, g, p2);
    var radius := g.radius as real;
    if (d1 <= radius && d2 > radius) || (d1 > radius && d2 <= radius) then
      Some(Detection(if d1 <= radius then Exit else Entry, p1, p2, Round(d1), Round(d2), None,
                     g, High, Timestamp(p2), vehicleId, None, None))
    else if d1 > radius && d2 > radius then
      var minDistance := geo.lineDistance(g.centerLon, g.centerLat, p1.longitude, p1.latitude, p2.longitude, p2.latitude);
      if minDistance <= radius then
        Some(Detection(PassThrough, p1, p2, Round(d1), Round(d2), Some(Round(minDistance)),
                       g, Medium, Timestamp(p2), vehicleId, None, None))
      else None
    else if d1 <= radius * 1.2 || d2 <= radius * 1.2 then
      if d1 <= radius || d2 <= radius then
        Some(Detection(NearZone, p1, p2, Round(d1), Round(d2), None,
                       g, High, Timestamp(p2), vehicleId, None, None))
      else None
    else None
  }

  /** The classification of a pair, stated on which of its points lie in the
      zone: a crossing is an entry or an exit by its direction, two points
      inside are near the zone (the 1.2-radius test never decides anything),
      and two points outside pass through exactly when the segment comes
      within the radius. */
  lemma PairClassification(geo: Geometry, g: Geofence, p1: GpsPoint, p2: GpsPoint, vehicleId: string)
    ensures var r := PairDetection(geo, g, p1, p2, vehicleId);
            var in1, in2 := Inside(geo, g, p1), Inside(geo, g, p2);
            var md := geo.lineDistance(g.centerLon, g.centerLat, p1.longitude, p1.latitude, p2.longitude, p2.latitude);
            && (r.Some? && r.value.kind == Entry <==> !in1 && in2)
            && (r.Some? && r.value.kind == Exit <==> in1 && !in2)
            && (r.Some? && r.value.kind == NearZone <==> in1 && in2)
            && (r.Some? && r.value.kind == PassThrough <==> !in1 && !in2 && md <= g.radius as real)
            && (r.None? <==> !in1 && !in2 && md > g.radius as real)
  {
  }

  /** Every detection of a pair records the pair, the zone, the rounded
      distances and the second point's timestamp; only a pass-through has
      medium confidence and a closest distance. */
  lemma PairDetectionFields(geo: Geometry, g: Geofence, p1: GpsPoint, p2: GpsPoint, vehicleId: string)
    requires PairDetection(geo, g, p1, p2, vehicleId).Some?
    ensures var d := PairDetection(geo, g, p1, p2, vehicleId).value;
            var md := geo.lineDistance(g.centerLon, g.centerLat, p1.longitude, p1.latitude, p2.longitude, p2.latitude);
            && d.fromPoint == p1 && d.toPoint == p2 && d.geofence == g && d.vehicleId == vehicleId
            && d.distanceFrom == Round(CenterDistance(geo, g, p1))
            && d.distanceTo == Round(CenterDistance(geo, g, p2))
            && d.timestamp == Timestamp(p2)
            && (d.confidence == Medium <==> d.kind == PassThrough)
            && (d.confidence == High <==> d.kind != PassThrough)
            && (d.minDistanceToCenter == if d.kind == PassThrough then Some(Round(md)) else None)
            && d.adaptiveRadius.None? && d.endTime.None?
  {
  }

  function OptionToSeq<T>(o: Option<T>): (s: seq<T>)
    ensures |s| <= 1 && (o.Some? <==> |s| == 1) && (o.Some? ==> s == [o.value])
  {
    if o.Some? then [o.value] else []
  }

  /** The detections of the pairs (j, j + 1) with j < i, in trace order. */
  function PairsBefore(geo: Geometry, pts: seq<GpsPoint>, g: Geofence, vehicleId: string, i: nat): (ds: seq<Detection>)
    requires i == 0 || i < |pts|
    ensures |ds| <= i
  {
    if i == 0 then []
    else PairsBefore(geo, pts, g, vehicleId, i - 1) + OptionToSeq(PairDetection(geo, g, pts[i - 1], pts[i], vehicleId))
  }

  /** What `analyzeTrajectoryIntersection` returns for a trace. */
  function TrajectoryDetections(geo: Geometry, pts: seq<GpsPoint>, g: Geofence, vehicleId: string): (ds: seq<Detection>)
    ensures |pts| <= 1 ==> ds == []
    ensures |pts| >= 1 ==> |ds| <= |pts| - 1
  {
    if |pts| == 0 then [] else PairsBefore(geo, pts, g, vehicleId, |pts| - 1)
  }

  /** `analyzeTrajectoryIntersection`: one pass over the consecutive pairs,
      pushing what each pair yields. */
  method AnalyzeTrajectoryIntersection(geo: Geometry, pts: seq<GpsPoint>, g: Geofence, vehicleId: string)
    returns (detections: seq<Detection>)
    ensures detections == TrajectoryDetections(geo, pts, g, vehicleId)
  {
    detections := [];
    var i := 0;
    while i < |pts| - 1
      invariant 0 <= i && (i == 0 || i < |pts|)
      invariant detections == PairsBefore(geo, pts, g, vehicleId, i)
    {
      var found := PairDetection(geo, g, pts[i], pts[i + 1], vehicleId);
      if found.Some? {
        detections := detections + [found.value];
      }
      i := i + 1;
    }
  }

  /** Earlier pairs' detections come first: the detections of a shorter
      stretch of the trace are a prefix of a longer one's. */
  lemma {:induction false} PairsBeforePrefix(geo: Geometry, pts: seq<GpsPoint>, g: Geofence, vehicleId: string, i: nat, j: nat)
    requires i <= j && (j == 0 || j < |pts|)
    ensures PairsBefore(geo, pts, g, vehicleId, i) <= PairsBefore(geo, pts, g, vehicleId, j)
    decreases j - i
  {
    if i < j {
      PairsBeforePrefix(geo, pts, g, vehicleId, i, j - 1);
    }
  }

  /** A detection is in the result exactly when it is what some consecutive pair yields. */
  lemma {:induction false} PairsBeforeMembers(geo: Geometry, pts: seq<GpsPoint>, g: Geofence, vehicleId: string, i: nat, d: Detection)
    requires i == 0 || i < |pts|
    ensures d in PairsBefore(geo, pts, g, vehicleId, i) <==>
            exists j :: 0 <= j < i && PairDetection(geo, g, pts[j], pts[j + 1], vehicleId) == Some(d)
  {
    if i > 0 {
      PairsBeforeMembers(geo, pts, g, vehicleId, i - 1, d);
    }
  }

  lemma TrajectoryMembers(geo: Geometry, pts: seq<GpsPoint>, g: Geofence, vehicleId: string, d: Detection)
    ensures d in TrajectoryDetections(geo, pts, g, vehicleId) <==>
            exists j :: 0 <= j < |pts| - 1 && PairDetection(geo, g, pts[j], pts[j + 1], vehicleId) == Some(d)
  {
    if |pts| > 0 {
      PairsBeforeMembers(geo, pts, g, vehicleId, |pts| - 1, d);
    }
  }

  // ---------------------------------------------------------------- getBestDetection

  /** The mean of a detection's two rounded distances. */
  function AvgDistance(d: Detection): real {
    (d.distanceFrom + d.distanceTo) as real / 2.0
  }

  /** The tie-break ranking: entry, near zone, pass-through, exit. */
  function TypeScore(kind: DetectionType): nat {
    match kind
    case Entry => 4
    case NearZone => 3
    case PassThrough => 2
    case Exit => 1
  }

  /** Whether the loop of `getBestDetection` replaces `best` by `d`. */
  predicate Replaces(d: Detection, best: Detection) {
    AvgDistance(d) < AvgDistance(best) ||
    (AvgDistance(d) == AvgDistance(best) && TypeScore(d.kind) > TypeScore(best.kind))
  }

  /** The index the loop holds after visiting ds[0], ..., ds[n - 1]. */
  function BestIndexUpTo(ds: seq<Detection>, n: nat): (k: nat)
    requires 1 <= n <= |ds|
    ensures k < n
  {
    if n == 1 then 0
    else
      var k := BestIndexUpTo(ds, n - 1);
      if Replaces(ds[n - 1], ds[k]) then n - 1 else k
  }

  function BestDetection(ds: seq<Detection>): (r: Option<Detection>)
    ensures r.None? <==> ds == []
    ensures r.Some? ==> r.value in ds
  {
    if |ds| == 0 then None else Some(ds[BestIndexUpTo(ds, |ds|)])
  }

  /** `getBestDetection`: one pass keeping the detection with the smallest
      mean distance, replacing it on a tie only by a higher-ranked type. */
  method GetBestDetection(ds: seq<Detection>) returns (best: Option<Detection>)
    ensures best == BestDetection(ds)
  {
    if |ds| == 0 {
      return None;
    }
    if |ds| == 1 {
      return Some(ds[0]);
    }
    var bestDetection := ds[0];
    var minAvgDistance := AvgDistance(ds[0]);
    for i := 0 to |ds|
      invariant bestDetection == ds[BestIndexUpTo(ds, if i == 0 then 1 else i)]
      invariant minAvgDistance == AvgDistance(bestDetection)
    {
      var avgDistance := AvgDistance(ds[i]);
      if avgDistance < minAvgDistance {
        minAvgDistance := avgDistance;
        bestDetection := ds[i];
      } else if avgDistance == minAvgDistance {
        if TypeScore(ds[i].kind) > TypeScore(bestDetection.kind) {
          bestDetection := ds[i];
        }
      }
    }
    return Some(bestDetection);
  }

  /** Index k is the best of the first n detections: no mean distance is
      smaller, no detection with the same mean ranks higher, and no earlier
      detection has both the same mean and the same rank. */
  predicate IsBestAt(ds: seq<Detection>, n: nat, k: nat)
    requires n <= |ds|
  {
    k < n &&
    (forall j :: 0 <= j < n ==> AvgDistance(ds[k]) <= AvgDistance(ds[j])) &&
    (forall j :: 0 <= j < n && AvgDistance(ds[j]) == AvgDistance(ds[k]) ==> TypeScore(ds[j].kind) <= TypeScore(ds[k].kind)) &&
    (forall j :: 0 <= j < k ==> !(AvgDistance(ds[j]) == AvgDistance(ds[k]) && TypeScore(ds[j].kind) == TypeScore(ds[k].kind)))
  }

  lemma {:induction false} BestIndexIsBest(ds: seq<Detection>, n: nat)
    requires 1 <= n <= |ds|
    ensures IsBestAt(ds, n, BestIndexUpTo(ds, n))
  {
    if n > 1 {
      BestIndexIsBest(ds, n - 1);
    }
  }

  /** At most one index is the best, so the loop's choice is the only one. */
  lemma BestIsUnique(ds: seq<Detection>, n: nat, k1: nat, k2: nat)
    requires n <= |ds| && IsBestAt(ds, n, k1) && IsBestAt(ds, n, k2)
    ensures k1 == k2
  {
    BestTies(ds, n, k1, k2);
  }

  lemma BestTies(ds: seq<Detection>, n: nat, k1: nat, k2: nat)
    requires n <= |ds| && IsBestAt(ds, n, k1) && IsBestAt(ds, n, k2)
    ensures AvgDistance(ds[k1]) == AvgDistance(ds[k2])
    ensures TypeScore(ds[k1].kind) == TypeScore(ds[k2].kind)
  {
  }

  /** The detection `getBestDetection` returns for a non-empty list is the
      earliest of those with the smallest mean distance and, among them,
      the highest-ranked type. */
  lemma BestDetectionChoice(ds: seq<Detection>)
    requires |ds| > 0
    ensures exists k :: 0 <= k < |ds| && IsBestAt(ds, |ds|, k) && BestDetection(ds) == Some(ds[k])
  {
    BestIndexIsBest(ds, |ds|);
  }

  // ---------------------------------------------------------------- analyzeWithAdaptiveRadius

  const RadiusSteps: seq<nat> := [10, 20, 30, 40, 50, 100, 200, 500]

  datatype AdaptiveResult = AdaptiveResult(detection: Option<Detection>, usedRadius: nat)

  /** The first of `steps` at which the trace yields a detection, with the
      best detection there; no detection and radius 10 when none does. */
  function AdaptiveOver(geo: Geometry, pts: seq<GpsPoint>, g: Geofence, vehicleId: string, steps: seq<nat>): AdaptiveResult
  {
    if |steps| == 0 then AdaptiveResult(None, 10)
    else
      var best := BestDetection(TrajectoryDetections(geo, pts, g.(radius := steps[0]), vehicleId));
      if best.Some? then AdaptiveResult(Some(Tagged(best.value, g, steps[0])), steps[0])
      else AdaptiveOver(geo, pts, g, vehicleId, steps[1..])
  }

  function AdaptiveDetection(geo: Geometry, pts: seq<GpsPoint>, g: Geofence, vehicleId: string): AdaptiveResult {
    AdaptiveOver(geo, pts, g, vehicleId, RadiusSteps)
  }

  /** `analyzeWithAdaptiveRadius`: tries each radius step in turn and returns
      at the first one whose best detection exists. */
  method AnalyzeWithAdaptiveRadius(geo: Geometry, pts: seq<GpsPoint>, g: Geofence, vehicleId: string)
    returns (r: AdaptiveResult)
    ensures r == AdaptiveDetection(geo, pts, g, vehicleId)
  {
    for i := 0 to |RadiusSteps|
      invariant AdaptiveOver(geo, pts, g, vehicleId, RadiusSteps[i..]) == AdaptiveDetection(geo, pts, g, vehicleId)
    {
      var radius := RadiusSteps[i];
      var adaptedGeofence := g.(radius := radius);
      var detections := AnalyzeTrajectoryIntersection(geo, pts, adaptedGeofence, vehicleId);
      var bestDetection := GetBestDetection(detections);
      if bestDetection.Some? {
        return AdaptiveResult(Some(Tagged(bestDetection.value, g, radius)), radius);
      }
      assert RadiusSteps[i..][1..] == RadiusSteps[i + 1..];
    }
    return AdaptiveResult(None, 10);
  }

  /** No step before the `i`-th yields a detection. */
  predicate NothingBefore(geo: Geometry, pts: seq<GpsPoint>, g: Geofence, vehicleId: string, steps: seq<nat>, i: nat)
    requires i <= |steps|
  {
    forall j :: 0 <= j < i ==> TrajectoryDetections(geo, pts, g.(radius := steps[j]), vehicleId) == []
  }

  /** The result was found at the `i`-th step: the first that yields a
      detection, tagged from the best one there. */
  predicate SettlesAt(geo: Geometry, pts: seq<GpsPoint>, g: Geofence, vehicleId: string, steps: seq<nat>,
                      r: AdaptiveResult, i: nat) {
    && i < |steps| && r.usedRadius == steps[i] && r.detection.Some?
    && NothingBefore(geo, pts, g, vehicleId, steps, i)
    && BestDetection(TrajectoryDetections(geo, pts, g.(radius := steps[i]), vehicleId)).Some?
    && r.detection.value
       == Tagged(BestDetection(TrajectoryDetections(geo, pts, g.(radius := steps[i]), vehicleId)).value, g, steps[i])
  }

  /** The search settles on the smallest step that yields a detection: every
      earlier step yields none, the detection is the best one at that step,
      and its zone is the original one with only the radius changed. With
      no step yielding anything, the result is no detection and radius 10. */
  lemma {:induction false} AdaptiveSmallestStep(geo: Geometry, pts: seq<GpsPoint>, g: Geofence, vehicleId: string, steps: seq<nat>)
    ensures var r := AdaptiveOver(geo, pts, g, vehicleId, steps);
            r.detection.Some? ==> exists i :: SettlesAt(geo, pts, g, vehicleId, steps, r, i)
    ensures var r := AdaptiveOver(geo, pts, g, vehicleId, steps);
            r.detection.None? ==> r.usedRadius == 10 && NothingBefore(geo, pts, g, vehicleId, steps, |steps|)
  {
    if |steps| > 0 {
      var r := AdaptiveOver(geo, pts, g, vehicleId, steps);
      if BestDetection(TrajectoryDetections(geo, pts, g.(radius := steps[0]), vehicleId)).Some? {
        SettlesAtFirst(geo, pts, g, vehicleId, steps, r);
      } else {
        AdaptiveSmallestStep(geo, pts, g, vehicleId, steps[1..]);
        if r.detection.Some? {
          var i: nat :| SettlesAt(geo, pts, g, vehicleId, steps[1..], r, i);
          SettlesAtShift(geo, pts, g, vehicleId, steps, r, i);
        } else {
          NothingBeforeShift(geo, pts, g, vehicleId, steps, |steps| - 1);
        }
      }
    }
  }

  lemma SettlesAtFirst(geo: Geometry, pts: seq<GpsPoint>, g: Geofence, vehicleId: string, steps: seq<nat>, r: AdaptiveResult)
    requires |steps| > 0 && BestDetection(TrajectoryDetections(geo, pts, g.(radius := steps[0]), vehicleId)).Some?
    requires r == AdaptiveOver(geo, pts, g, vehicleId, steps)
    ensures SettlesAt(geo, pts, g, vehicleId, steps, r, 0)
  {
  }

  lemma SettlesAtShift(geo: Geometry, pts: seq<GpsPoint>, g: Geofence, vehicleId: string, steps: seq<nat>, r: AdaptiveResult, i: nat)
    requires |steps| > 0 && TrajectoryDetections(geo, pts, g.(radius := steps[0]), vehicleId) == []
    requires SettlesAt(geo, pts, g, vehicleId, steps[1..], r, i)
    ensures SettlesAt(geo, pts, g, vehicleId, steps, r, i + 1)
  {
    NothingBeforeShift(geo, pts, g, vehicleId, steps, i);
    assert steps[i + 1] == steps[1..][i];
  }

  lemma NothingBeforeShift(geo: Geometry, pts: seq<GpsPoint>, g: Geofence, vehicleId: string, steps: seq<nat>, i: nat)
    requires i < |steps| && TrajectoryDetections(geo, pts, g.(radius := steps[0]), vehicleId) == []
    requires NothingBefore(geo, pts, g, vehicleId, steps[1..], i)
    ensures NothingBefore(geo, pts, g, vehicleId, steps, i + 1)
  {
    forall j | 0 <= j < i + 1
      ensures TrajectoryDetections(geo, pts, g.(radius := steps[j]), vehicleId) == []
    {
      if j > 0 {
        assert steps[j] == steps[1..][j - 1];
      }
    }
  }

  /** A tagged detection differs from the original zone's only in the radius
      of its geofence and its adaptive radius. */
  lemma AdaptiveTagging(geo: Geometry, pts: seq<GpsPoint>, g: Geofence, vehicleId: string)
    ensures var r := AdaptiveDetection(geo, pts, g, vehicleId);
            r.detection.Some? ==>
              && r.detection.value.geofence == g.(radius := r.usedRadius)
              && r.detection.value.adaptiveRadius == Some(r.usedRadius)
              && r.usedRadius in RadiusSteps
              && r.detection.value.endTime.None?
              && r.detection.value.timestamp == Timestamp(r.detection.value.toPoint)
              && r.detection.value.toPoint in pts
              && r.detection.value.vehicleId == vehicleId
  {
    AdaptiveSmallestStep(geo, pts, g, vehicleId, RadiusSteps);
    var r := AdaptiveDetection(geo, pts, g, vehicleId);
    if r.detection.Some? {
      var i: nat :| SettlesAt(geo, pts, g, vehicleId, RadiusSteps, r, i);
      var ds := TrajectoryDetections(geo, pts, g.(radius := RadiusSteps[i]), vehicleId);
      TrajectoryEndTimes(geo, pts, g.(radius := RadiusSteps[i]), vehicleId);
    }
  }

  /** No detection a trace yields carries an end time yet; each is stamped
      with the date and time of its second point, a point of the trace. */
  lemma TrajectoryEndTimes(geo: Geometry, pts: seq<GpsPoint>, g: Geofence, vehicleId: string)
    ensures forall d :: d in TrajectoryDetections(geo, pts, g, vehicleId) ==>
              d.endTime.None? && d.geofence == g && d.timestamp == Timestamp(d.toPoint)
              && d.toPoint in pts && d.vehicleId == vehicleId
  {
    forall d | d in TrajectoryDetections(geo, pts, g, vehicleId)
      ensures d.endTime.None? && d.geofence == g && d.timestamp == Timestamp(d.toPoint)
              && d.toPoint in pts && d.vehicleId == vehicleId
    {
      TrajectoryMembers(geo, pts, g, vehicleId, d);
      var j :| 0 <= j < |pts| - 1 && PairDetection(geo, g, pts[j], pts[j + 1], vehicleId) == Some(d);
      PairDetectionFields(geo, g, pts[j], pts[j + 1], vehicleId);
    }
  }

  // ---------------------------------------------------------------- analyzeVehicle

  /** What the radius search returned for each geofence, in route order. */
  function SearchResults(geo: Geometry, pts: seq<GpsPoint>, gs: seq<Geofence>, vehicleId: string): (rs: seq<Option<Detection>>)
    ensures |rs| == |gs|
  {
    seq(|gs|, i requires 0 <= i < |gs| => AdaptiveDetection(geo, pts, gs[i], vehicleId).detection)
  }

  /** The detections pushed, in order, for the searches that found one. */
  function Collect(found: seq<Option<Detection>>): (ds: seq<Detection>)
    ensures |ds| <= |found|
  {
    if |found| == 0 then []
    else Collect(found[..|found| - 1]) + OptionToSeq(found[|found| - 1])
  }

  /** The result `analyzeVehicle` builds from what the trace request returned. */
  function AnalyzeVehicleResult(geo: Geometry, route: string, vehicle: VehicleSchedule, outcome: FetchOutcome): BatchAnalysisResult {
    match outcome
    case HttpFailure(status) => ErrorResult(vehicle, "HTTP " + IntText(status))
    case Thrown(message) => ErrorResult(vehicle, message)
    case Received(pts) =>
      if |pts| == 0 then
        BatchAnalysisResult(vehicle.vehicleId, vehicle.codigo, vehicle.startTime, NotDetected, [], None, 0)
      else
        var gs := GetGeofencesByRoute(route);
        var found := Collect(SearchResults(geo, pts, gs, vehicle.vehicleId));
        var ds := WithEndTimes(found, gs, vehicle.startTime, MinutesForStart(route, vehicle.startTime));
        BatchAnalysisResult(vehicle.vehicleId, vehicle.codigo, vehicle.startTime,
                            if |ds| > 0 then Detected else NotDetected, ds, None, |pts|)
  }

  /** The loop of `analyzeVehicle` over the route's geofences: each one's
      radius search, keeping the detections found, in route order. */
  method DetectAcrossGeofences(geo: Geometry, pts: seq<GpsPoint>, geofences: seq<Geofence>, vehicleId: string)
    returns (allDetections: seq<Detection>)
    ensures allDetections == Collect(SearchResults(geo, pts, geofences, vehicleId))
  {
    ghost var searches := SearchResults(geo, pts, geofences, vehicleId);
    allDetections := [];
    for n := 0 to |geofences|
      invariant allDetections == Collect(searches[..n])
    {
      var adaptive := AnalyzeWithAdaptiveRadius(geo, pts, geofences[n], vehicleId);
      assert searches[n] == adaptive.detection;
      assert searches[..n + 1][..n] == searches[..n];
      if adaptive.detection.Some? {
        allDetections := allDetections + [adaptive.detection.value];
      }
    }
    assert searches[..|geofences|] == searches;
  }

  /** `analyzeVehicle` after the request: the radius search over every
      geofence of the route, then the end time of each detection. */
  method AnalyzeVehicle(geo: Geometry, route: string, vehicle: VehicleSchedule, outcome: FetchOutcome)
    returns (result: BatchAnalysisResult)
    ensures result == AnalyzeVehicleResult(geo, route, vehicle, outcome)
  {
    match outcome
    case HttpFailure(status) =>
      return ErrorResult(vehicle, "HTTP " + IntText(status));
    case Thrown(message) =>
      return ErrorResult(vehicle, message);
    case Received(pts) =>
      if |pts| == 0 {
        return BatchAnalysisResult(vehicle.vehicleId, vehicle.codigo, vehicle.startTime, NotDetected, [], None, 0);
      }
      var geofences := GetGeofencesByRoute(route);
      var allDetections := DetectAcrossGeofences(geo, pts, geofences, vehicle.vehicleId);
      if |allDetections| > 0 {
        var dynamicMinutes := MinutesForStart(route, vehicle.startTime);
        allDetections := SetEndTimes(allDetections, geofences, vehicle.startTime, dynamicMinutes);
      }
      return BatchAnalysisResult(vehicle.vehicleId, vehicle.codigo, vehicle.startTime,
                                 if |allDetections| > 0 then Detected else NotDetected, allDetections, None, |pts|);
  }

  /** Searches whose result, when there is one, is tagged with the
      geofence numbered by its position and carries no end time yet. */
  predicate NumberedResults(found: seq<Option<Detection>>) {
    forall i :: 0 <= i < |found| && found[i].Some? ==>
      found[i].value.geofence.id == i + 1 && found[i].value.endTime.None?
  }

  /** Each collected detection is the result of the search at the position
      its geofence id names. */
  lemma {:induction false} CollectMembers(found: seq<Option<Detection>>)
    requires NumberedResults(found)
    ensures forall a :: 0 <= a < |Collect(found)| ==>
              1 <= Collect(found)[a].geofence.id <= |found|
              && found[Collect(found)[a].geofence.id - 1] == Some(Collect(found)[a])
  {
    if |found| > 0 {
      var prev := found[..|found| - 1];
      assert forall i :: 0 <= i < |prev| ==> prev[i] == found[i];
      CollectMembers(prev);
      var before := Collect(prev);
      var ds := Collect(found);
      assert ds == before + OptionToSeq(found[|found| - 1]);
      forall a | 0 <= a < |ds|
        ensures 1 <= ds[a].geofence.id <= |found| && found[ds[a].geofence.id - 1] == Some(ds[a])
      {
        if a < |before| {
          assert ds[a] == before[a];
          var id := before[a].geofence.id;
          assert 1 <= id <= |prev| && prev[id - 1] == Some(before[a]);
          assert prev[id - 1] == found[id - 1];
        } else {
          var last := found[|found| - 1];
          assert last.Some?;
          assert ds[a] == last.value;
          assert last.value.geofence.id == |found|;
        }
      }
    }
  }

  /** The collected detections' geofence ids strictly increase. */
  lemma {:induction false} CollectIncreasing(found: seq<Option<Detection>>)
    requires NumberedResults(found)
    ensures forall a, b :: 0 <= a < b < |Collect(found)| ==> Collect(found)[a].geofence.id < Collect(found)[b].geofence.id
  {
    if |found| > 0 {
      var prev := found[..|found| - 1];
      assert forall i :: 0 <= i < |prev| ==> prev[i] == found[i];
      CollectIncreasing(prev);
      CollectMembers(prev);
      var before := Collect(prev);
      var ds := Collect(found);
      assert ds == before + OptionToSeq(found[|found| - 1]);
      forall a, b | 0 <= a < b < |ds|
        ensures ds[a].geofence.id < ds[b].geofence.id
      {
        assert ds[a] == before[a];
        if b < |before| {
          assert ds[b] == before[b];
        } else {
          assert ds[b] == found[|found| - 1].value;
        }
      }
    }
  }

  /** A geofence is represented among the collected detections exactly when
      its search found something. */
  lemma CollectRepresented(found: seq<Option<Detection>>, i: nat)
    requires NumberedResults(found) && i < |found|
    ensures (exists a :: 0 <= a < |Collect(found)| && Collect(found)[a].geofence.id == i + 1) <==> found[i].Some?
  {
    var ds := Collect(found);
    CollectMembers(found);
    if found[i].Some? {
      CollectKeeps(found, |found|, i);
      assert found[..|found|] == found;
      var a :| 0 <= a < |ds| && ds[a] == found[i].value;
      assert ds[a].geofence.id == i + 1;
    }
  }

  /** Every detection found among the first `n` results is collected. */
  lemma {:induction false} CollectKeeps(found: seq<Option<Detection>>, n: nat, i: nat)
    requires i < n <= |found| && found[i].Some?
    ensures exists a :: 0 <= a < |Collect(found[..n])| && Collect(found[..n])[a] == found[i].value
  {
    var prefix := found[..n];
    assert prefix[..n - 1] == found[..n - 1];
    var before := Collect(found[..n - 1]);
    assert Collect(prefix) == before + OptionToSeq(found[n - 1]);
    if i < n - 1 {
      CollectKeeps(found, n - 1, i);
      var a :| 0 <= a < |before| && before[a] == found[i].value;
      assert Collect(prefix)[a] == before[a];
    } else {
      assert Collect(prefix)[|before|] == found[i].value;
    }
  }

  /** The radius searches over a numbered route give numbered results. */
  lemma SearchesNumbered(geo: Geometry, pts: seq<GpsPoint>, gs: seq<Geofence>, vehicleId: string)
    requires NumberedFromOne(gs)
    ensures NumberedResults(SearchResults(geo, pts, gs, vehicleId))
  {
    var rs := SearchResults(geo, pts, gs, vehicleId);
    forall i | 0 <= i < |rs| && rs[i].Some?
      ensures rs[i].value.geofence.id == i + 1 && rs[i].value.endTime.None?
    {
      AdaptiveTagging(geo, pts, gs[i], vehicleId);
    }
  }

  /** The analysis of one vehicle: a failed request is an error with no
      detections, an empty trace is "not detected" with no points, and
      otherwise the status is "detected" exactly when something was found. */
  lemma AnalyzeVehicleStatus(geo: Geometry, route: string, vehicle: VehicleSchedule, outcome: FetchOutcome)
    ensures var r := AnalyzeVehicleResult(geo, route, vehicle, outcome);
            && r.vehicleId == vehicle.vehicleId && r.codigo == vehicle.codigo && r.fechaini == vehicle.startTime
            && (r.status == Error <==> !outcome.Received?)
            && (r.status == Error ==> r.detections == [] && r.gpsPointsCount == 0 && r.error.Some?)
            && (outcome.HttpFailure? ==> r.error == Some("HTTP " + IntText(outcome.status)))
            && (outcome.Received? ==> r.gpsPointsCount == |outcome.listaTablas| && r.error.None?
                                      && (r.status == Detected <==> |r.detections| > 0))
            && (outcome == Received([]) ==> r.status == NotDetected && r.detections == [])
  {
  }

  /** How the detections of one analysis relate to the radius searches of
      the route's geofences: each belongs to a different geofence, in the
      route's order; a geofence is represented exactly when its search found
      something; and each detection is that search's result with the end time
      set to the start plus the minutes of its geofence's column. */
  predicate AnalysisShape(ds: seq<Detection>, rs: seq<Option<Detection>>, startTime: string, minutes: seq<nat>) {
    TimedSearchResults(ds, rs, startTime, minutes) && IncreasingIds(ds) && Represents(ds, rs)
  }

  /** Each detection is the result of the search of the geofence it names,
      with the end time of that geofence's column. */
  predicate TimedSearchResults(ds: seq<Detection>, rs: seq<Option<Detection>>, startTime: string, minutes: seq<nat>) {
    forall a :: 0 <= a < |ds| ==>
      1 <= ds[a].geofence.id <= |rs| && ds[a].geofence.id <= |minutes|
      && Some(ds[a].(endTime := None)) == rs[ds[a].geofence.id - 1]
      && ds[a].endTime == Some(CalculateEndTime(startTime, minutes[ds[a].geofence.id - 1]))
  }

  predicate IncreasingIds(ds: seq<Detection>) {
    forall a, b :: 0 <= a < b < |ds| ==> ds[a].geofence.id < ds[b].geofence.id
  }

  /** A geofence is represented exactly when its search found something. */
  predicate Represents(ds: seq<Detection>, rs: seq<Option<Detection>>) {
    forall i :: 0 <= i < |rs| ==> ((exists a :: 0 <= a < |ds| && ds[a].geofence.id == i + 1) <==> rs[i].Some?)
  }

  predicate SameGeofences(ds: seq<Detection>, found: seq<Detection>) {
    |ds| == |found| && forall a :: 0 <= a < |ds| ==> ds[a].geofence == found[a].geofence
  }

  /** Every analysis of a non-empty trace has that shape against the route's
      seven geofences and the minutes for the vehicle's start time. */
  lemma AnalyzeVehicleDetections(geo: Geometry, route: string, vehicle: VehicleSchedule, pts: seq<GpsPoint>)
    requires |pts| > 0
    ensures |SearchResults(geo, pts, GetGeofencesByRoute(route), vehicle.vehicleId)| == 7
    ensures AnalysisShape(AnalyzeVehicleResult(geo, route, vehicle, Received(pts)).detections,
                          SearchResults(geo, pts, GetGeofencesByRoute(route), vehicle.vehicleId),
                          vehicle.startTime, MinutesForStart(route, vehicle.startTime))
  {
    RouteGeofencesShape(route);
    SearchesNumbered(geo, pts, GetGeofencesByRoute(route), vehicle.vehicleId);
    CollectAnalysis(SearchResults(geo, pts, GetGeofencesByRoute(route), vehicle.vehicleId),
                    GetGeofencesByRoute(route), vehicle.startTime, MinutesForStart(route, vehicle.startTime));
  }

  /** The shape holds for any numbered searches once end times are set. */
  lemma CollectAnalysis(rs: seq<Option<Detection>>, gs: seq<Geofence>, startTime: string, minutes: seq<nat>)
    requires NumberedFromOne(gs) && |minutes| == |gs| && |rs| == |gs| && NumberedResults(rs)
    ensures AnalysisShape(WithEndTimes(Collect(rs), gs, startTime, minutes), rs, startTime, minutes)
  {
    var found := Collect(rs);
    TimedCollectShape(found, WithEndTimes(found, gs, startTime, minutes), rs, gs, startTime, minutes);
  }

  lemma TimedCollectShape(found: seq<Detection>, ds: seq<Detection>, rs: seq<Option<Detection>>, gs: seq<Geofence>,
                          startTime: string, minutes: seq<nat>)
    requires NumberedFromOne(gs) && |minutes| == |gs| && |rs| == |gs| && NumberedResults(rs)
    requires found == Collect(rs) && ds == WithEndTimes(found, gs, startTime, minutes)
    ensures AnalysisShape(ds, rs, startTime, minutes)
  {
    CollectMembers(rs);
    EndTimesNumbered(found, ds, rs, gs, startTime, minutes);
    CollectIncreasing(rs);
    IncreasingOfSame(ds, found);
    CollectRepresents(rs);
    RepresentsOfSame(ds, found, rs);
  }

  lemma IncreasingOfSame(ds: seq<Detection>, found: seq<Detection>)
    requires SameGeofences(ds, found) && IncreasingIds(found)
    ensures IncreasingIds(ds)
  {
    forall a, b | 0 <= a < b < |ds|
      ensures ds[a].geofence.id < ds[b].geofence.id
    {
      assert found[a].geofence.id < found[b].geofence.id;
    }
  }

  lemma RepresentsOfSame(ds: seq<Detection>, found: seq<Detection>, rs: seq<Option<Detection>>)
    requires SameGeofences(ds, found) && Represents(found, rs)
    ensures Represents(ds, rs)
  {
    forall i | 0 <= i < |rs|
      ensures (exists a :: 0 <= a < |ds| && ds[a].geofence.id == i + 1) <==> rs[i].Some?
    {
      if exists a :: 0 <= a < |found| && found[a].geofence.id == i + 1 {
        var a :| 0 <= a < |found| && found[a].geofence.id == i + 1;
        assert ds[a].geofence.id == i + 1;
      }
      if exists a :: 0 <= a < |ds| && ds[a].geofence.id == i + 1 {
        var a :| 0 <= a < |ds| && ds[a].geofence.id == i + 1;
        assert found[a].geofence.id == i + 1;
      }
    }
  }

  /** Every geofence is represented among the collected detections exactly
      when its search found something. */
  lemma CollectRepresents(rs: seq<Option<Detection>>)
    requires NumberedResults(rs)
    ensures Represents(Collect(rs), rs)
  {
    forall i | 0 <= i < |rs|
      ensures (exists a :: 0 <= a < |Collect(rs)| && Collect(rs)[a].geofence.id == i + 1) <==> rs[i].Some?
    {
      CollectRepresented(rs, i);
    }
  }

  /** Setting the end times of collected, numbered detections keeps
      everything else and gives each the minutes of its geofence's column. */
  lemma EndTimesNumbered(found: seq<Detection>, ds: seq<Detection>, rs: seq<Option<Detection>>, gs: seq<Geofence>,
                         startTime: string, minutes: seq<nat>)
    requires NumberedFromOne(gs) && |minutes| == |gs| && |rs| == |gs| && NumberedResults(rs)
    requires forall a :: 0 <= a < |found| ==> 1 <= found[a].geofence.id <= |rs| && rs[found[a].geofence.id - 1] == Some(found[a])
    requires ds == WithEndTimes(found, gs, startTime, minutes)
    ensures SameGeofences(ds, found) && TimedSearchResults(ds, rs, startTime, minutes)
  {
    forall a | 0 <= a < |found|
      ensures ds[a].geofence == found[a].geofence
      ensures 1 <= ds[a].geofence.id <= |rs| && ds[a].geofence.id <= |minutes|
      ensures Some(ds[a].(endTime := None)) == rs[ds[a].geofence.id - 1]
      ensures ds[a].endTime == Some(CalculateEndTime(startTime, minutes[ds[a].geofence.id - 1]))
    {
      var d := found[a];
      AssignEndTimeNumbered(d, gs, startTime, minutes);
      assert ds[a] == d.(endTime := Some(CalculateEndTime(startTime, minutes[d.geofence.id - 1])));
      assert d.endTime.None?;
      assert d == d.(endTime := None);
    }
  }

  // ---------------------------------------------------------------- groupResultsByGeofence

  datatype VehicleDetection = VehicleDetection(vehicleId: string, detection: Option<Detection>, status: Status)

  datatype GeofenceGroup = GeofenceGroup(geofence: Geofence, vehicleDetections: seq<VehicleDetection>)

  /** `results.find(r => r.vehicleId === vehicleId)`. */
  function FindResult(results: seq<BatchAnalysisResult>, vehicleId: string): (r: Option<BatchAnalysisResult>)
    ensures r.None? <==> forall i :: 0 <= i < |results| ==> results[i].vehicleId != vehicleId
    ensures r.Some? ==> exists i :: 0 <= i < |results| && results[i] == r.value && r.value.vehicleId == vehicleId
                          && forall j :: 0 <= j < i ==> results[j].vehicleId != vehicleId
  {
    if |results| == 0 then None
    else if results[0].vehicleId == vehicleId then Some(results[0])
    else
      var r := FindResult(results[1..], vehicleId);
      assert forall i :: 1 <= i < |results| ==> results[i] == results[1..][i - 1];
      r
  }

  /** `detections.find(d => d.geofence.id === geofenceId)`. */
  function FindDetection(ds: seq<Detection>, geofenceId: int): (r: Option<Detection>)
    ensures r.None? <==> forall i :: 0 <= i < |ds| ==> ds[i].geofence.id != geofenceId
    ensures r.Some? ==> exists i :: 0 <= i < |ds| && ds[i] == r.value && r.value.geofence.id == geofenceId
                          && forall j :: 0 <= j < i ==> ds[j].geofence.id != geofenceId
  {
    if |ds| == 0 then None
    else if ds[0].geofence.id == geofenceId then Some(ds[0])
    else
      var r := FindDetection(ds[1..], geofenceId);
      assert forall i :: 1 <= i < |ds| ==> ds[i] == ds[1..][i - 1];
      r
  }

  /** One vehicle's entry in a geofence's group. */
  function VehicleEntry(g: Geofence, vehicle: VehicleSchedule, results: seq<BatchAnalysisResult>): VehicleDetection {
    var vehicleResult := FindResult(results, vehicle.vehicleId);
    var detection := if vehicleResult.Some? then FindDetection(vehicleResult.value.detections, g.id) else None;
    VehicleDetection(vehicle.vehicleId, detection,
                     if detection.Some? then Detected
                     else if vehicleResult.Some? && vehicleResult.value.status == Error then Error
                     else NotDetected)
  }

  /** `groupResultsByGeofence`: for each geofence, one entry per scheduled vehicle. */
  function GroupResultsByGeofence(gs: seq<Geofence>, schedules: seq<VehicleSchedule>, results: seq<BatchAnalysisResult>)
    : (groups: seq<GeofenceGroup>)
    ensures |groups| == |gs|
    ensures forall i :: 0 <= i < |gs| ==>
              groups[i].geofence == gs[i] && |groups[i].vehicleDetections| == |schedules|
              && forall j :: 0 <= j < |schedules| ==> groups[i].vehicleDetections[j].vehicleId == schedules[j].vehicleId
  {
    seq(|gs|, i requires 0 <= i < |gs| =>
      GeofenceGroup(gs[i], seq(|schedules|, j requires 0 <= j < |schedules| => VehicleEntry(gs[i], schedules[j], results))))
  }

  /** An entry is "detected" exactly when the vehicle's (first) result holds a
      detection of that geofence, which it then carries; otherwise it is an
      error exactly when that result is an error. */
  lemma GroupStatus(gs: seq<Geofence>, schedules: seq<VehicleSchedule>, results: seq<BatchAnalysisResult>, i: nat, j: nat)
    requires i < |gs| && j < |schedules|
    ensures var e := GroupResultsByGeofence(gs, schedules, results)[i].vehicleDetections[j];
            var vr := FindResult(results, schedules[j].vehicleId);
            var holds := vr.Some? && exists d :: d in vr.value.detections && d.geofence.id == gs[i].id;
            && (e.status == Detected <==> holds)
            && (e.status == Detected <==> e.detection.Some?)
            && (e.detection.Some? ==> e.detection.value in vr.value.detections && e.detection.value.geofence.id == gs[i].id)
            && (e.status == Error <==> !holds && vr.Some? && vr.value.status == Error)
            && (e.status == NotDetected <==> !holds && (vr.None? || vr.value.status != Error))
  {
    var vr := FindResult(results, schedules[j].vehicleId);
    if vr.Some? {
      var ds := vr.value.detections;
      if exists d :: d in ds && d.geofence.id == gs[i].id {
        var d :| d in ds && d.geofence.id == gs[i].id;
        var k :| 0 <= k < |ds| && ds[k] == d;
      }
    }
  }

  /** With results as `analyzeVehicle` builds them, where an error carries no
      detections, an entry is an error exactly when that vehicle's analysis was. */
  lemma EntryErrorMeansFailedAnalysis(g: Geofence, vehicle: VehicleSchedule, results: seq<BatchAnalysisResult>)
    requires forall k :: 0 <= k < |results| && results[k].status == Error ==> results[k].detections == []
    ensures var vr := FindResult(results, vehicle.vehicleId);
            VehicleEntry(g, vehicle, results).status == Error <==> vr.Some? && vr.value.status == Error
  {
  }

  /** Detections shaped after the radius searches over a trace are stamped
      with the date and time of a point of that trace and carry the vehicle
      the searches were run for. */
  lemma StampedFromSearches(geo: Geometry, pts: seq<GpsPoint>, gs: seq<Geofence>, vehicleId: string,
                            ds: seq<Detection>, startTime: string, minutes: seq<nat>)
    requires AnalysisShape(ds, SearchResults(geo, pts, gs, vehicleId), startTime, minutes)
    ensures forall a :: 0 <= a < |ds| ==>
              ds[a].timestamp == Timestamp(ds[a].toPoint) && ds[a].toPoint in pts && ds[a].vehicleId == vehicleId
  {
    var rs := SearchResults(geo, pts, gs, vehicleId);
    forall a | 0 <= a < |ds|
      ensures ds[a].timestamp == Timestamp(ds[a].toPoint) && ds[a].toPoint in pts && ds[a].vehicleId == vehicleId
    {
      var i := ds[a].geofence.id - 1;
      assert Some(ds[a].(endTime := None)) == rs[i];
      AdaptiveTagging(geo, pts, gs[i], vehicleId);
    }
  }

  /** Every detection of an analysis is stamped with the date and time of a
      point of the trace, and belongs to the analysed vehicle. */
  lemma AnalyzedTimestamps(geo: Geometry, route: string, vehicle: VehicleSchedule, outcome: FetchOutcome)
    ensures var ds := AnalyzeVehicleResult(geo, route, vehicle, outcome).detections;
            forall a :: 0 <= a < |ds| ==>
              && ds[a].timestamp == Timestamp(ds[a].toPoint)
              && outcome.Received? && ds[a].toPoint in outcome.listaTablas
              && ds[a].vehicleId == vehicle.vehicleId
  {
    if outcome.Received? && |outcome.listaTablas| > 0 {
      var pts := outcome.listaTablas;
      assert outcome == Received(pts);
      AnalyzeVehicleDetections(geo, route, vehicle, pts);
      var ds := AnalyzeVehicleResult(geo, route, vehicle, Received(pts)).detections;
      StampedFromSearches(geo, pts, GetGeofencesByRoute(route), vehicle.vehicleId, ds,
                          vehicle.startTime, MinutesForStart(route, vehicle.startTime));
    }
  }

  // ---------------------------------------------------------------- sendDataToAPI

  /** One record of the list posted to the dispatch service. */
  datatype ApiRecord = ApiRecord(
    codasig: string,
    deviceID: string,
    nomControl: string,
    horaInicio: string,
    horaEstimada: string,
    horaLlegada: string,
    volado: string)

  /** The record of one detection of one vehicle; `None` when the timestamp
      has no time part. */
  function RecordFor(result: BatchAnalysisResult, d: Detection): Option<ApiRecord> {
    var arrival := ArrivalTime(d.timestamp);
    if arrival.None? then None
    else Some(ApiRecord(IntText(result.codigo), result.vehicleId, d.geofence.name, result.fechaini,
                        d.endTime.GetOr(""), arrival.value,
                        CalculateTimeDifference(d.endTime.GetOr(""), arrival.value)))
  }

  /** `sendDataToAPI` up to the request: the records of every detection of
      every vehicle with detections, or why nothing is posted. */
  method SendDataToApi(batchResults: seq<BatchAnalysisResult>) returns (r: Result<seq<ApiRecord>, SendError>)
    ensures r == Posted(RecordFor, batchResults)
  {
    r := SendRecords(RecordFor, batchResults);
  }

  /** The record of a detection stamped "date time", neither part holding a
      space: it arrives at the time of the detection's point, late or early
      by the seconds between the expected time and that time. */
  lemma RecordOfStamped(result: BatchAnalysisResult, d: Detection)
    requires d.timestamp == Timestamp(d.toPoint) && ' ' !in d.toPoint.fecha && ' ' !in d.toPoint.hora
    ensures RecordFor(result, d).Some?
    ensures var rec := RecordFor(result, d).value;
            && rec.codasig == IntText(result.codigo) && rec.deviceID == result.vehicleId
            && rec.nomControl == d.geofence.name && rec.horaInicio == result.fechaini
            && rec.horaLlegada == d.toPoint.hora
            && rec.horaEstimada == d.endTime.GetOr("")
            && rec.volado == CalculateTimeDifference(rec.horaEstimada, rec.horaLlegada)
  {
    ArrivalOfTimestamp(d.toPoint);
    RecordOfArrival(result, d, d.toPoint.hora, d.endTime.GetOr(""));
  }

  lemma RecordOfArrival(result: BatchAnalysisResult, d: Detection, arrival: string, expected: string)
    requires ArrivalTime(d.timestamp) == Some(arrival) && expected == d.endTime.GetOr("")
    ensures RecordFor(result, d)
            == Some(ApiRecord(IntText(result.codigo), result.vehicleId, d.geofence.name, result.fechaini,
                              expected, arrival, CalculateTimeDifference(expected, arrival)))
  {
  }

  /** Analyses whose detections are all stamped that way always post, one
      record per detection. */
  lemma ApiDataOfStampedDetections(results: seq<BatchAnalysisResult>)
    requires |results| > 0
    requires forall k, a :: 0 <= k < |results| && 0 <= a < |results[k].detections| ==>
               results[k].detections[a].timestamp == Timestamp(results[k].detections[a].toPoint)
               && ' ' !in results[k].detections[a].toPoint.fecha && ' ' !in results[k].detections[a].toPoint.hora
    ensures Posted(RecordFor, results).Success?
    ensures |Posted(RecordFor, results).value| == DetectionCount(results)
  {
    forall k, a | 0 <= k < |results| && 0 <= a < |results[k].detections|
      ensures RecordFor(results[k], results[k].detections[a]).Some?
    {
      RecordOfStamped(results[k], results[k].detections[a]);
    }
    PostedWhenAllBuilt(RecordFor, results);
  }

  /** The analyses of a batch of vehicles, in schedule order. */
  function AnalyzeBatch(geo: Geometry, route: string, vehicles: seq<VehicleSchedule>, outcomes: seq<FetchOutcome>)
    : (results: seq<BatchAnalysisResult>)
    requires |vehicles| == |outcomes|
    ensures |results| == |vehicles|
  {
    seq(|vehicles|, k requires 0 <= k < |vehicles| => AnalyzeVehicleResult(geo, route, vehicles[k], outcomes[k]))
  }

  /** When no GPS point of any trace has a space in its date or time, the
      records of a batch's analyses can always be built: one per detection. */
  lemma ApiDataOfAnalyses(geo: Geometry, route: string, vehicles: seq<VehicleSchedule>, outcomes: seq<FetchOutcome>)
    requires |vehicles| == |outcomes| > 0
    requires forall k, p :: 0 <= k < |outcomes| && outcomes[k].Received? && p in outcomes[k].listaTablas ==>
               ' ' !in p.fecha && ' ' !in p.hora
    ensures var results := AnalyzeBatch(geo, route, vehicles, outcomes);
            Posted(RecordFor, results).Success? && |Posted(RecordFor, results).value| == DetectionCount(results)
  {
    var results := AnalyzeBatch(geo, route, vehicles, outcomes);
    forall k, a | 0 <= k < |results| && 0 <= a < |results[k].detections|
      ensures results[k].detections[a].timestamp == Timestamp(results[k].detections[a].toPoint)
              && ' ' !in results[k].detections[a].toPoint.fecha && ' ' !in results[k].detections[a].toPoint.hora
    {
      AnalyzedTimestamps(geo, route, vehicles[k], outcomes[k]);
    }
    ApiDataOfStampedDetections(results);
  }
}
