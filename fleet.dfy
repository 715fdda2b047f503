/** The records both reconciliation pages share: GPS points of a trace,
    circular geofences, detections, per-vehicle analysis results and the
    schedules they are computed for, and the geometry the detectors use. */
module Fleet {
  import opened Wrappers
  import opened Text
  import opened Clock

  /** One point of a vehicle's GPS trace. */
  datatype GpsPoint = GpsPoint(
    item: int,
    fecha: string,
    hora: string,
    speedKPH: real,
    longitude: real,
    latitude: real,
    odometerKM: real,
    address: string)

  /** A circular control zone. */
  datatype Geofence = Geofence(
    id: int,
    name: string,
    centerLat: real,
    centerLon: real,
    radius: nat,
    active: bool)

  datatype DetectionType = Entry | Exit | PassThrough | NearZone

  datatype Confidence = High | Medium | Low

  datatype Detection = Detection(
    kind: DetectionType,
    fromPoint: GpsPoint,
    toPoint: GpsPoint,
    distanceFrom: int,
    distanceTo: int,
    minDistanceToCenter: Option<int>,
    geofence: Geofence,
    confidence: Confidence,
    timestamp: string,
    vehicleId: string,
    adaptiveRadius: Option<nat>,
    endTime: Option<string>)

  datatype Status = Detected | NotDetected | Error

  datatype BatchAnalysisResult = BatchAnalysisResult(
    vehicleId: string,
    codigo: int,
    fechaini: string,
    status: Status,
    detections: seq<Detection>,
    error: Option<string>,
    gpsPointsCount: nat)

  datatype VehicleSchedule = VehicleSchedule(
    vehicleId: string,
    codigo: int,
    startTime: string,
    endTime: string)

  /** What the trace request of `analyzeVehicle` comes back with: a response
      whose status is not ok, an exception raised by `fetch` or by JSON
      decoding, or the decoded `listaTablas` (a missing list reads as empty). */
  datatype FetchOutcome =
    | HttpFailure(status: int)
    | Thrown(message: string)
    | Received(listaTablas: seq<GpsPoint>)

  /** The two distance functions of the pages, of which only their results
      matter here: `calculateDistance(lat1, lon1, lat2, lon2)` (haversine, in
      metres) and `distanceFromPointToLine(px, py, x1, y1, x2, y2)`. */
  datatype Geometry = Geometry(
    distance: (real, real, real, real) -> real,
    lineDistance: (real, real, real, real, real, real) -> real)

  /** The distance from a geofence's centre to a point. */
  function CenterDistance(geo: Geometry, g: Geofence, p: GpsPoint): real {
    geo.distance(g.centerLat, g.centerLon, p.latitude, p.longitude)
  }

  /** `Math.round`: the nearest integer, halves rounded up. */
  function Round(x: real): (n: int)
    ensures x - 0.5 < n as real <= x + 0.5
  {
    (x + 0.5).Floor
  }

  /** The GPS point's date and time, as a detection's `timestamp` holds them. */
  function Timestamp(p: GpsPoint): string {
    p.fecha + " " + p.hora
  }

  /** `timestamp.split(' ')[1]`; `None` is `undefined`. */
  function ArrivalTime(timestamp: string): Option<string> {
    var parts := Split(timestamp, ' ');
    if |parts| >= 2 then Some(parts[1]) else None
  }

  /** The arrival time read back from a timestamp is the point's own time,
      as long as neither the date nor the time contains a space. */
  lemma ArrivalOfTimestamp(p: GpsPoint)
    requires ' ' !in p.fecha && ' ' !in p.hora
    ensures ArrivalTime(Timestamp(p)) == Some(p.hora)
  {
    SplitTwo(p.fecha, p.hora, ' ');
    assert p.fecha + " " + p.hora == p.fecha + [' '] + p.hora;
  }

  /** A timestamp without a space has no arrival time. */
  lemma NoArrivalWithoutSpace(timestamp: string)
    requires ' ' !in timestamp
    ensures ArrivalTime(timestamp) == None
  {
  }

  /** The first index of a geofence with the given id, or -1 (`findIndex`). */
  function FindGeofenceIndex(geofences: seq<Geofence>, id: int): (i: int)
    ensures -1 <= i < |geofences|
    ensures i >= 0 ==> geofences[i].id == id && forall j :: 0 <= j < i ==> geofences[j].id != id
    ensures i == -1 <==> forall j :: 0 <= j < |geofences| ==> geofences[j].id != id
  {
    if |geofences| == 0 then -1
    else if geofences[0].id == id then 0
    else
      var k := FindGeofenceIndex(geofences[1..], id);
      if k == -1 then -1 else k + 1
  }

  /** Ids 1, 2, ..., n in order: the shape of every fixed geofence list. */
  predicate NumberedFromOne(geofences: seq<Geofence>) {
    forall i :: 0 <= i < |geofences| ==> geofences[i].id == i + 1
  }

  lemma FindInNumbered(geofences: seq<Geofence>, i: nat)
    requires NumberedFromOne(geofences) && i < |geofences|
    ensures FindGeofenceIndex(geofences, i + 1) == i
  {
    var k := FindGeofenceIndex(geofences, i + 1);
    assert geofences[i].id == i + 1;
    assert k != -1;
    assert geofences[k].id == k + 1;
  }

  /** The end time a detection receives: the start plus the minutes listed
      for the position of its geofence, when that position has minutes. */
  function AssignEndTime(d: Detection, gs: seq<Geofence>, startTime: string, minutes: seq<nat>): Detection {
    var geofenceIndex := FindGeofenceIndex(gs, d.geofence.id);
    if geofenceIndex != -1 && geofenceIndex < |minutes| then
      d.(endTime := Some(CalculateEndTime(startTime, minutes[geofenceIndex])))
    else d
  }

  function WithEndTimes(ds: seq<Detection>, gs: seq<Geofence>, startTime: string, minutes: seq<nat>): (r: seq<Detection>)
    ensures |r| == |ds|
  {
    seq(|ds|, i requires 0 <= i < |ds| => AssignEndTime(ds[i], gs, startTime, minutes))
  }

  function ErrorResult(vehicle: VehicleSchedule, message: string): BatchAnalysisResult {
    BatchAnalysisResult(vehicle.vehicleId, vehicle.codigo, vehicle.startTime, Error, [], Some(message), 0)
  }

  /** The end time assigned in a numbered route is the start plus the
      minutes at the position of the detection's geofence. */
  lemma AssignEndTimeNumbered(d: Detection, gs: seq<Geofence>, startTime: string, minutes: seq<nat>)
    requires NumberedFromOne(gs) && |minutes| == |gs| && 1 <= d.geofence.id <= |gs|
    ensures AssignEndTime(d, gs, startTime, minutes)
            == d.(endTime := Some(CalculateEndTime(startTime, minutes[d.geofence.id - 1])))
  {
    FindInNumbered(gs, d.geofence.id - 1);
  }

  // ---------------------------------------------------------------- the pairs sendDataToAPI walks

  /** Why nothing is posted: no analysis was run, or a detection's timestamp
      has no time part, so that reading the arrival time raises (`split` on
      `undefined`) and the page catches the exception. */
  datatype SendError = NoData | MissingArrivalTime

  /** `batchResults.filter(r => r.detections.length > 0)`. */
  function WithDetections(results: seq<BatchAnalysisResult>): (kept: seq<BatchAnalysisResult>)
    ensures |kept| <= |results|
    ensures forall k :: 0 <= k < |kept| ==> kept[k] in results && |kept[k].detections| > 0
    ensures forall r :: r in results && |r.detections| > 0 ==> r in kept
  {
    if |results| == 0 then []
    else
      var last := results[|results| - 1];
      var prev := WithDetections(results[..|results| - 1]);
      assert forall r :: r in results ==> r in results[..|results| - 1] || r == last;
      if |last.detections| > 0 then prev + [last] else prev
  }

  /** Every (vehicle, detection) pair, vehicle by vehicle, in order. */
  function DetectionPairs(results: seq<BatchAnalysisResult>): seq<(BatchAnalysisResult, Detection)> {
    if |results| == 0 then []
    else
      var last := results[|results| - 1];
      DetectionPairs(results[..|results| - 1]) + seq(|last.detections|, k requires 0 <= k < |last.detections| => (last, last.detections[k]))
  }

  /** Leaving out the vehicles without detections drops no pair. */
  lemma {:induction false} PairsOfFiltered(results: seq<BatchAnalysisResult>)
    ensures DetectionPairs(WithDetections(results)) == DetectionPairs(results)
  {
    if |results| > 0 {
      var last := results[|results| - 1];
      var prev := results[..|results| - 1];
      PairsOfFiltered(prev);
      if |last.detections| > 0 {
        var kept := WithDetections(prev) + [last];
        assert kept[..|kept| - 1] == WithDetections(prev);
      } else {
        assert seq(|last.detections|, k requires 0 <= k < |last.detections| => (last, last.detections[k])) == [];
      }
    }
  }

  /** The number of pairs is the total number of detections. */
  function DetectionCount(results: seq<BatchAnalysisResult>): nat {
    if |results| == 0 then 0 else DetectionCount(results[..|results| - 1]) + |results[|results| - 1].detections|
  }

  lemma {:induction false} PairsCount(results: seq<BatchAnalysisResult>)
    ensures |DetectionPairs(results)| == DetectionCount(results)
  {
    if |results| > 0 {
      PairsCount(results[..|results| - 1]);
    }
  }

  /** Each pair joins a result with one of its own detections. */
  lemma {:induction false} PairsBelong(results: seq<BatchAnalysisResult>)
    ensures forall k :: 0 <= k < |DetectionPairs(results)| ==>
              DetectionPairs(results)[k].0 in results && DetectionPairs(results)[k].1 in DetectionPairs(results)[k].0.detections
  {
    if |results| > 0 {
      var prev := results[..|results| - 1];
      PairsBelong(prev);
      var last := results[|results| - 1];
      var tail := seq(|last.detections|, k requires 0 <= k < |last.detections| => (last, last.detections[k]));
      assert DetectionPairs(results) == DetectionPairs(prev) + tail;
      forall k | 0 <= k < |DetectionPairs(results)|
        ensures DetectionPairs(results)[k].0 in results && DetectionPairs(results)[k].1 in DetectionPairs(results)[k].0.detections
      {
        if k < |DetectionPairs(prev)| {
          assert DetectionPairs(results)[k] == DetectionPairs(prev)[k];
        } else {
          assert DetectionPairs(results)[k] == tail[k - |DetectionPairs(prev)|];
        }
      }
    }
  }

  /** One more vehicle adds its own pairs, in order, after those of the earlier ones. */
  lemma PairsStep(results: seq<BatchAnalysisResult>, v: nat)
    requires v < |results|
    ensures |DetectionPairs(results[..v + 1])| == |DetectionPairs(results[..v])| + |results[v].detections| <= |DetectionPairs(results)|
    ensures forall j :: 0 <= j < |results[v].detections| ==>
              DetectionPairs(results)[|DetectionPairs(results[..v])| + j] == (results[v], results[v].detections[j])
  {
    PairsPrefix(results, v + 1);
    assert results[..v + 1][..v] == results[..v];
    var done := DetectionPairs(results[..v]);
    var tail := seq(|results[v].detections|, k requires 0 <= k < |results[v].detections| => (results[v], results[v].detections[k]));
    assert DetectionPairs(results[..v + 1]) == done + tail;
    forall j | 0 <= j < |results[v].detections|
      ensures DetectionPairs(results)[|done| + j] == (results[v], results[v].detections[j])
    {
      assert DetectionPairs(results[..v + 1])[|done| + j] == tail[j];
    }
  }

  /** The pairs of a prefix of the vehicles are a prefix of all pairs. */
  lemma {:induction false} PairsPrefix(results: seq<BatchAnalysisResult>, n: nat)
    requires n <= |results|
    ensures DetectionPairs(results[..n]) <= DetectionPairs(results)
    decreases |results| - n
  {
    if n < |results| {
      PairsPrefix(results, n + 1);
      assert results[..n + 1][..n] == results[..n];
    } else {
      assert results[..n] == results;
    }
  }

  /** The detection found at a radius, tagged with the widened zone and the radius. */
  function Tagged(d: Detection, g: Geofence, radius: nat): Detection {
    d.(geofence := g.(radius := radius), adaptiveRadius := Some(radius))
  }

  /** The loop of `analyzeVehicle` that sets each detection's end time from
      the minutes listed for its geofence's position. */
  method SetEndTimes(ds: seq<Detection>, geofences: seq<Geofence>, startTime: string, dynamicMinutes: seq<nat>)
    returns (allDetections: seq<Detection>)
    ensures allDetections == WithEndTimes(ds, geofences, startTime, dynamicMinutes)
  {
    allDetections := ds;
    for k := 0 to |ds|
      invariant |allDetections| == |ds|
      invariant forall i :: 0 <= i < k ==> allDetections[i] == AssignEndTime(ds[i], geofences, startTime, dynamicMinutes)
      invariant forall i :: k <= i < |ds| ==> allDetections[i] == ds[i]
    {
      var geofenceIndex := FindGeofenceIndex(geofences, allDetections[k].geofence.id);
      if geofenceIndex != -1 && geofenceIndex < |dynamicMinutes| {
        allDetections := allDetections[k := allDetections[k].(endTime :=
          Some(CalculateEndTime(startTime, dynamicMinutes[geofenceIndex])))];
      }
    }
  }

  // ---------------------------------------------------------------- the records sendDataToAPI builds

  /** Every pair's record can be built. */
  predicate AllBuilt<R>(recordFor: (BatchAnalysisResult, Detection) -> Option<R>, pairs: seq<(BatchAnalysisResult, Detection)>) {
    forall k :: 0 <= k < |pairs| ==> recordFor(pairs[k].0, pairs[k].1).Some?
  }

  function Built<R>(recordFor: (BatchAnalysisResult, Detection) -> Option<R>, pairs: seq<(BatchAnalysisResult, Detection)>)
    : (recs: seq<R>)
    requires AllBuilt(recordFor, pairs)
    ensures |recs| == |pairs|
  {
    seq(|pairs|, k requires 0 <= k < |pairs| && AllBuilt(recordFor, pairs) => recordFor(pairs[k].0, pairs[k].1).value)
  }

  /** The list `sendDataToAPI` posts, given how it builds one detection's
      record: nothing without results, nothing when some record cannot be
      built (the page catches the exception and posts nothing), and
      otherwise the record of every detection of every vehicle, in order. */
  function Posted<R>(recordFor: (BatchAnalysisResult, Detection) -> Option<R>, results: seq<BatchAnalysisResult>)
    : (r: Result<seq<R>, SendError>)
    ensures r == Failure(NoData) <==> |results| == 0
    ensures r == Failure(MissingArrivalTime) <==> |results| > 0 && !AllBuilt(recordFor, DetectionPairs(results))
    ensures r.Success? ==>
              |r.value| == |DetectionPairs(results)|
              && forall k :: 0 <= k < |r.value| ==> Some(r.value[k]) == recordFor(DetectionPairs(results)[k].0, DetectionPairs(results)[k].1)
  {
    PairsOfFiltered(results);
    if |results| == 0 then Failure(NoData)
    else
      var pairs := DetectionPairs(WithDetections(results));
      if AllBuilt(recordFor, pairs) then Success(Built(recordFor, pairs)) else Failure(MissingArrivalTime)
  }

  /** When every detection's record can be built, the list is posted: one
      record per detection. */
  lemma PostedWhenAllBuilt<R>(recordFor: (BatchAnalysisResult, Detection) -> Option<R>, results: seq<BatchAnalysisResult>)
    requires |results| > 0
    requires forall k, a :: 0 <= k < |results| && 0 <= a < |results[k].detections| ==>
               recordFor(results[k], results[k].detections[a]).Some?
    ensures Posted(recordFor, results).Success?
    ensures |Posted(recordFor, results).value| == DetectionCount(results)
  {
    var pairs := DetectionPairs(results);
    PairsBelong(results);
    PairsCount(results);
    forall k | 0 <= k < |pairs|
      ensures recordFor(pairs[k].0, pairs[k].1).Some?
    {
      var i :| 0 <= i < |results| && results[i] == pairs[k].0;
      var a :| 0 <= a < |results[i].detections| && results[i].detections[a] == pairs[k].1;
    }
  }

  /** The records built so far are those of the first pairs. */
  ghost predicate RecordsMatch<R>(recordFor: (BatchAnalysisResult, Detection) -> Option<R>, apiData: seq<R>,
                            pairs: seq<(BatchAnalysisResult, Detection)>) {
    |apiData| <= |pairs| && forall k :: 0 <= k < |apiData| ==> Some(apiData[k]) == recordFor(pairs[k].0, pairs[k].1)
  }

  lemma RecordsMatchPush<R>(recordFor: (BatchAnalysisResult, Detection) -> Option<R>, apiData: seq<R>,
                            pairs: seq<(BatchAnalysisResult, Detection)>, record: R)
    requires RecordsMatch(recordFor, apiData, pairs) && |apiData| < |pairs|
    requires recordFor(pairs[|apiData|].0, pairs[|apiData|].1) == Some(record)
    ensures RecordsMatch(recordFor, apiData + [record], pairs)
  {
  }

  lemma RecordsMatchAll<R>(recordFor: (BatchAnalysisResult, Detection) -> Option<R>, apiData: seq<R>,
                           pairs: seq<(BatchAnalysisResult, Detection)>)
    requires RecordsMatch(recordFor, apiData, pairs) && |apiData| == |pairs|
    ensures AllBuilt(recordFor, pairs) && apiData == Built(recordFor, pairs)
  {
  }

  /** The inner `forEach` of `sendDataToAPI`: pushes the record of each
      detection of one vehicle, the pairs `offset`, `offset + 1`, ... of
      all pairs; `false` when a record cannot be built. */
  method PushRecords<R>(recordFor: (BatchAnalysisResult, Detection) -> Option<R>, result: BatchAnalysisResult,
                        apiData: seq<R>, ghost pairs: seq<(BatchAnalysisResult, Detection)>, ghost offset: nat)
    returns (ok: bool, out: seq<R>)
    requires RecordsMatch(recordFor, apiData, pairs) && |apiData| == offset && offset + |result.detections| <= |pairs|
    requires forall j :: 0 <= j < |result.detections| ==> pairs[offset + j] == (result, result.detections[j])
    ensures ok ==> RecordsMatch(recordFor, out, pairs) && |out| == offset + |result.detections|
    ensures !ok ==> !AllBuilt(recordFor, pairs)
  {
    out := apiData;
    for j := 0 to |result.detections|
      invariant |out| == offset + j
      invariant RecordsMatch(recordFor, out, pairs)
    {
      var detection := result.detections[j];
      var record := recordFor(result, detection);
      if record.None? {
        assert recordFor(pairs[offset + j].0, pairs[offset + j].1).None?;
        return false, out;
      }
      RecordsMatchPush(recordFor, out, pairs, record.value);
      out := out + [record.value];
    }
    return true, out;
  }

  /** The outer `forEach` of `sendDataToAPI`: the records of every
      detection of every vehicle, vehicle by vehicle; `false` when one
      cannot be built. */
  method BuildRecords<R>(recordFor: (BatchAnalysisResult, Detection) -> Option<R>, vehicles: seq<BatchAnalysisResult>)
    returns (ok: bool, apiData: seq<R>)
    ensures ok <==> AllBuilt(recordFor, DetectionPairs(vehicles))
    ensures ok ==> apiData == Built(recordFor, DetectionPairs(vehicles))
  {
    ghost var pairs := DetectionPairs(vehicles);
    apiData := [];
    for v := 0 to |vehicles|
      invariant |apiData| == |DetectionPairs(vehicles[..v])| <= |pairs|
      invariant RecordsMatch(recordFor, apiData, pairs)
    {
      ghost var offset := |DetectionPairs(vehicles[..v])|;
      PairsStep(vehicles, v);
      ok, apiData := PushRecords(recordFor, vehicles[v], apiData, pairs, offset);
      if !ok {
        return;
      }
    }
    assert vehicles[..|vehicles|] == vehicles;
    RecordsMatchAll(recordFor, apiData, pairs);
    ok := true;
  }

  /** `sendDataToAPI` up to the request: no results is an error, and
      otherwise the records of every detection of every vehicle with
      detections. */
  method SendRecords<R>(recordFor: (BatchAnalysisResult, Detection) -> Option<R>, batchResults: seq<BatchAnalysisResult>)
    returns (r: Result<seq<R>, SendError>)
    ensures r == Posted(recordFor, batchResults)
  {
    if |batchResults| == 0 {
      return Failure(NoData);
    }
    var vehiclesWithDetections := WithDetections(batchResults);
    PairsOfFiltered(batchResults);
    var ok, apiData := BuildRecords(recordFor, vehiclesWithDetections);
    if !ok {
      return Failure(MissingArrivalTime);
    }
    return Success(apiData);
  }
}
