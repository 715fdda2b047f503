/** Per-route minute tables: the loop shared by `getDynamicMinutesForRoute5`,
    `getDynamicMinutesForRoute6` and `getDynamicMinutesForRoute25`, which
    returns the expected elapsed minutes of the first second range holding
    the start time, and a constant list when no range holds it. */
module Schedule {

  /** The second of the day at h:m:s. */
  function At(h: nat, m: nat, s: nat): nat {
    h * 3600 + m * 60 + s
  }

  /** One row of a table: the inclusive second range and its minutes, one per geofence. */
  datatype TimeRange = TimeRange(start: nat, end: nat, minutes: seq<nat>)

  predicate Holds(r: TimeRange, t: int) {
    r.start <= t <= r.end
  }

  /** The search loop: the first row whose range holds `t`, otherwise the fallback. */
  function Lookup(ranges: seq<TimeRange>, t: int, fallback: seq<nat>): (r: seq<nat>)
    ensures (forall i :: 0 <= i < |ranges| ==> !Holds(ranges[i], t)) ==> r == fallback
    ensures forall i :: 0 <= i < |ranges| && Holds(ranges[i], t) && (forall j :: 0 <= j < i ==> !Holds(ranges[j], t))
              ==> r == ranges[i].minutes
  {
    if |ranges| == 0 then fallback
    else if Holds(ranges[0], t) then ranges[0].minutes
    else
      var r := Lookup(ranges[1..], t, fallback);
      assert forall i :: 1 <= i < |ranges| ==> ranges[1..][i - 1] == ranges[i];
      r
  }

  /** The table, read from row `i` on, is ascending and gap-free and each row
      lists `width` minutes; checked row by row from the end. */
  predicate ChainFrom(ranges: seq<TimeRange>, i: nat, width: nat)
    decreases |ranges| - i
  {
    i >= |ranges| ||
    (ranges[i].start <= ranges[i].end && |ranges[i].minutes| == width &&
     (i + 1 < |ranges| ==> ranges[i].end + 1 == ranges[i + 1].start) &&
     ChainFrom(ranges, i + 1, width))
  }

  /** Every row's range is non-empty and starts one second after the previous row's ends. */
  predicate Contiguous(ranges: seq<TimeRange>) {
    forall i :: 0 <= i < |ranges| ==>
      ranges[i].start <= ranges[i].end && (i + 1 < |ranges| ==> ranges[i].end + 1 == ranges[i + 1].start)
  }

  predicate AllOfWidth(ranges: seq<TimeRange>, width: nat) {
    forall i :: 0 <= i < |ranges| ==> |ranges[i].minutes| == width
  }

  lemma {:induction false} ChainFromRows(ranges: seq<TimeRange>, i: nat, width: nat)
    requires ChainFrom(ranges, i, width)
    ensures forall j :: i <= j < |ranges| ==>
      ranges[j].start <= ranges[j].end && |ranges[j].minutes| == width &&
      (j + 1 < |ranges| ==> ranges[j].end + 1 == ranges[j + 1].start)
    decreases |ranges| - i
  {
    if i < |ranges| {
      ChainFromRows(ranges, i + 1, width);
    }
  }

  lemma ChainShape(ranges: seq<TimeRange>, width: nat)
    requires ChainFrom(ranges, 0, width)
    ensures Contiguous(ranges) && AllOfWidth(ranges, width)
  {
    ChainFromRows(ranges, 0, width);
  }

  /** In a contiguous table every row ends before any later row starts. */
  lemma {:induction false} EndsBefore(ranges: seq<TimeRange>, j: nat, i: nat)
    requires Contiguous(ranges) && j < i < |ranges|
    ensures ranges[j].end < ranges[i].start
    decreases i - j
  {
    if j + 1 < i {
      EndsBefore(ranges, j + 1, i);
    }
  }

  /** At most one row holds any second; the lookup returns that row. */
  lemma LookupInRow(ranges: seq<TimeRange>, i: nat, t: int, fallback: seq<nat>)
    requires Contiguous(ranges) && i < |ranges| && Holds(ranges[i], t)
    ensures forall j :: 0 <= j < |ranges| && j != i ==> !Holds(ranges[j], t)
    ensures Lookup(ranges, t, fallback) == ranges[i].minutes
  {
    forall j | 0 <= j < |ranges| && j != i
      ensures !Holds(ranges[j], t)
    {
      if j < i { EndsBefore(ranges, j, i); } else { EndsBefore(ranges, i, j); }
    }
  }

  /** A second before the first row or after the last gets the fallback. */
  lemma LookupOutside(ranges: seq<TimeRange>, t: int, fallback: seq<nat>)
    requires Contiguous(ranges) && |ranges| > 0
    requires t < ranges[0].start || t > ranges[|ranges| - 1].end
    ensures Lookup(ranges, t, fallback) == fallback
  {
    var last := |ranges| - 1;
    if t < ranges[0].start {
      forall i | 0 <= i < |ranges|
        ensures t < ranges[i].start
      {
        if 0 < i { EndsBefore(ranges, 0, i); }
      }
    } else {
      forall i | 0 <= i < |ranges|
        ensures ranges[i].end < t
      {
        if i < last { EndsBefore(ranges, i, last); }
      }
    }
  }

  /** Between the first start and the last end the table has no gap. */
  lemma {:induction false} CoveredFrom(ranges: seq<TimeRange>, k: nat, t: int)
    requires Contiguous(ranges) && k < |ranges|
    requires ranges[k].start <= t <= ranges[|ranges| - 1].end
    ensures exists i :: k <= i < |ranges| && Holds(ranges[i], t)
    decreases |ranges| - k
  {
    if t > ranges[k].end {
      CoveredFrom(ranges, k + 1, t);
    } else {
      assert Holds(ranges[k], t);
    }
  }

  lemma LookupCovered(ranges: seq<TimeRange>, t: int, fallback: seq<nat>)
    requires Contiguous(ranges) && |ranges| > 0
    requires ranges[0].start <= t <= ranges[|ranges| - 1].end
    ensures exists i :: 0 <= i < |ranges| && Holds(ranges[i], t) && Lookup(ranges, t, fallback) == ranges[i].minutes
  {
    CoveredFrom(ranges, 0, t);
    var i :| 0 <= i < |ranges| && Holds(ranges[i], t);
    LookupInRow(ranges, i, t, fallback);
  }

  /** When every row and the fallback have `width` entries, so has the lookup. */
  lemma LookupWidth(ranges: seq<TimeRange>, t: int, fallback: seq<nat>, width: nat)
    requires AllOfWidth(ranges, width) && |fallback| == width
    ensures |Lookup(ranges, t, fallback)| == width
  {
    if exists i :: 0 <= i < |ranges| && Holds(ranges[i], t) {
      var i := FirstHolding(ranges, t);
    }
  }

  /** The index of the first row holding `t`. */
  function FirstHolding(ranges: seq<TimeRange>, t: int): (i: nat)
    requires exists i :: 0 <= i < |ranges| && Holds(ranges[i], t)
    ensures i < |ranges| && Holds(ranges[i], t) && forall j :: 0 <= j < i ==> !Holds(ranges[j], t)
  {
    if Holds(ranges[0], t) then 0
    else
      assert exists i :: 0 <= i < |ranges[1..]| && Holds(ranges[1..][i], t) by {
        var i :| 0 <= i < |ranges| && Holds(ranges[i], t);
        assert ranges[1..][i - 1] == ranges[i];
      }
      var k := FirstHolding(ranges[1..], t);
      assert ranges[1..][k] == ranges[k + 1];
      assert forall j :: 1 <= j < k + 1 ==> ranges[j] == ranges[1..][j - 1];
      k + 1
  }
}
