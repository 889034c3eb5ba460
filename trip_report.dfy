/** What `calculate` returns besides the segments: the trip summary, and the
    daily logs of a plan seen against its segments. */
module TripReport {
  import opened Clock
  import opened Timeline
  import opened PlanFacts
  import opened DailyLogs

  /** The `summary` dictionary. */
  datatype Summary = Summary(
    totalDistance: real,
    totalDuration: real,
    fuelStops: nat,
    requiredRestStops: nat,
    totalTripTime: real,
    estimatedArrival: real)

  /** Stored hours of the driving segments. */
  function DrivingDurations(segs: seq<Segment>): real
    decreases |segs|
  {
    if segs == [] then 0.0
    else DrivingDurations(segs[..|segs| - 1])
         + (if Last(segs).segmentType == Driving then Last(segs).durationHours else 0.0)
  }

  /** The summary of a list of segments: the requested trip miles, the stored
      driving hours, the fuel stops, the sleeper resets, the stored hours of all
      segments, and the end of the last segment. */
  function Summarize(tripMiles: real, segs: seq<Segment>): Summary
    requires |segs| > 0
  {
    Summary(tripMiles, DrivingDurations(segs), CountOf(segs, Fuel), CountOf(segs, SleeperBerth),
            Durations(segs), Last(segs).endTime)
  }

  /** Exact elapsed hours of all segments. */
  function TotalElapsed(segs: seq<Segment>): real
    decreases |segs|
  {
    if segs == [] then 0.0 else TotalElapsed(segs[..|segs| - 1]) + Elapsed(Last(segs))
  }

  /** When each segment starts where the previous one ends, the last one ends the
      total elapsed time after the first one starts. */
  lemma {:induction false} ElapsedTelescopes(segs: seq<Segment>)
    requires |segs| > 0
    requires forall k :: 0 < k < |segs| ==> segs[k].startTime == segs[k - 1].endTime
    ensures Last(segs).endTime == segs[0].startTime + TotalElapsed(segs)
    decreases |segs|
  {
    var init := segs[..|segs| - 1];
    if |segs| == 1 {
      assert init == [];
    } else {
      assert init[0] == segs[0];
      ElapsedTelescopes(init);
      assert segs[|segs| - 1].startTime == init[|init| - 1].endTime;
    }
  }

  /** When every segment has the shape of a plan segment, the stored values add up
      to the exact ones within the rounding of each driving chunk: 0.005 h per
      chunk for the hours, 0.05 mile per chunk for the miles. */
  lemma {:induction false} StoredTotalsClose(segs: seq<Segment>)
    requires forall k :: 0 <= k < |segs| ==> SegmentShape(segs[k])
    ensures var n := CountOf(segs, Driving) as real;
      var hd := CountersAfter(segs).hoursDriven;
      TotalElapsed(segs) - 0.005 * n <= Durations(segs) <= TotalElapsed(segs) + 0.005 * n &&
      hd - 0.005 * n <= DrivingDurations(segs) <= hd + 0.005 * n &&
      DefaultAvgSpeed * hd - 0.05 * n <= TotalMiles(segs) <= DefaultAvgSpeed * hd + 0.05 * n
    decreases |segs|
  {
    if segs != [] {
      var init := segs[..|segs| - 1];
      var x := Last(segs);
      assert SegmentShape(segs[|segs| - 1]);
      forall k | 0 <= k < |init| ensures SegmentShape(init[k]) {
        assert init[k] == segs[k];
      }
      StoredTotalsClose(init);
      assert init + [x] == segs;
      AppendOne(init, x);
    }
  }

  /** The summary of a plan. The total distance is the requested miles. The
      arrival is the start plus the exact elapsed time, and the reported trip time
      (a sum of stored durations) is within 0.005 h per driving chunk of it. For a
      positive trip the reported driving hours are within 0.005 h per chunk of the
      trip miles at 55 mph; the sleeper resets are enough for 11 driving hours
      each plus the first window; and each fuel stop stands for at least 1000
      stored miles. A trip of no miles is a pickup and a dropoff only. */
  lemma SummaryOfPlan(startTime: real, tripMiles: real, pickup: string, dropoff: string, segs: seq<Segment>)
    requires IsPlan(startTime, tripMiles, pickup, dropoff, segs)
    ensures var s := Summarize(tripMiles, segs);
      var n := CountOf(segs, Driving) as real;
      s.totalDistance == tripMiles &&
      s.estimatedArrival == startTime + TotalElapsed(segs) &&
      s.estimatedArrival - startTime - 0.005 * n <= s.totalTripTime <= s.estimatedArrival - startTime + 0.005 * n &&
      FuelRange * (s.fuelStops as real) <= TotalMiles(segs) &&
      (tripMiles > 0.0 ==>
         tripMiles / DefaultAvgSpeed - 0.005 * n <= s.totalDuration <= tripMiles / DefaultAvgSpeed + 0.005 * n &&
         tripMiles / DefaultAvgSpeed <= MaxDailyDriving * (s.requiredRestStops as real + 1.0)) &&
      (tripMiles <= 0.0 ==> s == Summary(tripMiles, 0.0, 0, 0, 2.0, startTime + 2.0))
  {
    var loop := segs[..|segs| - 1];
    var last := segs[|segs| - 1];
    assert segs == loop + [last];
    AppendOne(loop, last);
    PlanShape(startTime, tripMiles, pickup, dropoff, segs);
    ElapsedTelescopes(segs);
    StoredTotalsClose(segs);
    PlanCoversTrip(startTime, tripMiles, pickup, dropoff, segs);
    RestStopsLowerBound(startTime, tripMiles, pickup, dropoff, segs);
    FuelStopSpacing(startTime, tripMiles, pickup, loop);
    assert CountOf(segs, Fuel) == CountOf(loop, Fuel) && TotalMiles(segs) == TotalMiles(loop);
    if tripMiles <= 0.0 {
      PickupDropoffSummary(tripMiles, segs);
    }
  }

  /** The summary of a plan made of the pickup and the dropoff only. */
  lemma PickupDropoffSummary(tripMiles: real, segs: seq<Segment>)
    requires |segs| == 2 && segs[0].segmentType == Pickup && segs[1].segmentType == Dropoff
    requires segs[0].durationHours == PickupDropoffDuration && segs[1].durationHours == PickupDropoffDuration
    ensures Summarize(tripMiles, segs) == Summary(tripMiles, 0.0, 0, 0, 2.0, segs[1].endTime)
  {
    var first := segs[..1];
    assert first == [segs[0]] && first[..0] == [];
    assert Last(first) == segs[0] && Last(segs) == segs[1];
    assert CountOf(first, Driving) == 0 && CountOf(first, Fuel) == 0 && CountOf(first, SleeperBerth) == 0;
    assert DrivingDurations(first) == 0.0 && Durations(first) == PickupDropoffDuration;
  }

  /** The daily logs of a plan cover consecutive calendar dates from the pickup's
      date to the dropoff's, numbered from 1, and reading their entries in order
      gives one entry per segment, in segment order. */
  lemma PlanLogs(startTime: real, tripMiles: real, pickup: string, dropoff: string, segs: seq<Segment>)
    requires IsPlan(startTime, tripMiles, pickup, dropoff, segs)
    ensures var logs := DailyLogsOf(segs);
      var first := StartDate(segs[0]);
      |logs| == StartDate(segs[|segs| - 1]) - first + 1 &&
      (forall j :: 0 <= j < |logs| ==> logs[j].logDate == first + j && logs[j].dayNumber == j + 1) &&
      AllEntries(logs) == EntriesOf(segs)
  {
    PlanShape(startTime, tripMiles, pickup, dropoff, segs);
    assert Chronological(segs) by {
      forall k | 0 <= k < |segs| ensures 0.0 <= Elapsed(segs[k]) <= HoursPerDay {
        assert SegmentShape(segs[k]);
      }
    }
    ConsecutiveDates(segs);
    DailyLogsFacts(segs);
    LogsHoldAllEntries(segs);
  }
}
