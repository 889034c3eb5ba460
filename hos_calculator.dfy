/** `HOSCalculator`: the trip simulation itself. */
module HOS {
  import opened Clock
  import opened Timeline
  import opened DailyLogs
  import opened TripReport

  /** What `calculate` returns. */
  datatype TripPlan = TripPlan(segments: seq<Segment>, summary: Summary, dailyLogs: seq<DailyLog>)

  class HOSCalculator {
    const startTime: real
    const tripMiles: real
    /** Stored, never consulted by the simulation. */
    const currentCycleUsed: real
    /** Stored, never consulted by the simulation. */
    const currentLocation: string
    const pickupLocation: string
    const dropoffLocation: string

    constructor (startTime: real, tripMiles: real, currentCycleUsed: real,
                 currentLocation: string, pickupLocation: string, dropoffLocation: string)
      ensures this.startTime == startTime && this.tripMiles == tripMiles
      ensures this.currentCycleUsed == currentCycleUsed && this.currentLocation == currentLocation
      ensures this.pickupLocation == pickupLocation && this.dropoffLocation == dropoffLocation
    {
      this.startTime := startTime;
      this.tripMiles := tripMiles;
      this.currentCycleUsed := currentCycleUsed;
      this.currentLocation := currentLocation;
      this.pickupLocation := pickupLocation;
      this.dropoffLocation := dropoffLocation;
    }

    /** The simulation: a pickup, then one segment per iteration while miles
        remain (fuel, break, daily reset or driving, in that priority), then a
        dropoff; then the daily logs and the summary of those segments. */
    method Calculate() returns (plan: TripPlan)
      ensures IsPlan(startTime, tripMiles, pickupLocation, dropoffLocation, plan.segments)
      ensures plan.dailyLogs == DailyLogsOf(plan.segments)
      ensures plan.summary == Summarize(tripMiles, plan.segments)
    {
      var segments: seq<Segment> := [];
      var currentTime := startTime;
      var milesRemaining := tripMiles;
      var sequence := 1;

      var pickupSegment := Segment(Pickup, sequence, currentTime, currentTime + PickupDropoffDuration,
                                   PickupDropoffDuration, 0.0, pickupLocation);
      segments := segments + [pickupSegment];
      sequence := sequence + 1;
      currentTime := pickupSegment.endTime;

      var dailyDrivingHours := 0.0;
      var dailyOnDutyHours := PickupDropoffDuration;
      var timeSinceBreak := 0.0;
      // 0 when the next driving chunk is certain to be a full 4-hour chunk or the
      // last one, or when a daily reset must come before any more driving.
      ghost var slack := 0;
      StartState(startTime, tripMiles, pickupLocation);

      while milesRemaining > 0.0
        invariant LoopState(startTime, tripMiles, pickupLocation, segments, slack, sequence, currentTime,
                            milesRemaining, dailyDrivingHours, dailyOnDutyHours, timeSinceBreak)
        decreases LoopMeasure(tripMiles, segments, slack)
      {
        var needsFuel := NeedsFuelStop(segments);
        if needsFuel {
          var fuelSegment := Segment(Fuel, sequence, currentTime, currentTime + FuelStopDuration,
                                     FuelStopDuration, 0.0, "Fuel Station");
          FuelIteration(startTime, tripMiles, pickupLocation, segments, slack, sequence, currentTime,
                        milesRemaining, dailyDrivingHours, dailyOnDutyHours, timeSinceBreak, fuelSegment);
          segments := segments + [fuelSegment];
          sequence := sequence + 1;
          currentTime := fuelSegment.endTime;
          dailyOnDutyHours := dailyOnDutyHours + FuelStopDuration;
          timeSinceBreak := timeSinceBreak + FuelStopDuration;
          continue;
        }

        if timeSinceBreak >= BreakRequirementHours {
          var breakSegment := Segment(RestBreak, sequence, currentTime, currentTime + RestBreakDuration,
                                      RestBreakDuration, 0.0, "Rest Stop");
          BreakIteration(startTime, tripMiles, pickupLocation, segments, slack, sequence, currentTime,
                         milesRemaining, dailyDrivingHours, dailyOnDutyHours, timeSinceBreak, breakSegment);
          segments := segments + [breakSegment];
          sequence := sequence + 1;
          currentTime := breakSegment.endTime;
          timeSinceBreak := 0.0;
          continue;
        }

        var remainingDailyDriving := MaxDailyDriving - dailyDrivingHours;
        var remainingDailyOnDuty := MaxDailyOnDuty - dailyOnDutyHours;

        if remainingDailyDriving <= 0.0 || remainingDailyOnDuty <= 0.0 {
          var restSegment := Segment(SleeperBerth, sequence, currentTime, currentTime + RequiredOffDuty,
                                     RequiredOffDuty, 0.0, "Rest Area");
          SleeperIteration(startTime, tripMiles, pickupLocation, segments, slack, sequence, currentTime,
                           milesRemaining, dailyDrivingHours, dailyOnDutyHours, timeSinceBreak, restSegment);
          segments := segments + [restSegment];
          sequence := sequence + 1;
          currentTime := restSegment.endTime;
          dailyDrivingHours := 0.0;
          dailyOnDutyHours := 0.0;
          timeSinceBreak := 0.0;
          slack := 0;
          continue;
        }

        var hoursForRemainingMiles := milesRemaining / DefaultAvgSpeed;
        var maxDrivingHours := Min(Min(Min(remainingDailyDriving, remainingDailyOnDuty),
                                       hoursForRemainingMiles), MaxChunkHours);
        var segmentMiles := maxDrivingHours * DefaultAvgSpeed;

        var drivingSegment := Segment(Driving, sequence, currentTime, currentTime + maxDrivingHours,
                                      RoundHundredths(maxDrivingHours), RoundTenths(segmentMiles), "On Route");
        DrivingIteration(startTime, tripMiles, pickupLocation, segments, slack, sequence, currentTime,
                         milesRemaining, dailyDrivingHours, dailyOnDutyHours, timeSinceBreak,
                         maxDrivingHours, segmentMiles, drivingSegment);
        segments := segments + [drivingSegment];
        sequence := sequence + 1;

        currentTime := drivingSegment.endTime;
        dailyDrivingHours := dailyDrivingHours + maxDrivingHours;
        dailyOnDutyHours := dailyOnDutyHours + maxDrivingHours;
        timeSinceBreak := timeSinceBreak + maxDrivingHours;
        milesRemaining := milesRemaining - segmentMiles;
        slack := if maxDrivingHours < MaxChunkHours || milesRemaining <= 0.0 then 0 else 1;
      }

      var dropoffSegment := Segment(Dropoff, sequence, currentTime, currentTime + PickupDropoffDuration,
                                    PickupDropoffDuration, 0.0, dropoffLocation);
      ghost var loopSegments := segments;
      segments := segments + [dropoffSegment];
      assert segments[..|segments| - 1] == loopSegments;

      var dailyLogs := GenerateDailyLogs(segments);
      var summary := Summarize(tripMiles, segments);
      plan := TripPlan(segments, summary, dailyLogs);
    }

    /** `_needs_fuel_stop`: scan backwards, summing stored miles until a fuel segment. */
    method NeedsFuelStop(segments: seq<Segment>) returns (needs: bool)
      ensures needs == NeedsFuel(segments)
    {
      var milesSinceFuel := 0.0;
      var i := |segments|;
      var foundFuel := false;
      assert segments[..i] == segments;
      while i > 0 && !foundFuel
        invariant 0 <= i <= |segments|
        invariant foundFuel ==> i < |segments| && segments[i].segmentType == Fuel &&
                                MilesSinceFuel(segments) == MilesSinceFuel(segments[..i + 1]) + milesSinceFuel
        invariant !foundFuel ==> MilesSinceFuel(segments) == MilesSinceFuel(segments[..i]) + milesSinceFuel
        invariant !foundFuel ==> forall k :: i <= k < |segments| ==> segments[k].segmentType != Fuel
        decreases i, if foundFuel then 0 else 1
      {
        var segment := segments[i - 1];
        if segment.segmentType == Fuel {
          foundFuel := true;
          i := i - 1;
        } else {
          assert segments[..i - 1] + [segment] == segments[..i];
          AppendOne(segments[..i - 1], segment);
          milesSinceFuel := milesSinceFuel + segment.distanceMiles;
          i := i - 1;
        }
      }
      if !foundFuel {
        // The loop ran to the start without finding a fuel segment.
        NoFuelScansAll(segments);
        milesSinceFuel := TotalMiles(segments);
      }
      needs := milesSinceFuel >= FuelRange;
    }

    /** `_generate_daily_logs`: a first pass files each segment under its start
        date, opening a log for a date not seen before; a second pass pads every
        log with off-duty time up to 24 hours. */
    method GenerateDailyLogs(segments: seq<Segment>) returns (logs: seq<DailyLog>)
      ensures logs == DailyLogsOf(segments)
    {
      if |segments| == 0 {
        return [];
      }
      var dailyLogs: map<int, DailyLog> := map[];
      // The dates in the order they were added to `dailyLogs`.
      var order: seq<int> := [];
      var dayNumber := 1;
      var i := 0;
      while i < |segments|
        invariant 0 <= i <= |segments|
        invariant order == DistinctDates(segments[..i])
        invariant dayNumber == |order| + 1
        invariant FiledLogs(dailyLogs, segments[..i], order)
      {
        var segment := segments[i];
        var day := StartDate(segment);
        ghost var filed := segments[..i];
        assert segments[..i + 1] == filed + [segment];
        DistinctDatesAppend(filed, segment);
        if day !in dailyLogs {
          OpenDay(dailyLogs, filed, order, day);
          dailyLogs := dailyLogs[day := NewDay(day, dayNumber)];
          order := order + [day];
          dayNumber := dayNumber + 1;
        }
        FileSegment(dailyLogs, filed, order, segment);
        var log := RecordSegment(dailyLogs[day], segment);
        dailyLogs := dailyLogs[day := log];
        i := i + 1;
      }
      assert segments[..i] == segments;
      DistinctDatesFacts(segments);
      var padded := PadDays(dailyLogs, order);
      logs := seq(|order|, j requires 0 <= j < |order| => padded[order[j]]);
      PaddedInOrder(dailyLogs, padded, segments, logs);
    }

    /** The second pass: every day's log whose buckets total less than 24 hours
        gets the missing hours as off duty; the set of days does not change. */
    method PadDays(dailyLogs: map<int, DailyLog>, order: seq<int>) returns (padded: map<int, DailyLog>)
      requires forall d :: d in dailyLogs <==> d in order
      requires forall j :: 0 <= j < |order| ==> order[j] in dailyLogs
      requires NoDuplicates(order)
      ensures forall d :: d in padded <==> d in order
      ensures forall j :: 0 <= j < |order| ==> order[j] in padded && padded[order[j]] == Pad(dailyLogs[order[j]])
    {
      padded := dailyLogs;
      var k := 0;
      while k < |order|
        invariant 0 <= k <= |order|
        invariant forall d :: d in padded <==> d in order
        invariant forall j :: 0 <= j < |order| ==>
          order[j] in padded && padded[order[j]] == if j < k then Pad(dailyLogs[order[j]]) else dailyLogs[order[j]]
      {
        var date := order[k];
        var log := padded[date];
        var total := Total(log);
        if total < HoursPerDay {
          log := log.(offDutyHours := log.offDutyHours + (HoursPerDay - total));
        }
        ghost var before := padded;
        padded := padded[date := log];
        forall j | 0 <= j < |order|
          ensures order[j] in padded && padded[order[j]] == if j < k + 1 then Pad(dailyLogs[order[j]]) else dailyLogs[order[j]]
        {
          if j != k {
            assert order[j] != order[k];
            assert padded[order[j]] == before[order[j]];
          }
        }
        k := k + 1;
      }
    }

    /** The body of the first pass for one segment: its stored duration goes to
        the bucket of its kind (driving also adds its stored miles), and its entry,
        with start and end clock hours rounded to 0.01, is appended. */
    method RecordSegment(log: DailyLog, segment: Segment) returns (updated: DailyLog)
      ensures updated == AddSegment(log, segment)
    {
      updated := log;
      var duration := segment.durationHours;
      if segment.segmentType == Driving {
        updated := updated.(drivingHours := updated.drivingHours + duration,
                            totalMiles := updated.totalMiles + segment.distanceMiles);
      } else if segment.segmentType == SleeperBerth {
        updated := updated.(sleeperBerthHours := updated.sleeperBerthHours + duration);
      } else if segment.segmentType in {Fuel, Pickup, Dropoff} {
        updated := updated.(onDutyHours := updated.onDutyHours + duration);
      } else {
        updated := updated.(offDutyHours := updated.offDutyHours + duration);
      }
      var startHour := ClockHour(segment.startTime);
      var endHour := ClockHour(segment.endTime);
      updated := updated.(entries := updated.entries + [LogEntry(DutyStatusOf(segment.segmentType),
                                                                 RoundHundredths(startHour),
                                                                 RoundHundredths(endHour), segment.location)]);
    }
  }
}
