/** The trip timeline built by `HOSCalculator.calculate`: segment records, the
    counters the simulation keeps (each one a function of the segments emitted
    so far), the segment each loop iteration appends, and why the loop ends. */
module Timeline {
  import opened Clock

  // Regulatory limits and planning assumptions, as the calculator declares them.
  const MaxDailyDriving: real := 11.0
  const MaxDailyOnDuty: real := 14.0
  /** Declared by the calculator, never consulted by the simulation. */
  const MaxCycleHours: real := 70.0
  const RequiredOffDuty: real := 10.0
  const BreakRequirementHours: real := 8.0
  const DefaultAvgSpeed: real := 55.0
  const FuelRange: real := 1000.0
  const FuelStopDuration: real := 0.5
  const PickupDropoffDuration: real := 1.0
  /** Written as a literal in the loop: length of a rest break. */
  const RestBreakDuration: real := 0.5
  /** Written as a literal in the loop: longest driving chunk. */
  const MaxChunkHours: real := 4.0

  datatype SegmentType = Driving | RestBreak | SleeperBerth | Fuel | Pickup | Dropoff

  /** One segment record. `durationHours` and `distanceMiles` are the stored (rounded)
      values; `endTime - startTime` is the exact elapsed time. */
  datatype Segment = Segment(
    segmentType: SegmentType,
    sequenceNumber: int,
    startTime: real,
    endTime: real,
    durationHours: real,
    distanceMiles: real,
    location: string)

  function Last(segs: seq<Segment>): Segment
    requires |segs| > 0
  {
    segs[|segs| - 1]
  }

  /** Exact elapsed time of a segment, in hours. */
  function Elapsed(s: Segment): real {
    s.endTime - s.startTime
  }

  function Min(a: real, b: real): (m: real)
    ensures m <= a && m <= b && (m == a || m == b)
  {
    if a <= b then a else b
  }

  // ---------------------------------------------------------------------------
  // The simulation's counters

  /** The loop's counters `daily_driving_hours`, `daily_on_duty_hours` and
      `time_since_break`, and the hours driven in all, which fix `miles_remaining`. */
  datatype Counters = Counters(dailyDriving: real, dailyOnDuty: real, sinceBreak: real, hoursDriven: real)

  /** How one segment moves the counters. */
  function Advance(c: Counters, s: Segment): Counters {
    var e := Elapsed(s);
    match s.segmentType
    case Driving => Counters(c.dailyDriving + e, c.dailyOnDuty + e, c.sinceBreak + e, c.hoursDriven + e)
    case Fuel => Counters(c.dailyDriving, c.dailyOnDuty + e, c.sinceBreak + e, c.hoursDriven)
    case Pickup => Counters(c.dailyDriving, c.dailyOnDuty + e, c.sinceBreak, c.hoursDriven)
    case RestBreak => Counters(c.dailyDriving, c.dailyOnDuty, 0.0, c.hoursDriven)
    case SleeperBerth => Counters(0.0, 0.0, 0.0, c.hoursDriven)
    case Dropoff => c
  }

  /** The counters after the segments emitted so far. */
  function CountersAfter(segs: seq<Segment>): Counters
    decreases |segs|
  {
    if segs == [] then Counters(0.0, 0.0, 0.0, 0.0)
    else Advance(CountersAfter(segs[..|segs| - 1]), Last(segs))
  }

  /** `miles_remaining`: each driving chunk takes off its unrounded miles. */
  function MilesRemaining(tripMiles: real, segs: seq<Segment>): real {
    tripMiles - DefaultAvgSpeed * CountersAfter(segs).hoursDriven
  }

  /** Reference definition: elapsed hours of the segments whose kind is in
      `counted`, summed over the segments after the last one whose kind is in
      `resets`. */
  ghost function HoursSince(segs: seq<Segment>, counted: set<SegmentType>, resets: set<SegmentType>): real
    decreases |segs|
  {
    if segs == [] then 0.0
    else if Last(segs).segmentType in resets then 0.0
    else HoursSince(segs[..|segs| - 1], counted, resets)
         + (if Last(segs).segmentType in counted then Elapsed(Last(segs)) else 0.0)
  }

  /** Before the dropoff, each counter is a sum since its last reset: daily
      driving counts driving since the last sleeper berth; daily on-duty counts
      pickup, fuel and driving since the last sleeper berth; since-break counts
      fuel and driving since the last rest break or sleeper berth; hours driven
      counts all driving. */
  lemma {:induction false} CountersAreSumsSinceReset(segs: seq<Segment>)
    requires forall k :: 0 <= k < |segs| ==> segs[k].segmentType != Dropoff
    ensures CountersAfter(segs).dailyDriving == HoursSince(segs, {Driving}, {SleeperBerth})
    ensures CountersAfter(segs).dailyOnDuty == HoursSince(segs, {Driving, Fuel, Pickup}, {SleeperBerth})
    ensures CountersAfter(segs).sinceBreak == HoursSince(segs, {Driving, Fuel}, {RestBreak, SleeperBerth})
    ensures CountersAfter(segs).hoursDriven == HoursSince(segs, {Driving}, {})
    decreases |segs|
  {
    if segs != [] {
      CountersAreSumsSinceReset(segs[..|segs| - 1]);
      assert Last(segs).segmentType != Dropoff;
    }
  }

  // ---------------------------------------------------------------------------
  // The fuel predicate

  /** Stored miles of the segments after the last fuel segment, scanning backwards. */
  function MilesSinceFuel(segs: seq<Segment>): real
    decreases |segs|
  {
    if segs == [] then 0.0
    else if Last(segs).segmentType == Fuel then 0.0
    else MilesSinceFuel(segs[..|segs| - 1]) + Last(segs).distanceMiles
  }

  /** Stored miles of all segments. */
  function TotalMiles(segs: seq<Segment>): real
    decreases |segs|
  {
    if segs == [] then 0.0 else TotalMiles(segs[..|segs| - 1]) + Last(segs).distanceMiles
  }

  /** `_needs_fuel_stop`. */
  predicate NeedsFuel(segs: seq<Segment>) {
    MilesSinceFuel(segs) >= FuelRange
  }

  /** With no fuel segment, the backward scan covers every segment. */
  lemma {:induction false} NoFuelScansAll(segs: seq<Segment>)
    requires forall k :: 0 <= k < |segs| ==> segs[k].segmentType != Fuel
    ensures MilesSinceFuel(segs) == TotalMiles(segs)
    decreases |segs|
  {
    if segs != [] {
      NoFuelScansAll(segs[..|segs| - 1]);
    }
  }

  /** With a last fuel segment at index `j`, the scan covers exactly the segments after it. */
  lemma {:induction false} ScanStopsAtLastFuel(segs: seq<Segment>, j: int)
    requires 0 <= j < |segs| && segs[j].segmentType == Fuel
    requires forall k :: j < k < |segs| ==> segs[k].segmentType != Fuel
    ensures MilesSinceFuel(segs) == TotalMiles(segs[j + 1..])
    decreases |segs|
  {
    if j == |segs| - 1 {
      assert segs[j + 1..] == [];
    } else {
      var init := segs[..|segs| - 1];
      ScanStopsAtLastFuel(init, j);
      assert init[j + 1..] == segs[j + 1..][..|segs| - j - 2];
    }
  }

  // ---------------------------------------------------------------------------
  // One loop iteration

  function PickupSegment(startTime: real, location: string): Segment {
    Segment(Pickup, 1, startTime, startTime + PickupDropoffDuration, PickupDropoffDuration, 0.0, location)
  }

  function DropoffSegment(sequenceNumber: int, time: real, location: string): Segment {
    Segment(Dropoff, sequenceNumber, time, time + PickupDropoffDuration, PickupDropoffDuration, 0.0, location)
  }

  /** The daily driving or on-duty allowance is used up. */
  predicate LimitReached(c: Counters) {
    MaxDailyDriving - c.dailyDriving <= 0.0 || MaxDailyOnDuty - c.dailyOnDuty <= 0.0
  }

  /** Length of the next driving chunk: the least of the driving allowance left,
      the on-duty allowance left, the hours the remaining miles take, and 4 hours. */
  function ChunkHours(c: Counters, milesRemaining: real): real {
    Min(Min(Min(MaxDailyDriving - c.dailyDriving, MaxDailyOnDuty - c.dailyOnDuty),
            milesRemaining / DefaultAvgSpeed),
        MaxChunkHours)
  }

  /** The driving segment of `h` hours starting at `t`, with its duration rounded
      to 0.01 h and its distance to 0.1 mile. */
  function DrivingSegment(sequenceNumber: int, t: real, h: real): Segment {
    Segment(Driving, sequenceNumber, t, t + h, RoundHundredths(h), RoundTenths(h * DefaultAvgSpeed), "On Route")
  }

  /** The segment one iteration of the simulation loop appends after `segs`: the
      first rule that applies, in the order fuel, break, daily reset, driving. */
  function NextSegment(tripMiles: real, segs: seq<Segment>): Segment
    requires |segs| > 0
  {
    var n := |segs| + 1;
    var t := Last(segs).endTime;
    var c := CountersAfter(segs);
    if NeedsFuel(segs) then
      Segment(Fuel, n, t, t + FuelStopDuration, FuelStopDuration, 0.0, "Fuel Station")
    else if c.sinceBreak >= BreakRequirementHours then
      Segment(RestBreak, n, t, t + RestBreakDuration, RestBreakDuration, 0.0, "Rest Stop")
    else if LimitReached(c) then
      Segment(SleeperBerth, n, t, t + RequiredOffDuty, RequiredOffDuty, 0.0, "Rest Area")
    else
      DrivingSegment(n, t, ChunkHours(c, MilesRemaining(tripMiles, segs)))
  }

  /** Every segment after the first was appended by a loop iteration, entered
      while miles remained. */
  ghost predicate LoopTrace(tripMiles: real, segs: seq<Segment>)
    decreases |segs|
  {
    |segs| <= 1 ||
    (LoopTrace(tripMiles, segs[..|segs| - 1]) &&
     MilesRemaining(tripMiles, segs[..|segs| - 1]) > 0.0 &&
     Last(segs) == NextSegment(tripMiles, segs[..|segs| - 1]))
  }

  /** `segs` is the timeline the calculator produces for these inputs: a pickup,
      one loop segment per iteration while miles remain, then a dropoff. */
  ghost predicate IsPlan(startTime: real, tripMiles: real, pickup: string, dropoff: string, segs: seq<Segment>) {
    |segs| >= 2 &&
    segs[0] == PickupSegment(startTime, pickup) &&
    LoopTrace(tripMiles, segs[..|segs| - 1]) &&
    MilesRemaining(tripMiles, segs[..|segs| - 1]) <= 0.0 &&
    segs[|segs| - 1] == DropoffSegment(|segs|, segs[|segs| - 2].endTime, dropoff)
  }

  /** Appending one segment: the prefix is unchanged and the counters and the
      fuel scan advance by that segment alone. */
  lemma AppendOne(segs: seq<Segment>, x: Segment)
    ensures (segs + [x])[..|segs|] == segs && Last(segs + [x]) == x
    ensures CountersAfter(segs + [x]) == Advance(CountersAfter(segs), x)
    ensures MilesSinceFuel(segs + [x]) == if x.segmentType == Fuel then 0.0 else MilesSinceFuel(segs) + x.distanceMiles
  {
    assert (segs + [x])[..|segs|] == segs;
  }

  // ---------------------------------------------------------------------------
  // Termination of the simulation loop

  /** A fresh daily window: nothing driven since the reset and at most the pickup
      or one fuel stop on duty, so the next chunk is not cut by a daily limit. */
  ghost predicate FreshWindow(segs: seq<Segment>) {
    var c := CountersAfter(segs);
    c.dailyDriving == 0.0 && (c.dailyOnDuty <= 1.0 || (c.dailyOnDuty <= 1.5 && !NeedsFuel(segs)))
  }

  /** Integer progress measure: twice the whole 220-mile (four-hour) chunks left,
      plus one while a chunk cut short by a daily limit is still possible. */
  function DriveMeasure(milesRemaining: real, slack: int): int {
    2 * (if milesRemaining > 0.0 then (milesRemaining / 220.0).Floor else 0) + slack
  }

  /** A driving step of `h` hours lowers the measure, or ends the trip without raising it. */
  lemma DriveLowersMeasure(milesRemaining: real, h: real, slack: int)
    requires milesRemaining > 0.0 && 0.0 < h <= MaxChunkHours && h <= milesRemaining / DefaultAvgSpeed
    requires slack == 0 || slack == 1
    requires slack == 0 ==> h == Min(milesRemaining / DefaultAvgSpeed, MaxChunkHours)
    ensures var rest := milesRemaining - h * DefaultAvgSpeed;
      var slack' := if h < MaxChunkHours || rest <= 0.0 then 0 else 1;
      DriveMeasure(rest, slack') < DriveMeasure(milesRemaining, slack) ||
      (rest <= 0.0 && DriveMeasure(rest, slack') == 0)
  {
    var rest := milesRemaining - h * DefaultAvgSpeed;
    var f := (milesRemaining / 220.0).Floor;
    assert f >= 0;
    if h == MaxChunkHours && rest > 0.0 {
      assert rest / 220.0 == milesRemaining / 220.0 - 1.0;
      assert (rest / 220.0).Floor == f - 1;
    } else if rest > 0.0 {
      assert rest / 220.0 <= milesRemaining / 220.0;
    }
  }

  /** What the simulation loop keeps true of the segments emitted so far. */
  ghost predicate SimulationInvariant(startTime: real, tripMiles: real, pickup: string,
                                      segs: seq<Segment>, slack: int) {
    |segs| >= 1 && segs[0] == PickupSegment(startTime, pickup) &&
    LoopTrace(tripMiles, segs) &&
    (slack == 0 || slack == 1) &&
    (slack == 0 ==> MilesRemaining(tripMiles, segs) <= 0.0 || LimitReached(CountersAfter(segs)) || FreshWindow(segs))
  }

  /** The loop's termination measure: the drive measure first, then whether miles
      remain, then the fuel, break and daily-limit triggers, each a single bit. */
  ghost function LoopMeasure(tripMiles: real, segs: seq<Segment>, slack: int): int {
    var mr := MilesRemaining(tripMiles, segs);
    var c := CountersAfter(segs);
    16 * DriveMeasure(mr, slack)
    + 8 * (if mr > 0.0 then 1 else 0)
    + 4 * (if NeedsFuel(segs) then 1 else 0)
    + 2 * (if c.sinceBreak >= BreakRequirementHours then 1 else 0)
    + (if LimitReached(c) then 1 else 0)
  }

  /** The loop invariant of `calculate`: the history invariant, and each local
      equal to the function of the history that it tracks. */
  ghost predicate LoopState(startTime: real, tripMiles: real, pickup: string, segs: seq<Segment>, slack: int,
                            sequence: int, currentTime: real, milesRemaining: real,
                            dailyDrivingHours: real, dailyOnDutyHours: real, timeSinceBreak: real) {
    SimulationInvariant(startTime, tripMiles, pickup, segs, slack) &&
    sequence == |segs| + 1 && currentTime == Last(segs).endTime &&
    milesRemaining == MilesRemaining(tripMiles, segs) &&
    dailyDrivingHours == CountersAfter(segs).dailyDriving &&
    dailyOnDutyHours == CountersAfter(segs).dailyOnDuty &&
    timeSinceBreak == CountersAfter(segs).sinceBreak
  }

  /** The state right after the pickup segment satisfies the loop invariant. */
  lemma StartState(startTime: real, tripMiles: real, pickup: string)
    ensures var p := PickupSegment(startTime, pickup);
      LoopState(startTime, tripMiles, pickup, [p], 0, 2, p.endTime, tripMiles,
                0.0, PickupDropoffDuration, 0.0)
  {
    var p := PickupSegment(startTime, pickup);
    AppendOne([], p);
    assert [p] == [] + [p];
  }

  /** Rule 1: once 1000 stored miles have accumulated since the last fuel stop, a
      0.5 h fuel stop; it keeps the invariant and lowers the measure. */
  lemma FuelIteration(startTime: real, tripMiles: real, pickup: string, segs: seq<Segment>, slack: int,
                      sequence: int, currentTime: real, milesRemaining: real,
                      dailyDrivingHours: real, dailyOnDutyHours: real, timeSinceBreak: real, x: Segment)
    requires LoopState(startTime, tripMiles, pickup, segs, slack, sequence, currentTime, milesRemaining,
                       dailyDrivingHours, dailyOnDutyHours, timeSinceBreak)
    requires milesRemaining > 0.0 && NeedsFuel(segs)
    requires x == Segment(Fuel, sequence, currentTime, currentTime + FuelStopDuration,
                          FuelStopDuration, 0.0, "Fuel Station")
    ensures x == NextSegment(tripMiles, segs)
    ensures LoopState(startTime, tripMiles, pickup, segs + [x], slack, sequence + 1, x.endTime, milesRemaining,
                      dailyDrivingHours, dailyOnDutyHours + FuelStopDuration, timeSinceBreak + FuelStopDuration)
    ensures 0 <= LoopMeasure(tripMiles, segs + [x], slack) < LoopMeasure(tripMiles, segs, slack)
  {
    AppendOne(segs, x);
    assert (segs + [x])[0] == segs[0];
  }

  /** Rule 2: once 8 h of driving and fuelling have accumulated since the last
      break, a 0.5 h rest break; it keeps the invariant and lowers the measure. */
  lemma BreakIteration(startTime: real, tripMiles: real, pickup: string, segs: seq<Segment>, slack: int,
                       sequence: int, currentTime: real, milesRemaining: real,
                       dailyDrivingHours: real, dailyOnDutyHours: real, timeSinceBreak: real, x: Segment)
    requires LoopState(startTime, tripMiles, pickup, segs, slack, sequence, currentTime, milesRemaining,
                       dailyDrivingHours, dailyOnDutyHours, timeSinceBreak)
    requires milesRemaining > 0.0 && !NeedsFuel(segs) && timeSinceBreak >= BreakRequirementHours
    requires x == Segment(RestBreak, sequence, currentTime, currentTime + RestBreakDuration,
                          RestBreakDuration, 0.0, "Rest Stop")
    ensures x == NextSegment(tripMiles, segs)
    ensures LoopState(startTime, tripMiles, pickup, segs + [x], slack, sequence + 1, x.endTime, milesRemaining,
                      dailyDrivingHours, dailyOnDutyHours, 0.0)
    ensures 0 <= LoopMeasure(tripMiles, segs + [x], slack) < LoopMeasure(tripMiles, segs, slack)
  {
    AppendOne(segs, x);
    assert (segs + [x])[0] == segs[0];
  }

  /** Rule 3: once the daily driving or on-duty allowance is used up, a 10 h
      sleeper-berth reset; it keeps the invariant and lowers the measure. */
  lemma SleeperIteration(startTime: real, tripMiles: real, pickup: string, segs: seq<Segment>, slack: int,
                         sequence: int, currentTime: real, milesRemaining: real,
                         dailyDrivingHours: real, dailyOnDutyHours: real, timeSinceBreak: real, x: Segment)
    requires LoopState(startTime, tripMiles, pickup, segs, slack, sequence, currentTime, milesRemaining,
                       dailyDrivingHours, dailyOnDutyHours, timeSinceBreak)
    requires milesRemaining > 0.0 && !NeedsFuel(segs) && timeSinceBreak < BreakRequirementHours
    requires MaxDailyDriving - dailyDrivingHours <= 0.0 || MaxDailyOnDuty - dailyOnDutyHours <= 0.0
    requires x == Segment(SleeperBerth, sequence, currentTime, currentTime + RequiredOffDuty,
                          RequiredOffDuty, 0.0, "Rest Area")
    ensures x == NextSegment(tripMiles, segs)
    ensures LoopState(startTime, tripMiles, pickup, segs + [x], 0, sequence + 1, x.endTime, milesRemaining,
                      0.0, 0.0, 0.0)
    ensures 0 <= LoopMeasure(tripMiles, segs + [x], 0) < LoopMeasure(tripMiles, segs, slack)
  {
    AppendOne(segs, x);
    assert (segs + [x])[0] == segs[0];
  }

  /** A driving iteration keeps the history invariant and lowers the measure. */
  lemma DrivingStep(startTime: real, tripMiles: real, pickup: string, segs: seq<Segment>, slack: int)
    requires SimulationInvariant(startTime, tripMiles, pickup, segs, slack)
    requires MilesRemaining(tripMiles, segs) > 0.0 && !NeedsFuel(segs)
    requires CountersAfter(segs).sinceBreak < BreakRequirementHours && !LimitReached(CountersAfter(segs))
    ensures var x := NextSegment(tripMiles, segs);
      var slack' := if Elapsed(x) < MaxChunkHours || MilesRemaining(tripMiles, segs + [x]) <= 0.0 then 0 else 1;
      SimulationInvariant(startTime, tripMiles, pickup, segs + [x], slack') &&
      0 <= LoopMeasure(tripMiles, segs + [x], slack') < LoopMeasure(tripMiles, segs, slack)
  {
    var x := NextSegment(tripMiles, segs);
    var mr := MilesRemaining(tripMiles, segs);
    AppendOne(segs, x);
    assert (segs + [x])[0] == segs[0];
    assert MilesRemaining(tripMiles, segs + [x]) == mr - Elapsed(x) * DefaultAvgSpeed;
    DriveLowersMeasure(mr, Elapsed(x), slack);
  }

  /** Rule 4: otherwise a driving chunk of `h` hours covering `miles` unrounded
      miles, which come off the remaining miles. It keeps the invariant and
      lowers the measure. */
  lemma DrivingIteration(startTime: real, tripMiles: real, pickup: string, segs: seq<Segment>, slack: int,
                         sequence: int, currentTime: real, milesRemaining: real,
                         dailyDrivingHours: real, dailyOnDutyHours: real, timeSinceBreak: real,
                         h: real, miles: real, x: Segment)
    requires LoopState(startTime, tripMiles, pickup, segs, slack, sequence, currentTime, milesRemaining,
                       dailyDrivingHours, dailyOnDutyHours, timeSinceBreak)
    requires milesRemaining > 0.0 && !NeedsFuel(segs) && timeSinceBreak < BreakRequirementHours
    requires MaxDailyDriving - dailyDrivingHours > 0.0 && MaxDailyOnDuty - dailyOnDutyHours > 0.0
    requires h == Min(Min(Min(MaxDailyDriving - dailyDrivingHours, MaxDailyOnDuty - dailyOnDutyHours),
                          milesRemaining / DefaultAvgSpeed), MaxChunkHours)
    requires miles == h * DefaultAvgSpeed
    requires x == Segment(Driving, sequence, currentTime, currentTime + h,
                          RoundHundredths(h), RoundTenths(miles), "On Route")
    ensures x == NextSegment(tripMiles, segs)
    ensures var slack' := if h < MaxChunkHours || milesRemaining - miles <= 0.0 then 0 else 1;
      LoopState(startTime, tripMiles, pickup, segs + [x], slack', sequence + 1, x.endTime, milesRemaining - miles,
                dailyDrivingHours + h, dailyOnDutyHours + h, timeSinceBreak + h) &&
      0 <= LoopMeasure(tripMiles, segs + [x], slack') < LoopMeasure(tripMiles, segs, slack)
  {
    assert x == NextSegment(tripMiles, segs);
    assert Elapsed(x) == h;
    DrivingStep(startTime, tripMiles, pickup, segs, slack);
    AppendOne(segs, x);
  }
}
