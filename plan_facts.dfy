/** What every timeline the calculator can produce satisfies: the shape of the
    segment list, the bounds on each driving chunk, the daily caps, the rule
    priority, progress, and how far the truck drives between fuel stops. */
module PlanFacts {
  import opened Clock
  import opened Timeline

  // ---------------------------------------------------------------------------
  // Reading a trace at one index

  /** Each loop segment of a trace is the next segment of the ones before it. */
  lemma {:induction false} TraceAt(tripMiles: real, segs: seq<Segment>, k: int)
    requires LoopTrace(tripMiles, segs) && 1 <= k < |segs|
    ensures MilesRemaining(tripMiles, segs[..k]) > 0.0 && segs[k] == NextSegment(tripMiles, segs[..k])
    decreases |segs|
  {
    var init := segs[..|segs| - 1];
    if k < |segs| - 1 {
      TraceAt(tripMiles, init, k);
      assert init[..k] == segs[..k];
    }
  }

  /** The loop part of a plan: every segment but the dropoff. */
  lemma PlanAt(startTime: real, tripMiles: real, pickup: string, dropoff: string, segs: seq<Segment>, k: int)
    requires IsPlan(startTime, tripMiles, pickup, dropoff, segs) && 1 <= k < |segs| - 1
    ensures MilesRemaining(tripMiles, segs[..k]) > 0.0 && segs[k] == NextSegment(tripMiles, segs[..k])
  {
    var loop := segs[..|segs| - 1];
    TraceAt(tripMiles, loop, k);
    assert loop[..k] == segs[..k];
  }

  // ---------------------------------------------------------------------------
  // The rules of one iteration

  /** The four rules in priority order, each as an if-and-only-if, and what each
      kind of segment does to the counters. */
  lemma NextSegmentRules(tripMiles: real, segs: seq<Segment>)
    requires |segs| > 0
    ensures var x := NextSegment(tripMiles, segs);
      var c := CountersAfter(segs);
      (x.segmentType == Fuel <==> NeedsFuel(segs)) &&
      (x.segmentType == RestBreak <==> !NeedsFuel(segs) && c.sinceBreak >= BreakRequirementHours) &&
      (x.segmentType == SleeperBerth <==>
         !NeedsFuel(segs) && c.sinceBreak < BreakRequirementHours && LimitReached(c)) &&
      (x.segmentType == Driving <==>
         !NeedsFuel(segs) && c.sinceBreak < BreakRequirementHours && !LimitReached(c))
    ensures var x := NextSegment(tripMiles, segs);
      var c := CountersAfter(segs);
      var c' := CountersAfter(segs + [x]);
      (x.segmentType == Fuel ==>
         Elapsed(x) == FuelStopDuration && !NeedsFuel(segs + [x]) &&
         c' == Counters(c.dailyDriving, c.dailyOnDuty + FuelStopDuration,
                        c.sinceBreak + FuelStopDuration, c.hoursDriven)) &&
      (x.segmentType == RestBreak ==>
         Elapsed(x) == RestBreakDuration && MilesSinceFuel(segs + [x]) == MilesSinceFuel(segs) &&
         c' == Counters(c.dailyDriving, c.dailyOnDuty, 0.0, c.hoursDriven)) &&
      (x.segmentType == SleeperBerth ==>
         Elapsed(x) == RequiredOffDuty && MilesSinceFuel(segs + [x]) == MilesSinceFuel(segs) &&
         c' == Counters(0.0, 0.0, 0.0, c.hoursDriven)) &&
      (x.segmentType == Driving ==>
         MilesSinceFuel(segs + [x]) == MilesSinceFuel(segs) + x.distanceMiles &&
         c' == Counters(c.dailyDriving + Elapsed(x), c.dailyOnDuty + Elapsed(x),
                        c.sinceBreak + Elapsed(x), c.hoursDriven + Elapsed(x)))
  {
    AppendOne(segs, NextSegment(tripMiles, segs));
  }

  /** A driving chunk, when reached with miles remaining, is positive and at most
      4 h, the driving allowance left, the on-duty allowance left, and the hours
      the remaining miles take; its stored miles are its hours times 55, rounded
      to 0.1 mile, and its stored duration is within 0.005 h of its length. */
  lemma DrivingChunkBounds(tripMiles: real, segs: seq<Segment>)
    requires |segs| > 0 && MilesRemaining(tripMiles, segs) > 0.0
    requires NextSegment(tripMiles, segs).segmentType == Driving
    ensures var x := NextSegment(tripMiles, segs);
      var c := CountersAfter(segs);
      var h := Elapsed(x);
      0.0 < h && h <= MaxChunkHours &&
      h <= MaxDailyDriving - c.dailyDriving && h <= MaxDailyOnDuty - c.dailyOnDuty &&
      h <= MilesRemaining(tripMiles, segs) / DefaultAvgSpeed &&
      x.distanceMiles == RoundTenths(h * DefaultAvgSpeed) &&
      h - 0.005 < x.durationHours <= h + 0.005
  {
    var c := CountersAfter(segs);
    var mr := MilesRemaining(tripMiles, segs);
    var h := ChunkHours(c, mr);
    NextIsChunk(tripMiles, segs);
    ChunkHoursBounds(c, mr);
    DrivingSegmentStored(|segs| + 1, Last(segs).endTime, h);
  }

  /** A driving segment lasts exactly its chunk; it stores the chunk's miles at
      55 mph rounded to 0.1 mile and its hours within 0.005 h. */
  lemma DrivingSegmentStored(sequenceNumber: int, t: real, h: real)
    ensures var x := DrivingSegment(sequenceNumber, t, h);
      Elapsed(x) == h &&
      x.distanceMiles == RoundTenths(h * DefaultAvgSpeed) &&
      h - 0.005 < x.durationHours <= h + 0.005
  {
  }

  /** A driving segment comes next only when no limit is reached, and it is the
      chunk `ChunkHours` allows. */
  lemma NextIsChunk(tripMiles: real, segs: seq<Segment>)
    requires |segs| > 0
    requires NextSegment(tripMiles, segs).segmentType == Driving
    ensures !LimitReached(CountersAfter(segs))
    ensures NextSegment(tripMiles, segs)
         == DrivingSegment(|segs| + 1, Last(segs).endTime,
                           ChunkHours(CountersAfter(segs), MilesRemaining(tripMiles, segs)))
  {
  }

  /** The chunk is positive and within every allowance it is the minimum of. */
  lemma ChunkHoursBounds(c: Counters, milesRemaining: real)
    requires !LimitReached(c) && milesRemaining > 0.0
    ensures var h := ChunkHours(c, milesRemaining);
      0.0 < h && h <= MaxChunkHours &&
      h <= MaxDailyDriving - c.dailyDriving && h <= MaxDailyOnDuty - c.dailyOnDuty &&
      h <= milesRemaining / DefaultAvgSpeed
  {
    assert 0.0 < milesRemaining / DefaultAvgSpeed;
  }

  /** Driving lowers the remaining miles by the chunk's unrounded miles; no other
      segment changes them. */
  lemma MilesProgress(tripMiles: real, segs: seq<Segment>)
    requires |segs| > 0 && MilesRemaining(tripMiles, segs) > 0.0
    ensures var x := NextSegment(tripMiles, segs);
      var before := MilesRemaining(tripMiles, segs);
      var after := MilesRemaining(tripMiles, segs + [x]);
      (x.segmentType == Driving ==> 0.0 <= after < before && after == before - Elapsed(x) * DefaultAvgSpeed) &&
      (x.segmentType != Driving ==> after == before)
  {
    var x := NextSegment(tripMiles, segs);
    AppendOne(segs, x);
    if x.segmentType == Driving {
      DrivingChunkBounds(tripMiles, segs);
    }
  }

  /** After a fuel stop comes no fuel stop; after a break neither a fuel stop nor a
      break; after a sleeper reset a driving chunk: each idle segment clears the
      trigger that produced it. */
  lemma IdleSuccessor(tripMiles: real, segs: seq<Segment>)
    requires |segs| > 0 && MilesRemaining(tripMiles, segs) > 0.0
    ensures var x := NextSegment(tripMiles, segs);
      var y := NextSegment(tripMiles, segs + [x]);
      (x.segmentType == Fuel ==> y.segmentType != Fuel) &&
      (x.segmentType == RestBreak ==> y.segmentType != Fuel && y.segmentType != RestBreak) &&
      (x.segmentType == SleeperBerth && MilesRemaining(tripMiles, segs + [x]) > 0.0 ==> y.segmentType == Driving)
  {
    var x := NextSegment(tripMiles, segs);
    NextSegmentRules(tripMiles, segs);
    NextSegmentRules(tripMiles, segs + [x]);
  }

  /** Among any four consecutive loop segments of a plan at least one is a driving
      chunk: at most three idle segments (fuel, break, reset) come in a row. */
  lemma AtMostThreeIdle(startTime: real, tripMiles: real, pickup: string, dropoff: string,
                        segs: seq<Segment>, k: int)
    requires IsPlan(startTime, tripMiles, pickup, dropoff, segs) && 1 <= k && k + 3 < |segs| - 1
    ensures segs[k].segmentType == Driving || segs[k + 1].segmentType == Driving ||
            segs[k + 2].segmentType == Driving || segs[k + 3].segmentType == Driving
  {
    forall i | k <= i <= k + 2
      ensures var y := segs[i + 1];
        (segs[i].segmentType == Fuel ==> y.segmentType != Fuel) &&
        (segs[i].segmentType == RestBreak ==> y.segmentType != Fuel && y.segmentType != RestBreak) &&
        (segs[i].segmentType == SleeperBerth ==> y.segmentType == Driving)
    {
      PlanAt(startTime, tripMiles, pickup, dropoff, segs, i);
      PlanAt(startTime, tripMiles, pickup, dropoff, segs, i + 1);
      assert segs[..i + 1] == segs[..i] + [segs[i]];
      IdleSuccessor(tripMiles, segs[..i]);
    }
    forall i | k <= i <= k + 3
      ensures segs[i].segmentType != Pickup && segs[i].segmentType != Dropoff
    {
      PlanAt(startTime, tripMiles, pickup, dropoff, segs, i);
    }
  }

  // ---------------------------------------------------------------------------
  // What holds all along a trace

  /** Number of segments of one kind. */
  function CountOf(segs: seq<Segment>, kind: SegmentType): nat
    decreases |segs|
  {
    if segs == [] then 0
    else CountOf(segs[..|segs| - 1], kind) + (if Last(segs).segmentType == kind then 1 else 0)
  }

  /** Longest stored distance between fuel stops: the fuel range plus one full
      4-hour chunk of 220 miles, plus the 0.05 mile its rounding can add. */
  const MaxMilesBetweenFuel: real := 1220.05

  /** Invariants of every loop trace that starts with the pickup: the daily
      driving counter never exceeds 11 h; the remaining miles never go negative
      (for a non-negative trip); the stored miles since the last fuel stop stay
      below `MaxMilesBetweenFuel`; and each sleeper reset accounts for at most
      11 driving hours. */
  lemma {:induction false} TraceInvariants(startTime: real, tripMiles: real, pickup: string, segs: seq<Segment>)
    requires LoopTrace(tripMiles, segs) && |segs| >= 1 && segs[0] == PickupSegment(startTime, pickup)
    ensures CountersAfter(segs).dailyDriving <= MaxDailyDriving
    ensures 0.0 <= CountersAfter(segs).dailyDriving <= CountersAfter(segs).hoursDriven
    ensures tripMiles >= 0.0 ==> MilesRemaining(tripMiles, segs) >= 0.0
    ensures MilesSinceFuel(segs) < MaxMilesBetweenFuel
    ensures CountersAfter(segs).hoursDriven
         <= MaxDailyDriving * (CountOf(segs, SleeperBerth) as real) + CountersAfter(segs).dailyDriving
    decreases |segs|
  {
    if |segs| == 1 {
      assert segs == [] + [segs[0]];
      AppendOne([], segs[0]);
    } else {
      var init := segs[..|segs| - 1];
      var x := Last(segs);
      assert init[0] == segs[0];
      TraceInvariants(startTime, tripMiles, pickup, init);
      assert init + [x] == segs;
      NextSegmentRules(tripMiles, init);
      AppendOne(init, x);
      if x.segmentType == Driving {
        DrivingChunkBounds(tripMiles, init);
        MilesProgress(tripMiles, init);
      }
    }
  }

  /** Fuel stops are at least 1000 stored miles apart: along a trace, 1000 miles
      per fuel stop so far plus the miles since the last one never exceed the
      stored miles of all segments, and the miles since the last stop are never
      negative. */
  lemma {:induction false} FuelStopSpacing(startTime: real, tripMiles: real, pickup: string, segs: seq<Segment>)
    requires LoopTrace(tripMiles, segs) && |segs| >= 1 && segs[0] == PickupSegment(startTime, pickup)
    ensures 0.0 <= MilesSinceFuel(segs)
    ensures FuelRange * (CountOf(segs, Fuel) as real) + MilesSinceFuel(segs) <= TotalMiles(segs)
    decreases |segs|
  {
    if |segs| == 1 {
      assert segs == [] + [segs[0]];
      AppendOne([], segs[0]);
    } else {
      var init := segs[..|segs| - 1];
      var x := Last(segs);
      assert init[0] == segs[0];
      FuelStopSpacing(startTime, tripMiles, pickup, init);
      assert init + [x] == segs;
      NextSegmentRules(tripMiles, init);
      NextSegmentShape(tripMiles, init);
      AppendOne(init, x);
    }
  }

  // ---------------------------------------------------------------------------
  // The daily window: what happens between sleeper resets

  /** The segments since the last sleeper reset: the current daily window. */
  function SinceReset(segs: seq<Segment>): seq<Segment>
    decreases |segs|
  {
    if segs == [] then []
    else if Last(segs).segmentType == SleeperBerth then []
    else SinceReset(segs[..|segs| - 1]) + [Last(segs)]
  }

  /** A reset starts an empty window; any other segment joins the current one. */
  lemma SinceResetAppend(segs: seq<Segment>, x: Segment)
    ensures SinceReset(segs + [x]) == if x.segmentType == SleeperBerth then [] else SinceReset(segs) + [x]
  {
    assert (segs + [x])[..|segs|] == segs;
  }

  /** Counting and summing over a window with one more segment. */
  lemma WindowAppend(w: seq<Segment>, x: Segment)
    ensures CountOf(w + [x], Driving) == CountOf(w, Driving) + (if x.segmentType == Driving then 1 else 0)
    ensures CountOf(w + [x], Fuel) == CountOf(w, Fuel) + (if x.segmentType == Fuel then 1 else 0)
    ensures TotalMiles(w + [x]) == TotalMiles(w) + x.distanceMiles
  {
    assert (w + [x])[..|w|] == w;
  }

  /** The window invariant on numbers. With driving hours `dd`, on-duty hours
      `od`, `n` driving chunks, `f` fuel stops and `tm` stored miles in the
      window, and `msf` stored miles since the last fuel stop: on-duty hours are
      the driving hours plus 0.5 h per fuel stop, plus at most the 1 h pickup;
      the window's stored miles are at most 55 mph times its driving hours plus
      0.05 mile per chunk; every chunk but the last is a full 4 h one, and after
      a short chunk the window is `stopped` (no more driving before a reset);
      a fuel stop in the window is the last one; and there is at most one. */
  predicate WindowNumbers(dd: real, od: real, n: nat, f: nat, tm: real, msf: real, stopped: bool) {
    dd + FuelStopDuration * (f as real) <= od <= dd + FuelStopDuration * (f as real) + PickupDropoffDuration &&
    0.0 <= tm <= DefaultAvgSpeed * dd + 0.05 * (n as real) &&
    (MaxChunkHours * (n as real) <= dd || (MaxChunkHours * (n as real - 1.0) <= dd && stopped)) &&
    (f >= 1 ==> msf <= tm) &&
    f <= 1
  }

  /** What holds of the current window (the segments since the last reset) along a trace. */
  ghost predicate WindowInvariant(tripMiles: real, segs: seq<Segment>) {
    var c := CountersAfter(segs);
    var w := SinceReset(segs);
    WindowNumbers(c.dailyDriving, c.dailyOnDuty, CountOf(w, Driving), CountOf(w, Fuel), TotalMiles(w),
                  MilesSinceFuel(segs), LimitReached(c) || MilesRemaining(tripMiles, segs) <= 0.0)
  }

  /** Within 11 driving hours a window has at most three chunks, so it stores
      fewer than 1000 miles; a fuel stop is then due only in a window without
      one, and it keeps the invariant. */
  lemma FuelNumbers(dd: real, od: real, n: nat, f: nat, tm: real, msf: real, stopped: bool, stopped': bool)
    requires WindowNumbers(dd, od, n, f, tm, msf, stopped)
    requires dd <= MaxDailyDriving && msf >= FuelRange && (stopped ==> stopped')
    ensures f == 0
    ensures WindowNumbers(dd, od + FuelStopDuration, n, f + 1, tm, 0.0, stopped')
  {
    assert (n as real) <= 3.75;
  }

  /** A chunk of `h` hours storing `d` miles keeps the invariant; a short chunk
      stops the window. */
  lemma DrivingNumbers(dd: real, od: real, n: nat, f: nat, tm: real, msf: real,
                       h: real, d: real, stopped': bool)
    requires WindowNumbers(dd, od, n, f, tm, msf, false)
    requires 0.0 < h <= MaxChunkHours && 0.0 <= d <= DefaultAvgSpeed * h + 0.05
    requires h < MaxChunkHours ==> stopped'
    ensures WindowNumbers(dd + h, od + h, n + 1, f, tm + d, msf + d, stopped')
  {
  }

  /** A chunk shorter than 4 h is cut by a daily allowance or by the end of the
      trip, so after it no driving comes before a reset. */
  lemma ShortChunkStops(tripMiles: real, segs: seq<Segment>, x: Segment)
    requires |segs| > 0 && MilesRemaining(tripMiles, segs) > 0.0
    requires x == NextSegment(tripMiles, segs) && x.segmentType == Driving
    ensures Elapsed(x) < MaxChunkHours ==>
      LimitReached(CountersAfter(segs + [x])) || MilesRemaining(tripMiles, segs + [x]) <= 0.0
  {
    var c := CountersAfter(segs);
    var mr := MilesRemaining(tripMiles, segs);
    NextIsChunk(tripMiles, segs);
    var h := ChunkHours(c, mr);
    DrivingSegmentStored(|segs| + 1, Last(segs).endTime, h);
    AppendOne(segs, x);
    assert h == MaxChunkHours || h == MaxDailyDriving - c.dailyDriving ||
           h == MaxDailyOnDuty - c.dailyOnDuty || h == mr / DefaultAvgSpeed;
  }

  /** Each loop iteration keeps the window invariant. */
  lemma WindowStep(tripMiles: real, segs: seq<Segment>, x: Segment)
    requires |segs| > 0 && MilesRemaining(tripMiles, segs) > 0.0 && WindowInvariant(tripMiles, segs)
    requires CountersAfter(segs).dailyDriving <= MaxDailyDriving
    requires x == NextSegment(tripMiles, segs)
    ensures WindowInvariant(tripMiles, segs + [x])
  {
    if NeedsFuel(segs) {
      WindowFuelStep(tripMiles, segs, x);
    } else if x.segmentType == Driving {
      WindowDrivingStep(tripMiles, segs, x);
    } else {
      WindowIdleStep(tripMiles, segs, x);
    }
  }

  /** A fuel stop keeps the window invariant. */
  lemma WindowFuelStep(tripMiles: real, segs: seq<Segment>, x: Segment)
    requires |segs| > 0 && WindowInvariant(tripMiles, segs)
    requires CountersAfter(segs).dailyDriving <= MaxDailyDriving
    requires NeedsFuel(segs) && x == NextSegment(tripMiles, segs)
    ensures WindowInvariant(tripMiles, segs + [x])
  {
    var c := CountersAfter(segs);
    var w := SinceReset(segs);
    assert x.segmentType == Fuel && x.distanceMiles == 0.0 && Elapsed(x) == FuelStopDuration;
    AppendOne(segs, x);
    SinceResetAppend(segs, x);
    WindowAppend(w, x);
    var c' := CountersAfter(segs + [x]);
    FuelNumbers(c.dailyDriving, c.dailyOnDuty, CountOf(w, Driving), CountOf(w, Fuel), TotalMiles(w),
                MilesSinceFuel(segs), LimitReached(c) || MilesRemaining(tripMiles, segs) <= 0.0,
                LimitReached(c') || MilesRemaining(tripMiles, segs + [x]) <= 0.0);
  }

  /** A driving chunk keeps the window invariant. */
  lemma WindowDrivingStep(tripMiles: real, segs: seq<Segment>, x: Segment)
    requires |segs| > 0 && MilesRemaining(tripMiles, segs) > 0.0 && WindowInvariant(tripMiles, segs)
    requires x == NextSegment(tripMiles, segs) && x.segmentType == Driving
    ensures WindowInvariant(tripMiles, segs + [x])
  {
    var c := CountersAfter(segs);
    var w := SinceReset(segs);
    DrivingChunkBounds(tripMiles, segs);
    ShortChunkStops(tripMiles, segs, x);
    AppendOne(segs, x);
    SinceResetAppend(segs, x);
    WindowAppend(w, x);
    var c' := CountersAfter(segs + [x]);
    DrivingNumbers(c.dailyDriving, c.dailyOnDuty, CountOf(w, Driving), CountOf(w, Fuel), TotalMiles(w),
                   MilesSinceFuel(segs), Elapsed(x), x.distanceMiles,
                   LimitReached(c') || MilesRemaining(tripMiles, segs + [x]) <= 0.0);
  }

  /** A break or a reset keeps the window invariant; a reset opens a new window. */
  lemma WindowIdleStep(tripMiles: real, segs: seq<Segment>, x: Segment)
    requires |segs| > 0 && MilesRemaining(tripMiles, segs) > 0.0 && WindowInvariant(tripMiles, segs)
    requires x == NextSegment(tripMiles, segs) && !NeedsFuel(segs) && x.segmentType != Driving
    ensures WindowInvariant(tripMiles, segs + [x])
  {
    var w := SinceReset(segs);
    assert x.segmentType == RestBreak || x.segmentType == SleeperBerth;
    assert x.distanceMiles == 0.0;
    AppendOne(segs, x);
    SinceResetAppend(segs, x);
    WindowAppend(w, x);
  }

  /** The pickup alone opens the first window. */
  lemma WindowStart(tripMiles: real, p: Segment)
    requires p.segmentType == Pickup && p.distanceMiles == 0.0 && Elapsed(p) == PickupDropoffDuration
    ensures WindowInvariant(tripMiles, [] + [p])
  {
    AppendOne([], p);
    SinceResetAppend([], p);
    WindowAppend([], p);
  }

  /** Every loop trace that starts with the pickup keeps the window invariant. */
  lemma {:induction false} WindowInvariants(startTime: real, tripMiles: real, pickup: string, segs: seq<Segment>)
    requires LoopTrace(tripMiles, segs) && |segs| >= 1 && segs[0] == PickupSegment(startTime, pickup)
    ensures WindowInvariant(tripMiles, segs)
    decreases |segs|
  {
    if |segs| == 1 {
      assert segs == [] + [PickupSegment(startTime, pickup)];
      WindowStart(tripMiles, PickupSegment(startTime, pickup));
    } else {
      var init := segs[..|segs| - 1];
      var x := Last(segs);
      assert init[0] == segs[0];
      WindowInvariants(startTime, tripMiles, pickup, init);
      TraceInvariants(startTime, tripMiles, pickup, init);
      assert init + [x] == segs;
      WindowStep(tripMiles, init, x);
    }
  }

  /** Daily on-duty hours never exceed 14 h along a trace: they are at most the
      11 driving hours, one 0.5 h fuel stop and the 1 h pickup, 12.5 h in all. */
  lemma DailyOnDutyBound(startTime: real, tripMiles: real, pickup: string, segs: seq<Segment>)
    requires LoopTrace(tripMiles, segs) && |segs| >= 1 && segs[0] == PickupSegment(startTime, pickup)
    ensures CountersAfter(segs).dailyOnDuty <= MaxDailyDriving + FuelStopDuration + PickupDropoffDuration
    ensures CountersAfter(segs).dailyOnDuty <= MaxDailyOnDuty
  {
    WindowInvariants(startTime, tripMiles, pickup, segs);
    TraceInvariants(startTime, tripMiles, pickup, segs);
  }

  /** A prefix of a loop trace is a loop trace. */
  lemma {:induction false} TracePrefix(tripMiles: real, segs: seq<Segment>, j: int)
    requires LoopTrace(tripMiles, segs) && 1 <= j <= |segs|
    ensures LoopTrace(tripMiles, segs[..j])
    decreases |segs|
  {
    if j < |segs| {
      var init := segs[..|segs| - 1];
      TracePrefix(tripMiles, init, j);
      assert init[..j] == segs[..j];
    } else {
      assert segs[..j] == segs;
    }
  }

  // ---------------------------------------------------------------------------
  // Whole plans

  /** How a segment's stored values relate to its times: an idle segment lasts
      exactly its stored duration and covers no miles; a driving chunk lasts
      within 0.005 h of its stored duration and stores its hours times 55 rounded
      to 0.1 mile; and every segment lasts a positive time of at most 10 h. */
  predicate SegmentShape(x: Segment) {
    (x.segmentType != Driving ==> x.endTime == x.startTime + x.durationHours && x.distanceMiles == 0.0) &&
    (x.segmentType == Driving ==>
       Elapsed(x) - 0.005 < x.durationHours <= Elapsed(x) + 0.005 &&
       x.distanceMiles == RoundTenths(Elapsed(x) * DefaultAvgSpeed)) &&
    0.0 < Elapsed(x) <= RequiredOffDuty
  }

  /** The shape of the segment one loop iteration appends. */
  lemma NextSegmentShape(tripMiles: real, segs: seq<Segment>)
    requires |segs| > 0 && MilesRemaining(tripMiles, segs) > 0.0
    ensures var x := NextSegment(tripMiles, segs);
      x.sequenceNumber == |segs| + 1 && x.startTime == Last(segs).endTime &&
      x.segmentType != Pickup && x.segmentType != Dropoff && SegmentShape(x)
  {
    if NextSegment(tripMiles, segs).segmentType == Driving {
      DrivingChunkBounds(tripMiles, segs);
    }
  }

  /** The shape of a plan: sequence numbers run 1..N; each segment starts where
      the previous one ends; only the first segment is the pickup and only the
      last the dropoff; and every segment has the shape above. */
  lemma PlanShape(startTime: real, tripMiles: real, pickup: string, dropoff: string, segs: seq<Segment>)
    requires IsPlan(startTime, tripMiles, pickup, dropoff, segs)
    ensures forall k :: 0 <= k < |segs| ==> segs[k].sequenceNumber == k + 1
    ensures forall k :: 0 < k < |segs| ==> segs[k].startTime == segs[k - 1].endTime
    ensures segs[0].segmentType == Pickup && segs[|segs| - 1].segmentType == Dropoff
    ensures forall k :: 0 < k < |segs| - 1 ==> segs[k].segmentType != Pickup && segs[k].segmentType != Dropoff
    ensures forall k :: 0 <= k < |segs| ==> SegmentShape(segs[k])
  {
    forall k | 1 <= k < |segs| - 1
      ensures segs[k].sequenceNumber == k + 1 && segs[k].startTime == segs[k - 1].endTime
      ensures segs[k].segmentType != Pickup && segs[k].segmentType != Dropoff
      ensures SegmentShape(segs[k])
    {
      PlanAt(startTime, tripMiles, pickup, dropoff, segs, k);
      NextSegmentShape(tripMiles, segs[..k]);
    }
  }

  /** At every point of a plan daily driving is at most 11 h and daily on-duty
      time at most 14 h. */
  lemma DailyCaps(startTime: real, tripMiles: real, pickup: string, dropoff: string, segs: seq<Segment>)
    requires IsPlan(startTime, tripMiles, pickup, dropoff, segs)
    ensures forall j :: 0 <= j <= |segs| ==> CountersAfter(segs[..j]).dailyDriving <= MaxDailyDriving
    ensures forall j :: 0 <= j <= |segs| ==> CountersAfter(segs[..j]).dailyOnDuty <= MaxDailyOnDuty
  {
    var loop := segs[..|segs| - 1];
    forall j | 0 <= j <= |segs|
      ensures CountersAfter(segs[..j]).dailyDriving <= MaxDailyDriving
      ensures CountersAfter(segs[..j]).dailyOnDuty <= MaxDailyOnDuty
    {
      if j == 0 {
        assert segs[..j] == [];
      } else if j < |segs| {
        TracePrefix(tripMiles, loop, j);
        assert loop[..j] == segs[..j];
        TraceInvariants(startTime, tripMiles, pickup, segs[..j]);
        DailyOnDutyBound(startTime, tripMiles, pickup, segs[..j]);
      } else {
        TraceInvariants(startTime, tripMiles, pickup, loop);
        DailyOnDutyBound(startTime, tripMiles, pickup, loop);
        assert segs[..j] == loop + [segs[|segs| - 1]];
        AppendOne(loop, segs[|segs| - 1]);
      }
    }
  }

  /** The plan drives the whole trip and not a mile more: for a positive trip the
      unrounded driving hours times 55 equal the trip miles exactly; otherwise the
      loop never runs and the plan is the pickup and the dropoff. */
  lemma PlanCoversTrip(startTime: real, tripMiles: real, pickup: string, dropoff: string, segs: seq<Segment>)
    requires IsPlan(startTime, tripMiles, pickup, dropoff, segs)
    ensures var loop := segs[..|segs| - 1];
      (tripMiles > 0.0 ==> DefaultAvgSpeed * CountersAfter(loop).hoursDriven == tripMiles) &&
      (tripMiles <= 0.0 ==> |segs| == 2)
  {
    var loop := segs[..|segs| - 1];
    TraceInvariants(startTime, tripMiles, pickup, loop);
    if tripMiles <= 0.0 && |segs| > 2 {
      PlanAt(startTime, tripMiles, pickup, dropoff, segs, 1);
      assert segs[..1] == [] + [segs[0]];
      AppendOne([], segs[0]);
      assert false;
    }
  }

  /** Sleeper resets needed: the hours driven never exceed 11 h per reset plus
      11 h for the first window. */
  lemma RestStopsLowerBound(startTime: real, tripMiles: real, pickup: string, dropoff: string, segs: seq<Segment>)
    requires IsPlan(startTime, tripMiles, pickup, dropoff, segs)
    ensures CountersAfter(segs).hoursDriven <= MaxDailyDriving * (CountOf(segs, SleeperBerth) as real + 1.0)
  {
    var loop := segs[..|segs| - 1];
    TraceInvariants(startTime, tripMiles, pickup, loop);
    assert segs == loop + [segs[|segs| - 1]];
    AppendOne(loop, segs[|segs| - 1]);
  }
}
