# HOS trip planner: a Dafny model

This project models the trip planner of a truck-tracking service. Its core is
`HOSCalculator` (core/services/hos_calculator.py) and the two input checks in
core/serializers.py.

Given a start time, the trip miles and the pickup and dropoff locations, the
calculator simulates the trip under the hours-of-service rules it declares:

- 11 hours of driving and 14 hours on duty per daily window;
- a 30-minute break after 8 hours of driving and fuelling;
- a 10-hour sleeper-berth reset when a daily allowance is used up;
- a 30-minute fuel stop every 1000 miles;
- at most 4 hours of driving per segment, at 55 mph.

It emits a list of segments: a pickup, one segment per loop iteration, then a
dropoff. It then files the segments into per-date daily logs, padded with
off-duty time up to 24 hours, and computes a trip summary.

## Modules

- `Clock` (clock.dfy): timestamps as real hours since a midnight-aligned epoch, calendar dates, clock hours truncated to the minute, and `round(x, 2)` / `round(x, 1)`.
- `Timeline` (timeline.dfy):
  - the constants, the segment record, and the loop's counters as a fold over the segments emitted so far;
  - `NextSegment`, the segment one loop iteration appends;
  - the trace and plan predicates, the loop invariant and its termination measure;
  - one lemma per branch of the loop.
- `PlanFacts` (plan_facts.dfy): properties of every plan.
  - The four rules, as if-and-only-ifs.
  - Chunk bounds and the daily driving cap.
  - Fuel-stop spacing.
  - Shape and contiguity.
  - The plan covers exactly the trip miles.
  - Enough sleeper resets for the hours driven.
- `DailyLogs` (daily_logs.dfy): the daily logs as a function of the segments (`DailyLogsOf`), and reference definitions that relate each log to the segments starting on its date. It proves:
  - bucket contents;
  - the padding;
  - one entry per segment, in order;
  - consecutive dates.
- `TripReport` (trip_report.dfy): the summary dictionary, and what the summary and the logs of a plan amount to.
- `HOS` (hos_calculator.dfy): class `HOSCalculator` with imperative `Calculate`, `NeedsFuelStop` and `GenerateDailyLogs`. Each is proved against the functions above.
- `Serializers` (serializers.dfy): `validate_coords` and `validate_current_cycle_used` as `Result` functions.

## Where the description and the code differ (the model follows the code)

- `total_trip_time` is the sum of the stored segment durations, and the driving durations are rounded to 0.01 h (hos_calculator.py:164). So it is not the elapsed time from start to arrival. `TripReport.SummaryOfPlan` bounds the difference by 0.005 h per driving chunk.
- The four buckets of a day are said to total exactly 24 hours. The padding (hos_calculator.py:247-248) only tops up days that total less than 24.
  - Every segment is filed under its start date, even when it runs past midnight (hos_calculator.py:193).
  - So a day whose segments take more than 24 stored hours keeps that total.
  - `DailyLogs.PaddedLogOf` states both cases.

## Model

| member | source | states |
|---|---|---|
| Clock.DateOf | core/services/hos_calculator.py:193 | `datetime.date()`: the whole number of days since the epoch |
| Clock.HourOfDay | core/services/hos_calculator.py:221-222 | the hour of day lies in [0, 24) and, added to the date's midnight, gives back the timestamp |
| Clock.ClockHour | core/services/hos_calculator.py:221-222 | `hour + minute / 60` is the hour of day truncated to a whole minute: within one minute below it, never negative |
| Clock.RoundHundredths | core/services/hos_calculator.py:133 | `round(x, 2)` is within 0.005 of `x` and keeps non-negative values non-negative |
| Clock.RoundTenths | core/services/hos_calculator.py:134 | `round(x, 1)` is within 0.05 of `x` and keeps non-negative values non-negative |
| Timeline.Min | core/services/hos_calculator.py:119-124 | `min` returns one of its arguments and is at most both |
| Timeline.Advance | core/services/hos_calculator.py:59-143 | how one segment moves the counters. Driving adds its exact hours to daily driving, on duty, since-break and hours driven. Fuel adds 0.5 h to on duty and since break. A break zeroes since break. A reset zeroes the three daily counters |
| Timeline.CountersAfter | core/services/hos_calculator.py:59-61 | the counters after the segments emitted so far, starting from zero; with the pickup, on duty starts at 1 h |
| Timeline.MilesRemaining | core/services/hos_calculator.py:144 | `miles_remaining`: the trip miles less 55 mph times the unrounded hours driven |
| Timeline.MilesSinceFuel | core/services/hos_calculator.py:175-179 | the backward scan's sum: stored miles after the last fuel segment |
| Timeline.TotalMiles | core/services/hos_calculator.py:181 | the stored miles of all segments |
| Timeline.NeedsFuel | core/services/hos_calculator.py:183 | `_needs_fuel_stop`: the miles since the last fuel stop reach 1000 |
| Timeline.LimitReached | core/services/hos_calculator.py:97-100 | the driving or on-duty allowance left is zero or less |
| Timeline.ChunkHours | core/services/hos_calculator.py:118-124 | the minimum of both allowances left, the hours the remaining miles take, and 4 h |
| Timeline.PickupSegment | core/services/hos_calculator.py:45-53 | the pickup: number 1, 1 h at the start time, no miles, at the pickup location |
| Timeline.DropoffSegment | core/services/hos_calculator.py:146-154 | the dropoff: the next number, 1 h at the current time, no miles, at the dropoff location |
| Timeline.DrivingSegment | core/services/hos_calculator.py:128-136 | a driving chunk: exact end time, duration rounded to 0.01 h and miles rounded to 0.1, "On Route" |
| Timeline.NextSegment | core/services/hos_calculator.py:63-144 | one loop iteration: fuel stop, else break, else sleeper reset, else driving chunk, with the source's durations, locations and numbering |
| Timeline.LoopTrace | core/services/hos_calculator.py:63-144 | every segment after the first was appended by an iteration entered with miles remaining |
| Timeline.IsPlan | core/services/hos_calculator.py:44-155 | the timeline of the inputs: the pickup, a loop trace that ends when no miles remain, then the dropoff |
| Timeline.CountersAreSumsSinceReset | core/services/hos_calculator.py:59-61 | before the dropoff, each loop counter equals an independent sum of elapsed hours since its last reset: daily driving and on duty since the last sleeper berth, time since break since the last break or sleeper berth |
| Timeline.NoFuelScansAll | core/services/hos_calculator.py:180-181 | with no fuel segment, the backward scan's total equals the sum over all segments (the `for ... else` branch) |
| Timeline.ScanStopsAtLastFuel | core/services/hos_calculator.py:176-179 | the backward scan sums exactly the stored miles after the last fuel segment |
| Timeline.DriveLowersMeasure | core/services/hos_calculator.py:118-144 | a driving chunk lowers the integer progress measure, or ends the trip |
| Timeline.StartState | core/services/hos_calculator.py:44-61 | after the pickup, the locals (sequence 2, time, miles, counters 0 / 1 / 0) satisfy the loop invariant |
| Timeline.FuelIteration | core/services/hos_calculator.py:64-79 | the fuel branch appends the next segment of the rules, keeps the invariant with on-duty and since-break counters raised by 0.5 h, and lowers the measure |
| Timeline.BreakIteration | core/services/hos_calculator.py:81-95 | the break branch appends the next segment, resets time since break, keeps the invariant and lowers the measure |
| Timeline.SleeperIteration | core/services/hos_calculator.py:97-116 | the reset branch appends the next segment, zeroes the three daily counters, keeps the invariant and lowers the measure |
| Timeline.DrivingStep | core/services/hos_calculator.py:118-144 | a driving iteration keeps the history invariant and lowers the measure |
| Timeline.DrivingIteration | core/services/hos_calculator.py:118-144 | the driving branch appends the next segment, advances every counter by the chunk, takes its unrounded miles off the remaining miles, keeps the invariant and lowers the measure |
| PlanFacts.TraceAt | core/services/hos_calculator.py:63-64 | each loop segment was appended while miles remained, by the rules applied to the segments before it |
| PlanFacts.PlanAt | core/services/hos_calculator.py:63-155 | the same for every segment of a plan between pickup and dropoff |
| PlanFacts.NextSegmentRules | core/services/hos_calculator.py:63-144 | fuel comes next iff 1000 stored miles since the last fuel stop; a break iff not fuel and 8 h since break; a reset iff neither and a daily allowance is used up; driving otherwise; and what each kind does to the counters and the fuel scan |
| PlanFacts.DrivingChunkBounds | core/services/hos_calculator.py:118-136 | a driving chunk is positive and at most 4 h, the driving allowance left, the on-duty allowance left and the hours the remaining miles take; it stores its miles rounded to 0.1 and its duration within 0.005 h |
| PlanFacts.DrivingSegmentStored | core/services/hos_calculator.py:126-136 | a driving segment lasts its chunk exactly and stores rounded miles and hours |
| PlanFacts.NextIsChunk | core/services/hos_calculator.py:97-128 | driving comes next only when no daily limit is reached, as the chunk of the minimum of the four bounds |
| PlanFacts.ChunkHoursBounds | core/services/hos_calculator.py:118-124 | with no limit reached and miles remaining, the minimum of the four bounds is positive and below each of them |
| PlanFacts.MilesProgress | core/services/hos_calculator.py:126-144 | driving lowers the remaining miles by the chunk's unrounded miles, never below zero; other segments leave them unchanged |
| PlanFacts.IdleSuccessor | core/services/hos_calculator.py:64-116 | after a fuel stop comes no fuel stop; after a break, neither a fuel stop nor a break; after a reset with miles left, driving |
| PlanFacts.AtMostThreeIdle | core/services/hos_calculator.py:63-144 | among any four consecutive loop segments of a plan, at least one is driving |
| PlanFacts.CountOf | core/services/hos_calculator.py:162-163 | the number of segments of one kind |
| PlanFacts.TraceInvariants | core/services/hos_calculator.py:63-144 | along every trace, daily driving never exceeds 11 h; the remaining miles never go negative; the stored miles since the last fuel stop stay below 1220.05; each sleeper reset accounts for at most 11 driving hours |
| PlanFacts.FuelStopSpacing | core/services/hos_calculator.py:64-79 | every fuel stop accounts for at least 1000 stored miles: 1000 times the number of fuel stops, plus the miles since the last one, is at most the total stored miles |
| PlanFacts.TracePrefix | core/services/hos_calculator.py:63 | a prefix of a loop trace is a loop trace |
| PlanFacts.NextSegmentShape | core/services/hos_calculator.py:64-144 | each loop segment is numbered next, starts when the last one ends, is no pickup or dropoff, and relates its stored values to its times |
| PlanFacts.PlanShape | core/services/hos_calculator.py:44-155 | sequence numbers run 1..N; segments are contiguous in time; only the first is a pickup and only the last a dropoff; idle segments last their stored duration and cover no miles; every segment lasts between 0 and 10 h |
| PlanFacts.DailyCaps | core/services/hos_calculator.py:97-116 | at every point of a plan, daily driving is at most 11 h and daily on-duty time at most 14 h |
| PlanFacts.SinceReset | core/services/hos_calculator.py:113-115 | the current daily window: the segments after the last sleeper reset |
| PlanFacts.WindowNumbers | core/services/hos_calculator.py:63-144 | the window invariant on numbers. On-duty is driving plus 0.5 h per fuel stop plus at most the pickup. Stored miles are at most 55 mph times driving plus 0.05 per chunk. Every chunk but the last is 4 h. A fuel stop in the window is the last one, and there is at most one |
| PlanFacts.WindowInvariant | core/services/hos_calculator.py:63-144 | the window invariant of a list of segments, read off its counters and its current window |
| PlanFacts.FuelNumbers | core/services/hos_calculator.py:64-79 | within 11 driving hours a window stores under 1000 miles, so a fuel stop is due only in a window without one; adding it keeps the invariant |
| PlanFacts.DrivingNumbers | core/services/hos_calculator.py:118-144 | a chunk of at most 4 h keeps the window invariant, and a short one stops the window |
| PlanFacts.ShortChunkStops | core/services/hos_calculator.py:97-124 | a chunk shorter than 4 h uses up a daily allowance or the remaining miles, so no driving follows before a reset |
| PlanFacts.WindowStart | core/services/hos_calculator.py:44-61 | the pickup alone satisfies the window invariant |
| PlanFacts.WindowStep | core/services/hos_calculator.py:63-144 | every loop iteration keeps the window invariant |
| PlanFacts.WindowFuelStep | core/services/hos_calculator.py:64-79 | a fuel stop keeps the window invariant |
| PlanFacts.WindowDrivingStep | core/services/hos_calculator.py:118-144 | a driving chunk keeps the window invariant |
| PlanFacts.WindowIdleStep | core/services/hos_calculator.py:81-116 | a break keeps the window invariant, and a sleeper reset opens a new window that satisfies it |
| PlanFacts.WindowInvariants | core/services/hos_calculator.py:63-144 | every loop trace that starts with the pickup keeps the window invariant |
| PlanFacts.DailyOnDutyBound | core/services/hos_calculator.py:77-142 | along every trace, daily on-duty time is at most 11 h driving plus one 0.5 h fuel stop plus the 1 h pickup, 12.5 h, so within 14 h |
| PlanFacts.PlanCoversTrip | core/services/hos_calculator.py:63-144 | for a positive trip, the unrounded hours driven at 55 mph equal the trip miles exactly; otherwise the plan is the pickup and the dropoff |
| PlanFacts.RestStopsLowerBound | core/services/hos_calculator.py:97-116 | the hours driven are at most 11 h per sleeper reset plus 11 h |
| DailyLogs.DutyStatusOf | core/services/hos_calculator.py:224-231 | the duty-status map: driving, sleeper berth, break as off duty, fuel, pickup and dropoff as on duty not driving |
| DailyLogs.StartDate | core/services/hos_calculator.py:193 | the date a segment is filed under: the date of its start |
| DailyLogs.Total | core/services/hos_calculator.py:241-246 | the sum of the four buckets |
| DailyLogs.NewDay | core/services/hos_calculator.py:196-205 | a new log: its date and day number, no entries, all buckets zero |
| DailyLogs.AddSegment | core/services/hos_calculator.py:208-238 | one segment filed: its stored hours go to its bucket (driving also adds its miles; a break goes to off duty), and its entry is appended |
| DailyLogs.DayOf | core/services/hos_calculator.py:192-238 | the raw log of a date: every segment starting on it, filed in order |
| DailyLogs.DistinctDates | core/services/hos_calculator.py:189-206 | the dates that get a log, in the order the first pass opens them |
| DailyLogs.DailyLogsOf | core/services/hos_calculator.py:185-250 | `_generate_daily_logs` as a function: the padded log of each distinct date, numbered from 1 in that order |
| DailyLogs.EntryOf | core/services/hos_calculator.py:221-238 | an entry's start and end hours lie in [0, 24) |
| DailyLogs.ClockHourBelowDayEnd | core/services/hos_calculator.py:221-222 | a clock hour is at most 23:59 |
| DailyLogs.Pad | core/services/hos_calculator.py:240-248 | padding changes only off-duty hours, never lowers them, brings a total under 24 to exactly 24, and leaves a log of 24 or more unchanged |
| DailyLogs.DayContents | core/services/hos_calculator.py:192-238 | a date's log holds one entry per segment starting that date, in order; each bucket is the stored hours of those segments under its duty status (independent sums); its miles are their driving miles |
| DailyLogs.StatusHoursPartition | core/services/hos_calculator.py:210-219 | the four buckets together hold every stored hour exactly once |
| DailyLogs.DayTotal | core/services/hos_calculator.py:241-246 | a date's raw total is the stored hours of its segments |
| DailyLogs.DistinctDatesFacts | core/services/hos_calculator.py:189-206 | the log dates have no duplicates, and a date has a log iff some segment starts on it |
| DailyLogs.AbsentDayIsNew | core/services/hos_calculator.py:195-205 | a date no segment starts on has an empty log |
| DailyLogs.DayOfAppend | core/services/hos_calculator.py:208-238 | filing a segment changes only its own date's log, by recording it |
| DailyLogs.DistinctDatesAppend | core/services/hos_calculator.py:193-206 | a segment on an unseen date opens a log at the end, with the next day number |
| DailyLogs.OpenDay | core/services/hos_calculator.py:195-206 | opening an empty log for a new date keeps the date map in step with the segments filed so far |
| DailyLogs.FileSegment | core/services/hos_calculator.py:208-238 | recording a segment in its date's log keeps the date map in step with one more segment |
| DailyLogs.PaddedInOrder | core/services/hos_calculator.py:240-250 | the padded logs, read in the order their dates were first seen, are the daily logs |
| DailyLogs.DailyLogsAt | core/services/hos_calculator.py:240-250 | the j-th daily log is the padded log of the j-th distinct date |
| DailyLogs.PaddedDay | core/services/hos_calculator.py:240-248 | a padded log has its date, day number and entries, and totals 24 h, or its stored hours when those reach 24 |
| DailyLogs.DailyLogsFacts | core/services/hos_calculator.py:185-250 | there is one log per distinct start date, numbered from 1 in order of first appearance, each padded as above |
| DailyLogs.EntriesOfAppend | core/services/hos_calculator.py:233-238 | one more segment adds exactly its entry at the end |
| DailyLogs.LastDateIsLastSegments | core/services/hos_calculator.py:193-206 | with dates in order, the last opened log is the last segment's date |
| DailyLogs.NewDateStep | core/services/hos_calculator.py:195-206 | a segment on a new date adds its entry at the end of the logs' entries |
| DailyLogs.SameDateStep | core/services/hos_calculator.py:233-238 | a segment on the last date also adds its entry at the end of the logs' entries |
| DailyLogs.EntriesPartition | core/services/hos_calculator.py:192-238 | with dates in order, the days' entries, concatenated in day order, are all the segments' entries in order |
| DailyLogs.LogsHoldAllEntries | core/services/hos_calculator.py:185-250 | with dates in order, the logs' entries read in order are one entry per segment, in segment order |
| DailyLogs.DateStep | core/services/hos_calculator.py:193 | a day or less later, the date is the same or the next one |
| DailyLogs.ConsecutiveDates | core/services/hos_calculator.py:189-206 | for contiguous segments of at most a day each, the log dates run without gaps, in calendar order, from the first segment's date to the last one's |
| TripReport.DrivingDurations | core/services/hos_calculator.py:161 | the stored hours of the driving segments |
| TripReport.Summarize | core/services/hos_calculator.py:159-166 | the summary dictionary: trip miles, stored driving hours, fuel stops, sleeper resets, stored hours of all segments, end of the last segment |
| TripReport.ElapsedTelescopes | core/services/hos_calculator.py:165 | for contiguous segments, the last end is the first start plus the elapsed time of all |
| TripReport.StoredTotalsClose | core/services/hos_calculator.py:161-164 | the stored trip time, driving hours and miles are within rounding (0.005 h, 0.005 h and 0.05 mile per chunk) of the exact values |
| TripReport.SummaryOfPlan | core/services/hos_calculator.py:159-166 | the summary reports the trip miles. The arrival is the start plus the elapsed time, and the trip time is within 0.005 h per chunk of it. Driving hours are within 0.005 h per chunk of miles / 55. There are at least 1000 stored miles per fuel stop and enough resets for 11 h each. A zero-mile trip reports 0 driving, 0 stops and 2 h |
| TripReport.PickupDropoffSummary | core/services/hos_calculator.py:146-166 | the summary of a pickup followed by a dropoff |
| TripReport.PlanLogs | core/services/hos_calculator.py:157 | a plan's logs cover consecutive dates from the pickup's to the dropoff's, numbered from 1, and hold one entry per segment in segment order |
| HOS.HOSCalculator.constructor | core/services/hos_calculator.py:25-35 | the calculator keeps its inputs |
| HOS.HOSCalculator.Calculate | core/services/hos_calculator.py:37-172 | the segments are the plan of the inputs: a pickup, the loop segments of the rules while miles remain, then a dropoff. The loop terminates. The logs are the daily logs of those segments and the summary is their summary |
| HOS.HOSCalculator.NeedsFuelStop | core/services/hos_calculator.py:174-183 | the backward scan's answer is whether the stored miles since the last fuel segment reach 1000 |
| HOS.HOSCalculator.GenerateDailyLogs | core/services/hos_calculator.py:185-250 | the two passes over a dictionary keyed by date return exactly the daily logs of the segments, in first-appearance order |
| HOS.HOSCalculator.PadDays | core/services/hos_calculator.py:240-248 | the second pass pads every log and keeps the set of dates |
| HOS.HOSCalculator.RecordSegment | core/services/hos_calculator.py:208-238 | the first pass's body records one segment in its day's log |
| Serializers.ValidateCoords | core/serializers.py:14-28 | a pair is accepted iff it has two members, the longitude is in [-180, 180] and the latitude in [-90, 90]; an accepted pair comes back unchanged; the error is the length message, else the longitude message, else the latitude message |
| Serializers.ValidateCurrentCycleUsed | core/serializers.py:35-38 | cycle hours are accepted iff at most 70, come back unchanged, and are otherwise rejected with the cap message |
| Serializers.CoordBoundsAccepted | core/serializers.py:21-26 | the corners of the coordinate box are accepted |
| Serializers.LongitudeReportedFirst | core/serializers.py:18-26 | when both coordinates are out of range, the longitude error is reported |
| Serializers.CycleCapInclusive | core/serializers.py:35-38 | 70 is accepted and anything above it is rejected |

## Left out

- Clock.RoundHundredths: modelled as rounding half up on exact reals. Python rounds binary floats half to even, so the model states only the error bound that the rest of the proofs use.
- Clock.RoundTenths: rounding half up, as above.
- Floating point in general: every time, mile and hour is an exact real. `timedelta` rounding to microseconds and the float error in `miles_remaining -= segment_miles` are not modelled. Because of this, `PlanFacts.PlanCoversTrip` can state exact equality.
- NaN and infinite coordinates, which compare false in Python, are not modelled. `Serializers.ValidateCoords` takes real numbers.
- Dates and times:
  - a timestamp is a real number of hours since a midnight-aligned epoch;
  - time zones and daylight saving are not modelled;
  - `datetime.date()` is the whole number of days.
- Constructor: the `trip_data.get(...)` defaults and the `float(...)` conversions (hos_calculator.py:26-35) are not modelled. The constructor takes typed values, so a missing start time, which makes the source fail, cannot be expressed.
- Debug output (hos_calculator.py:29-30) is not modelled.
- `segment.get("distance_miles", 0)` (hos_calculator.py:179, 181, 213): every modelled segment has a distance, so the default never applies.
- `current_cycle_used` and `MAX_CYCLE_HOURS` are stored but never read by `calculate`. The model keeps them the same way, and there is no 70-hour cycle rule.
- The dictionary of daily logs keeps insertion order in Python. The model keeps that order as an explicit sequence of dates beside the map.
- Request handling and persistence are not part of this model: core/views.py, core/models.py, core/admin.py and the URL files.
- The route distance is an input. core/services/distance_calculator.py is not part of this model.
- The output serializers and their date formatting (core/serializers.py:49-146) are framework glue and are not modelled.
- Locations: the caller passes each location as a `{name, coords}` record, which the calculator copies into the segments and log entries. The model treats a location as an opaque label (a string) that is copied unchanged.
- DRF's own `ListField(min_length=2, max_length=2)` check runs before `validate_coords`. Only the validator method is modelled.
