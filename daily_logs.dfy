/** The daily logs `_generate_daily_logs` builds from a list of segments: one
    log per calendar date on which a segment starts, numbered in order of first
    appearance, holding one entry per segment and four duty-status totals that
    are padded with off-duty time up to 24 hours. */
module DailyLogs {
  import opened Clock
  import opened Timeline

  datatype DutyStatus = DrivingDuty | SleeperBerthDuty | OffDuty | OnDutyNotDriving

  datatype LogEntry = LogEntry(dutyStatus: DutyStatus, startHour: real, endHour: real, location: string)

  datatype DailyLog = DailyLog(
    logDate: int,
    dayNumber: int,
    entries: seq<LogEntry>,
    drivingHours: real,
    onDutyHours: real,
    sleeperBerthHours: real,
    offDutyHours: real,
    totalMiles: real)

  /** The duty status a segment kind is logged under. */
  function DutyStatusOf(t: SegmentType): DutyStatus {
    match t
    case Driving => DrivingDuty
    case SleeperBerth => SleeperBerthDuty
    case RestBreak => OffDuty
    case Fuel => OnDutyNotDriving
    case Pickup => OnDutyNotDriving
    case Dropoff => OnDutyNotDriving
  }

  /** Calendar date of a segment's start: the date its log is kept under. */
  function StartDate(s: Segment): int {
    DateOf(s.startTime)
  }

  /** The log entry of one segment: its duty status, and its start and end
      clock hours (truncated to the minute) rounded to 0.01. */
  function EntryOf(s: Segment): (e: LogEntry)
    ensures 0.0 <= e.startHour < HoursPerDay && 0.0 <= e.endHour < HoursPerDay
  {
    ClockHourBelowDayEnd(s.startTime);
    ClockHourBelowDayEnd(s.endTime);
    LogEntry(DutyStatusOf(s.segmentType), RoundHundredths(ClockHour(s.startTime)),
             RoundHundredths(ClockHour(s.endTime)), s.location)
  }

  /** The last whole minute of a day is 23:59. */
  lemma ClockHourBelowDayEnd(t: real)
    ensures ClockHour(t) <= HoursPerDay - 1.0 / 60.0
  {
    var m := (HourOfDay(t) * 60.0).Floor;
    assert (m as real) < 1440.0;
  }

  function Total(log: DailyLog): real {
    log.drivingHours + log.onDutyHours + log.sleeperBerthHours + log.offDutyHours
  }

  /** A log with no entries yet. */
  function NewDay(date: int, dayNumber: int): DailyLog {
    DailyLog(date, dayNumber, [], 0.0, 0.0, 0.0, 0.0, 0.0)
  }

  /** One segment recorded in a day's log: its stored duration goes to the bucket
      of its kind (driving also adds its stored miles), and its entry is appended. */
  function AddSegment(log: DailyLog, s: Segment): DailyLog {
    var d := s.durationHours;
    var counted :=
      match s.segmentType
      case Driving => log.(drivingHours := log.drivingHours + d, totalMiles := log.totalMiles + s.distanceMiles)
      case SleeperBerth => log.(sleeperBerthHours := log.sleeperBerthHours + d)
      case Fuel => log.(onDutyHours := log.onDutyHours + d)
      case Pickup => log.(onDutyHours := log.onDutyHours + d)
      case Dropoff => log.(onDutyHours := log.onDutyHours + d)
      case RestBreak => log.(offDutyHours := log.offDutyHours + d);
    counted.(entries := log.entries + [EntryOf(s)])
  }

  /** The log of calendar date `date`, numbered `dayNumber`, before padding. */
  function DayOf(segs: seq<Segment>, date: int, dayNumber: int): DailyLog
    decreases |segs|
  {
    if segs == [] then NewDay(date, dayNumber)
    else
      var log := DayOf(segs[..|segs| - 1], date, dayNumber);
      if StartDate(Last(segs)) == date then AddSegment(log, Last(segs)) else log
  }

  /** A day whose totals fall short of 24 hours gets the shortfall as off-duty time. */
  function Pad(log: DailyLog): (padded: DailyLog)
    ensures padded == log.(offDutyHours := padded.offDutyHours)
    ensures padded.offDutyHours >= log.offDutyHours
    ensures Total(log) < HoursPerDay ==> Total(padded) == HoursPerDay
    ensures Total(log) >= HoursPerDay ==> padded == log
  {
    var total := Total(log);
    if total < HoursPerDay then log.(offDutyHours := log.offDutyHours + (HoursPerDay - total)) else log
  }

  /** The calendar dates on which segments start, each once, in order of first appearance. */
  function DistinctDates(segs: seq<Segment>): seq<int>
    decreases |segs|
  {
    if segs == [] then []
    else
      var dates := DistinctDates(segs[..|segs| - 1]);
      if StartDate(Last(segs)) in dates then dates else dates + [StartDate(Last(segs))]
  }

  /** The daily logs of a segment list: one padded log per distinct start date,
      numbered from 1 in order of first appearance. */
  function DailyLogsOf(segs: seq<Segment>): seq<DailyLog> {
    var dates := DistinctDates(segs);
    seq(|dates|, j requires 0 <= j < |dates| => Pad(DayOf(segs, dates[j], j + 1)))
  }

  // ---------------------------------------------------------------------------
  // Reference definitions: the segments of one date and their sums

  /** The segments that start on `date`, in their original order. */
  function OnDate(segs: seq<Segment>, date: int): seq<Segment>
    decreases |segs|
  {
    if segs == [] then []
    else OnDate(segs[..|segs| - 1], date) + (if StartDate(Last(segs)) == date then [Last(segs)] else [])
  }

  /** Stored hours of the segments logged under duty status `status`. */
  function HoursWithStatus(segs: seq<Segment>, status: DutyStatus): real
    decreases |segs|
  {
    if segs == [] then 0.0
    else HoursWithStatus(segs[..|segs| - 1], status)
         + (if DutyStatusOf(Last(segs).segmentType) == status then Last(segs).durationHours else 0.0)
  }

  /** Stored hours of all segments. */
  function Durations(segs: seq<Segment>): real
    decreases |segs|
  {
    if segs == [] then 0.0 else Durations(segs[..|segs| - 1]) + Last(segs).durationHours
  }

  /** Stored miles of the driving segments. */
  function DrivingMiles(segs: seq<Segment>): real
    decreases |segs|
  {
    if segs == [] then 0.0
    else DrivingMiles(segs[..|segs| - 1]) + (if Last(segs).segmentType == Driving then Last(segs).distanceMiles else 0.0)
  }

  /** The entries of a list of segments. */
  function EntriesOf(segs: seq<Segment>): seq<LogEntry>
    decreases |segs|
  {
    if segs == [] then [] else EntriesOf(segs[..|segs| - 1]) + [EntryOf(Last(segs))]
  }

  // ---------------------------------------------------------------------------
  // What a day's log holds

  /** A day's log, before padding, holds exactly the segments starting on that
      date: its date and number, one entry per such segment in their order, each
      bucket the stored hours of those segments logged under that bucket's duty
      status, and the stored miles of those driving segments. */
  lemma {:induction false} DayContents(segs: seq<Segment>, date: int, dayNumber: int)
    ensures var log := DayOf(segs, date, dayNumber);
      var on := OnDate(segs, date);
      log.logDate == date && log.dayNumber == dayNumber &&
      log.entries == EntriesOf(on) &&
      log.drivingHours == HoursWithStatus(on, DrivingDuty) &&
      log.onDutyHours == HoursWithStatus(on, OnDutyNotDriving) &&
      log.sleeperBerthHours == HoursWithStatus(on, SleeperBerthDuty) &&
      log.offDutyHours == HoursWithStatus(on, OffDuty) &&
      log.totalMiles == DrivingMiles(on)
    decreases |segs|
  {
    if segs != [] {
      var init := segs[..|segs| - 1];
      var x := Last(segs);
      DayContents(init, date, dayNumber);
      if StartDate(x) == date {
        var on := OnDate(init, date);
        assert OnDate(segs, date) == on + [x];
        assert (on + [x])[..|on|] == on;
      } else {
        assert OnDate(segs, date) == OnDate(init, date) + [];
        assert OnDate(init, date) + [] == OnDate(init, date);
      }
    }
  }

  /** The four buckets together hold every stored hour of the day's segments. */
  lemma {:induction false} StatusHoursPartition(segs: seq<Segment>)
    ensures HoursWithStatus(segs, DrivingDuty) + HoursWithStatus(segs, OnDutyNotDriving)
          + HoursWithStatus(segs, SleeperBerthDuty) + HoursWithStatus(segs, OffDuty) == Durations(segs)
    decreases |segs|
  {
    if segs != [] {
      StatusHoursPartition(segs[..|segs| - 1]);
    }
  }

  /** A day's raw total is the stored hours of the segments starting on that date. */
  lemma DayTotal(segs: seq<Segment>, date: int, dayNumber: int)
    ensures Total(DayOf(segs, date, dayNumber)) == Durations(OnDate(segs, date))
  {
    DayContents(segs, date, dayNumber);
    StatusHoursPartition(OnDate(segs, date));
  }

  // ---------------------------------------------------------------------------
  // Which days there are

  predicate NoDuplicates(s: seq<int>) {
    forall i, j :: 0 <= i < j < |s| ==> s[i] != s[j]
  }

  /** The distinct dates are pairwise different, and a date is among them exactly
      when some segment starts on it. */
  lemma {:induction false} DistinctDatesFacts(segs: seq<Segment>)
    ensures NoDuplicates(DistinctDates(segs))
    ensures forall d :: d in DistinctDates(segs) <==> exists k :: 0 <= k < |segs| && StartDate(segs[k]) == d
    decreases |segs|
  {
    if segs != [] {
      var init := segs[..|segs| - 1];
      DistinctDatesFacts(init);
      var dates := DistinctDates(init);
      var last := StartDate(Last(segs));
      if last !in dates {
        var all := dates + [last];
        forall i, j | 0 <= i < j < |all|
          ensures all[i] != all[j]
        {
          if j == |dates| {
            assert all[i] == dates[i] && dates[i] in dates && all[j] == last;
          } else {
            assert all[i] == dates[i] && all[j] == dates[j];
          }
        }
        assert DistinctDates(segs) == all;
      }
      forall d | d in DistinctDates(segs)
        ensures exists k :: 0 <= k < |segs| && StartDate(segs[k]) == d
      {
        if d in DistinctDates(init) {
          var k :| 0 <= k < |init| && StartDate(init[k]) == d;
          assert StartDate(segs[k]) == d;
        } else {
          assert StartDate(segs[|segs| - 1]) == d;
        }
      }
      forall d | exists k :: 0 <= k < |segs| && StartDate(segs[k]) == d
        ensures d in DistinctDates(segs)
      {
        var k :| 0 <= k < |segs| && StartDate(segs[k]) == d;
        if k < |init| {
          assert StartDate(init[k]) == d;
        }
      }
    }
  }

  /** A date on which no segment starts has an empty log. */
  lemma {:induction false} AbsentDayIsNew(segs: seq<Segment>, date: int, dayNumber: int)
    requires date !in DistinctDates(segs)
    ensures DayOf(segs, date, dayNumber) == NewDay(date, dayNumber)
    decreases |segs|
  {
    if segs != [] {
      var init := segs[..|segs| - 1];
      assert date !in DistinctDates(init);
      AbsentDayIsNew(init, date, dayNumber);
    }
  }

  /** Filing one more segment: the log of its date gains it, other logs stay. */
  lemma DayOfAppend(segs: seq<Segment>, x: Segment, date: int, dayNumber: int)
    ensures DayOf(segs + [x], date, dayNumber)
         == if StartDate(x) == date then AddSegment(DayOf(segs, date, dayNumber), x)
            else DayOf(segs, date, dayNumber)
  {
    assert (segs + [x])[..|segs|] == segs;
  }

  /** One more segment adds its date at the end when the date is new. */
  lemma DistinctDatesAppend(segs: seq<Segment>, x: Segment)
    ensures DistinctDates(segs + [x])
         == if StartDate(x) in DistinctDates(segs) then DistinctDates(segs)
            else DistinctDates(segs) + [StartDate(x)]
  {
    assert (segs + [x])[..|segs|] == segs;
  }

  /** A map from dates to logs that holds, for the `j`-th date of `order`, the raw
      log of that date over `segs` with day number `j + 1`, and no other date. */
  ghost predicate FiledLogs(m: map<int, DailyLog>, segs: seq<Segment>, order: seq<int>) {
    (forall d :: d in m <==> d in order) &&
    forall j :: 0 <= j < |order| ==> order[j] in m && m[order[j]] == DayOf(segs, order[j], j + 1)
  }

  /** Opening the log of a date no segment has started on yet, with the next day number. */
  lemma OpenDay(m: map<int, DailyLog>, segs: seq<Segment>, order: seq<int>, date: int)
    requires FiledLogs(m, segs, order) && date !in m && date !in DistinctDates(segs)
    ensures FiledLogs(m[date := NewDay(date, |order| + 1)], segs, order + [date])
  {
    AbsentDayIsNew(segs, date, |order| + 1);
  }

  /** Filing one more segment in the log of its date keeps the map filed. */
  lemma FileSegment(m: map<int, DailyLog>, segs: seq<Segment>, order: seq<int>, x: Segment)
    requires FiledLogs(m, segs, order) && StartDate(x) in m
    ensures FiledLogs(m[StartDate(x) := AddSegment(m[StartDate(x)], x)], segs + [x], order)
  {
    var m' := m[StartDate(x) := AddSegment(m[StartDate(x)], x)];
    forall j | 0 <= j < |order|
      ensures order[j] in m' && m'[order[j]] == DayOf(segs + [x], order[j], j + 1)
    {
      DayOfAppend(segs, x, order[j], j + 1);
    }
  }

  /** Reading the padded logs in the order their dates first appear gives the daily logs. */
  lemma PaddedInOrder(m: map<int, DailyLog>, padded: map<int, DailyLog>, segs: seq<Segment>, logs: seq<DailyLog>)
    requires FiledLogs(m, segs, DistinctDates(segs))
    requires var order := DistinctDates(segs);
      |logs| == |order| &&
      forall j :: 0 <= j < |order| ==> order[j] in padded && logs[j] == padded[order[j]] == Pad(m[order[j]])
    ensures logs == DailyLogsOf(segs)
  {
    DailyLogsAt(segs);
  }

  /** The `j`-th daily log is the padded log of the `j`-th distinct date. */
  lemma DailyLogsAt(segs: seq<Segment>)
    ensures |DailyLogsOf(segs)| == |DistinctDates(segs)|
    ensures forall j :: 0 <= j < |DistinctDates(segs)| ==>
      DailyLogsOf(segs)[j] == Pad(DayOf(segs, DistinctDates(segs)[j], j + 1))
  {
  }

  /** `log` is the log of `date` at position `dayNumber`, holding one entry per
      segment starting that day, and padded to at least 24 hours: exactly 24
      when that day's segments take less, their stored hours otherwise. */
  predicate PaddedLogOf(log: DailyLog, segs: seq<Segment>, date: int, dayNumber: int) {
    var hours := Durations(OnDate(segs, date));
    log.logDate == date && log.dayNumber == dayNumber &&
    log.entries == EntriesOf(OnDate(segs, date)) &&
    Total(log) >= HoursPerDay &&
    (hours < HoursPerDay ==> Total(log) == HoursPerDay) &&
    (hours >= HoursPerDay ==> Total(log) == hours)
  }

  /** Padding a date's raw log gives its padded log. */
  lemma PaddedDay(segs: seq<Segment>, date: int, dayNumber: int)
    ensures PaddedLogOf(Pad(DayOf(segs, date, dayNumber)), segs, date, dayNumber)
  {
    DayContents(segs, date, dayNumber);
    DayTotal(segs, date, dayNumber);
  }

  /** There is one log per distinct date, and the `j`-th is that date's padded log
      with day number `j + 1`. */
  lemma DailyLogsFacts(segs: seq<Segment>)
    ensures var logs := DailyLogsOf(segs);
      var dates := DistinctDates(segs);
      |logs| == |dates| &&
      forall j :: 0 <= j < |logs| ==> PaddedLogOf(logs[j], segs, dates[j], j + 1)
  {
    var dates := DistinctDates(segs);
    DailyLogsAt(segs);
    forall j | 0 <= j < |dates|
      ensures PaddedLogOf(DailyLogsOf(segs)[j], segs, dates[j], j + 1)
    {
      PaddedDay(segs, dates[j], j + 1);
    }
  }

  // ---------------------------------------------------------------------------
  // Segments in time order

  /** Start dates never go backwards along the list. */
  predicate DatesNondecreasing(segs: seq<Segment>) {
    forall i, j :: 0 <= i <= j < |segs| ==> StartDate(segs[i]) <= StartDate(segs[j])
  }

  /** The entries of the days `dates`, concatenated in that order. */
  function EntriesByDate(segs: seq<Segment>, dates: seq<int>): seq<LogEntry>
    decreases |dates|
  {
    if dates == [] then []
    else EntriesByDate(segs, dates[..|dates| - 1]) + EntriesOf(OnDate(segs, dates[|dates| - 1]))
  }

  /** Adding a segment changes only the segments of its own date. */
  lemma OnDateAppend(segs: seq<Segment>, x: Segment, date: int)
    ensures OnDate(segs + [x], date) == OnDate(segs, date) + (if StartDate(x) == date then [x] else [])
  {
    assert (segs + [x])[..|segs|] == segs;
  }

  /** No segment of a list starts on a date missing from its distinct dates. */
  lemma {:induction false} AbsentDateIsEmpty(segs: seq<Segment>, date: int)
    requires date !in DistinctDates(segs)
    ensures OnDate(segs, date) == []
    decreases |segs|
  {
    if segs != [] {
      var init := segs[..|segs| - 1];
      assert date !in DistinctDates(init);
      AbsentDateIsEmpty(init, date);
      OnDateAppend(init, Last(segs), date);
      assert init + [Last(segs)] == segs;
    }
  }

  /** Days other than the new segment's date keep their entries. */
  lemma {:induction false} EntriesByDateAppend(segs: seq<Segment>, x: Segment, dates: seq<int>)
    requires StartDate(x) !in dates
    ensures EntriesByDate(segs + [x], dates) == EntriesByDate(segs, dates)
    decreases |dates|
  {
    if dates != [] {
      EntriesByDateAppend(segs, x, dates[..|dates| - 1]);
      OnDateAppend(segs, x, dates[|dates| - 1]);
      assert OnDate(segs, dates[|dates| - 1]) + [] == OnDate(segs, dates[|dates| - 1]);
    }
  }

  /** The entries of a list with one more segment. */
  lemma EntriesOfAppend(segs: seq<Segment>, x: Segment)
    ensures EntriesOf(segs + [x]) == EntriesOf(segs) + [EntryOf(x)]
  {
    assert (segs + [x])[..|segs|] == segs;
  }

  /** When start dates never go backwards, the last new date is the last segment's. */
  lemma {:induction false} LastDateIsLastSegments(segs: seq<Segment>)
    requires |segs| > 0 && DatesNondecreasing(segs)
    ensures |DistinctDates(segs)| > 0 && DistinctDates(segs)[|DistinctDates(segs)| - 1] == StartDate(Last(segs))
    decreases |segs|
  {
    var init := segs[..|segs| - 1];
    var dx := StartDate(Last(segs));
    if init != [] && dx in DistinctDates(init) {
      LastDateIsLastSegments(init);
      DistinctDatesFacts(init);
      var k :| 0 <= k < |init| && StartDate(init[k]) == dx;
      assert StartDate(segs[k]) <= StartDate(segs[|segs| - 2]) <= StartDate(segs[|segs| - 1]);
    }
  }

  /** A segment on a new date opens the last day, holding just its entry. */
  lemma NewDateStep(segs: seq<Segment>, x: Segment)
    requires StartDate(x) !in DistinctDates(segs)
    ensures EntriesByDate(segs + [x], DistinctDates(segs + [x]))
         == EntriesByDate(segs, DistinctDates(segs)) + [EntryOf(x)]
  {
    var dates := DistinctDates(segs);
    DistinctDatesAppend(segs, x);
    EntriesByDateSnoc(segs + [x], dates, StartDate(x));
    EntriesByDateAppend(segs, x, dates);
    NewDateEntries(segs, x);
  }

  /** Reading one more date reads its entries last. */
  lemma EntriesByDateSnoc(segs: seq<Segment>, dates: seq<int>, date: int)
    ensures EntriesByDate(segs, dates + [date]) == EntriesByDate(segs, dates) + EntriesOf(OnDate(segs, date))
  {
    assert (dates + [date])[..|dates|] == dates;
  }

  /** A segment on a date no earlier segment starts on is alone on that date. */
  lemma NewDateEntries(segs: seq<Segment>, x: Segment)
    requires StartDate(x) !in DistinctDates(segs)
    ensures EntriesOf(OnDate(segs + [x], StartDate(x))) == [EntryOf(x)]
  {
    AbsentDateIsEmpty(segs, StartDate(x));
    OnDateAppend(segs, x, StartDate(x));
    assert OnDate(segs + [x], StartDate(x)) == [] + [x];
    EntriesOfAppend([], x);
  }

  /** Concatenation is associative; stated once so that the solver does not
      have to rediscover it inside a larger proof. */
  lemma AppendAssociates<T>(a: seq<T>, b: seq<T>, c: seq<T>)
    ensures a + (b + c) == (a + b) + c
  {
  }

  /** With dates in order, a segment dated on a day already present is on the last day. */
  lemma LastDateSplit(segs: seq<Segment>, x: Segment) returns (rest: seq<int>)
    requires |segs| > 0 && DatesNondecreasing(segs) && StartDate(Last(segs)) <= StartDate(x)
    requires StartDate(x) in DistinctDates(segs)
    ensures DistinctDates(segs) == rest + [StartDate(x)] && StartDate(x) !in rest
  {
    var dx := StartDate(x);
    var dates := DistinctDates(segs);
    LastDateIsLastSegments(segs);
    DistinctDatesFacts(segs);
    var k :| 0 <= k < |segs| && StartDate(segs[k]) == dx;
    assert StartDate(segs[k]) <= StartDate(segs[|segs| - 1]);
    assert dates[|dates| - 1] == dx;
    rest := dates[..|dates| - 1];
    assert dates == rest + [dx];
    forall i | 0 <= i < |rest| ensures rest[i] != dx {
      assert rest[i] == dates[i];
    }
  }

  /** A segment on the date of the last day joins that day, after its entries. */
  lemma SameDateStep(segs: seq<Segment>, x: Segment)
    requires |segs| > 0 && DatesNondecreasing(segs) && StartDate(Last(segs)) <= StartDate(x)
    requires StartDate(x) in DistinctDates(segs)
    ensures EntriesByDate(segs + [x], DistinctDates(segs + [x]))
         == EntriesByDate(segs, DistinctDates(segs)) + [EntryOf(x)]
  {
    var dx := StartDate(x);
    var dates := DistinctDates(segs);
    var rest := LastDateSplit(segs, x);
    assert (segs + [x])[..|segs|] == segs;
    assert DistinctDates(segs + [x]) == dates;
    assert (rest + [dx])[..|rest|] == rest;
    EntriesByDateAppend(segs, x, rest);
    OnDateAppend(segs, x, dx);
    EntriesOfAppend(OnDate(segs, dx), x);
    var before, same := EntriesByDate(segs, rest), EntriesOf(OnDate(segs, dx));
    assert EntriesByDate(segs, dates) == before + same;
    calc {
      EntriesByDate(segs + [x], dates);
      EntriesByDate(segs + [x], rest) + EntriesOf(OnDate(segs + [x], dx));
      before + (same + [EntryOf(x)]);
      { AppendAssociates(before, same, [EntryOf(x)]); }
      (before + same) + [EntryOf(x)];
    }
  }

  /** When start dates never go backwards, the days' entries, concatenated in day
      order, are the entries of all segments in their order: each segment has
      exactly one entry, in the log of its start date. */
  lemma {:induction false} EntriesPartition(segs: seq<Segment>)
    requires DatesNondecreasing(segs)
    ensures EntriesByDate(segs, DistinctDates(segs)) == EntriesOf(segs)
    decreases |segs|
  {
    if segs != [] {
      var init := segs[..|segs| - 1];
      var x := Last(segs);
      assert init + [x] == segs;
      assert DatesNondecreasing(init) by {
        forall i, j | 0 <= i <= j < |init| ensures StartDate(init[i]) <= StartDate(init[j]) {
          assert init[i] == segs[i] && init[j] == segs[j];
        }
      }
      EntriesPartition(init);
      if StartDate(x) !in DistinctDates(init) {
        NewDateStep(init, x);
      } else {
        assert StartDate(segs[|segs| - 2]) <= StartDate(segs[|segs| - 1]);
        SameDateStep(init, x);
      }
      EntriesOfAppend(init, x);
    }
  }

  /** The entries of a list of logs, concatenated in order. */
  function AllEntries(logs: seq<DailyLog>): seq<LogEntry>
    decreases |logs|
  {
    if logs == [] then [] else AllEntries(logs[..|logs| - 1]) + logs[|logs| - 1].entries
  }

  /** The first `k` logs hold the entries of the first `k` dates. */
  lemma {:induction false} LogsPrefixEntries(segs: seq<Segment>, k: nat)
    requires k <= |DistinctDates(segs)|
    ensures AllEntries(DailyLogsOf(segs)[..k]) == EntriesByDate(segs, DistinctDates(segs)[..k])
    decreases k
  {
    var dates := DistinctDates(segs);
    var logs := DailyLogsOf(segs);
    DailyLogsAt(segs);
    if k > 0 {
      LogsPrefixEntries(segs, k - 1);
      PaddedDay(segs, dates[k - 1], k);
      assert logs[..k][..k - 1] == logs[..k - 1];
      assert dates[..k][..k - 1] == dates[..k - 1];
      assert logs[..k][k - 1] == logs[k - 1];
    }
  }

  /** When start dates never go backwards, reading the logs' entries in order gives
      one entry per segment, in segment order: no segment is lost, duplicated or
      moved. */
  lemma LogsHoldAllEntries(segs: seq<Segment>)
    requires DatesNondecreasing(segs)
    ensures AllEntries(DailyLogsOf(segs)) == EntriesOf(segs)
  {
    var dates := DistinctDates(segs);
    LogsPrefixEntries(segs, |dates|);
    DailyLogsFacts(segs);
    assert DailyLogsOf(segs)[..|dates|] == DailyLogsOf(segs);
    assert dates[..|dates|] == dates;
    EntriesPartition(segs);
  }

  /** Time never runs backwards and no segment lasts longer than a day. */
  predicate Chronological(segs: seq<Segment>) {
    (forall k :: 0 < k < |segs| ==> segs[k].startTime == segs[k - 1].endTime) &&
    (forall k :: 0 <= k < |segs| ==> 0.0 <= Elapsed(segs[k]) <= HoursPerDay)
  }

  /** The date a day or less later is the same date or the next one. */
  lemma DateStep(t: real, e: real)
    requires 0.0 <= e <= HoursPerDay
    ensures DateOf(t) <= DateOf(t + e) <= DateOf(t) + 1
  {
    var d := DateOf(t);
    assert (d as real) * HoursPerDay <= t < (d as real) * HoursPerDay + HoursPerDay;
    var d' := DateOf(t + e);
    assert (d' as real) * HoursPerDay <= t + e < (d' as real) * HoursPerDay + HoursPerDay;
  }

  /** In a chronological list the start dates run without gaps from the first
      segment's date to the last one's: the logs cover consecutive calendar
      dates, in calendar order. */
  lemma {:induction false} ConsecutiveDates(segs: seq<Segment>)
    requires |segs| > 0 && Chronological(segs)
    ensures DatesNondecreasing(segs) && StartDate(segs[0]) <= StartDate(Last(segs))
    ensures var first := StartDate(segs[0]);
      DistinctDates(segs) == seq(StartDate(Last(segs)) - first + 1, j => first + j)
    decreases |segs|
  {
    var first := StartDate(segs[0]);
    if |segs| == 1 {
      assert segs[..0] == [];
    } else {
      var init := segs[..|segs| - 1];
      var x := Last(segs);
      var prev := Last(init);
      assert init[0] == segs[0];
      ConsecutiveDates(init);
      DateStep(prev.startTime, Elapsed(prev));
      assert x.startTime == prev.startTime + Elapsed(prev);
      var dates := DistinctDates(init);
      var n := StartDate(prev) - first + 1;
      assert |dates| == n && dates[n - 1] == StartDate(prev);
      if StartDate(x) == StartDate(prev) {
        assert StartDate(x) in dates;
      } else {
        assert StartDate(x) !in dates;
        assert dates + [StartDate(x)] == seq(n + 1, j => first + j);
      }
      forall i, j | 0 <= i <= j < |segs|
        ensures StartDate(segs[i]) <= StartDate(segs[j])
      {
        if j < |init| {
          assert StartDate(init[i]) <= StartDate(init[j]);
        } else if i < |init| {
          assert StartDate(init[i]) <= StartDate(prev);
        }
      }
    }
  }
}
