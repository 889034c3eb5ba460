/** Timestamps, calendar dates and decimal rounding.

    A timestamp is a real number of hours since a fixed epoch that starts at
    midnight. The calendar date of a timestamp is the number of whole days
    since the epoch, and its hour of day is what is left over. Python's
    `round(x, 2)` and `round(x, 1)` are modelled rounding half up; the
    rest of the model only relies on their error bounds. */
module Clock {

  /** Hours in a calendar day. */
  const HoursPerDay: real := 24.0

  /** Calendar date (whole days since the epoch) of a timestamp: `datetime.date()`. */
  function DateOf(t: real): int {
    (t / HoursPerDay).Floor
  }

  /** Fractional hour of day of a timestamp. */
  function HourOfDay(t: real): (h: real)
    ensures 0.0 <= h < HoursPerDay
    ensures t - h == (DateOf(t) as real) * HoursPerDay
  {
    t - (DateOf(t) as real) * HoursPerDay
  }

  /** `hour + minute / 60`: the hour of day truncated to a whole minute. */
  function ClockHour(t: real): (h: real)
    ensures 0.0 <= h <= HourOfDay(t) < h + 1.0 / 60.0
  {
    var m := (HourOfDay(t) * 60.0).Floor;
    assert m as real <= HourOfDay(t) * 60.0 < m as real + 1.0;
    (m as real) / 60.0
  }

  /** `round(x, 2)`: the nearest multiple of 0.01, halves rounded up. */
  function RoundHundredths(x: real): (r: real)
    ensures x - 0.005 < r <= x + 0.005
    ensures x >= 0.0 ==> r >= 0.0
  {
    var n := (x * 100.0 + 0.5).Floor;
    assert n as real <= x * 100.0 + 0.5 < n as real + 1.0;
    (n as real) / 100.0
  }

  /** `round(x, 1)`: the nearest multiple of 0.1, halves rounded up. */
  function RoundTenths(x: real): (r: real)
    ensures x - 0.05 < r <= x + 0.05
    ensures x >= 0.0 ==> r >= 0.0
  {
    var n := (x * 10.0 + 0.5).Floor;
    assert n as real <= x * 10.0 + 0.5 < n as real + 1.0;
    (n as real) / 10.0
  }
}
