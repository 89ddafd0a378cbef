/** Dates as integer day numbers (day 0 is 1970-01-01) and instants as integer
    milliseconds of local time, enough to state what `new Date(y, m - 1, d)`,
    `getFullYear` and `setFullYear` do in the date rescue. Time zones are not
    modelled: every instant is local time. */
module Calendar {

  const DAY_MS: int := 24 * 3600 * 1000

  /** A `Date` as the scripts use it: its time value and its `getFullYear()`. */
  datatype Moment = Moment(ms: int, year: int)

  predicate IsLeap(y: int) {
    y % 4 == 0 && (y % 100 != 0 || y % 400 == 0)
  }

  function DaysInMonth(y: int, m: int): (n: int)
    requires 1 <= m <= 12
    ensures 28 <= n <= 31
    ensures m != 2 ==> n >= 30
  {
    if m == 2 then (if IsLeap(y) then 29 else 28)
    else if m == 4 || m == 6 || m == 9 || m == 11 then 30
    else 31
  }

  /** Days of year `y` before the first of month `m`. */
  function DaysBeforeMonth(y: int, m: int): (n: int)
    requires 1 <= m <= 12
    ensures 0 <= n <= 335
    ensures m > 1 ==> n == DaysBeforeMonth(y, m - 1) + DaysInMonth(y, m - 1)
  {
    if m == 1 then 0 else DaysBeforeMonth(y, m - 1) + DaysInMonth(y, m - 1)
  }

  /** Day number of January 1 of year `y` (proleptic Gregorian calendar). */
  function YearStart(y: int): int {
    var p := y - 1;
    365 * p + p / 4 - p / 100 + p / 400 - 719162
  }

  /** Day number of `y`-`m`-`d`; the day of month counts on linearly past the
      month's end, as `new Date(y, m - 1, d)` does. */
  function DayNumber(y: int, m: int, d: int): int
    requires 1 <= m <= 12
  {
    YearStart(y) + DaysBeforeMonth(y, m) + d - 1
  }

  /** The epoch is day 0. */
  lemma EpochIsDayZero()
    ensures DayNumber(1970, 1, 1) == 0
  {
  }

  /** A year is 365 days long, 366 when it is a leap year. */
  lemma YearLength(y: int)
    ensures YearStart(y + 1) == YearStart(y) + (if IsLeap(y) then 366 else 365)
  {
    var p := y - 1;
    assert (p + 1) / 4 == p / 4 + (if y % 4 == 0 then 1 else 0);
    assert (p + 1) / 100 == p / 100 + (if y % 100 == 0 then 1 else 0);
    assert (p + 1) / 400 == p / 400 + (if y % 400 == 0 then 1 else 0);
  }

  /** The time value of `new Date(y, m - 1, d)` at local midnight, for the
      month numbers 1..19 and day numbers 1..39 a two-digit pattern can yield:
      months 13..19 fall in the next year. */
  function LocalMidnight(y: int, m: int, d: int): int
    requires 1 <= m <= 19
  {
    (if m <= 12 then DayNumber(y, m, d) else DayNumber(y + 1, m - 12, d)) * DAY_MS
  }

  /** The calendar date a `new Date(y, m - 1, d)` object holds, with month
      and day brought into range; a day up to 39 overflows by at most one month. */
  function Normalize(y: int, m: int, d: int): (r: (int, int, int))
    requires 1 <= m <= 19 && 1 <= d <= 39
    ensures 1 <= r.1 <= 12 && 1 <= r.2 <= DaysInMonth(r.0, r.1)
    ensures r.0 * 12 + r.1 >= y * 12 + m
  {
    var (y1, m1) := if m > 12 then (y + 1, m - 12) else (y, m);
    if d <= DaysInMonth(y1, m1) then (y1, m1, d)
    else if m1 == 12 then (y1 + 1, 1, d - 31)
    else (y1, m1 + 1, d - DaysInMonth(y1, m1))
  }

  /** Normalising does not move the date. */
  lemma NormalizeSameDay(y: int, m: int, d: int)
    requires 1 <= m <= 19 && 1 <= d <= 39
    ensures var (y2, m2, d2) := Normalize(y, m, d); DayNumber(y2, m2, d2) * DAY_MS == LocalMidnight(y, m, d)
  {
    var (y1, m1) := if m > 12 then (y + 1, m - 12) else (y, m);
    assert LocalMidnight(y, m, d) == DayNumber(y1, m1, d) * DAY_MS;
    var r := Normalize(y, m, d);
    NormalizeSameDayNumber(y1, m1, d);
    assert r == Normalize(y1, m1, d);
  }

  /** The day number of an in-range month and an overflowing day is that
      of the normalised date. */
  lemma NormalizeSameDayNumber(y: int, m: int, d: int)
    requires 1 <= m <= 12 && 1 <= d <= 39
    ensures var (y2, m2, d2) := Normalize(y, m, d); DayNumber(y2, m2, d2) == DayNumber(y, m, d)
  {
    if d > DaysInMonth(y, m) && m == 12 {
      YearLength(y);
      assert DaysBeforeMonth(y, 12) == 334 + (if IsLeap(y) then 1 else 0) by {
        assert DaysBeforeMonth(y, 3) == 59 + (if IsLeap(y) then 1 else 0);
      }
    }
  }

  /** `now` lies inside its own year. */
  predicate ClockValid(now: Moment) {
    YearStart(now.year) * DAY_MS <= now.ms < YearStart(now.year + 1) * DAY_MS
  }
}
