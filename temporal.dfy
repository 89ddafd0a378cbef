/** `deriveTimestamp` of scripts/universal-extract.js and scripts/run-consolidate.js
    (the two copies are identical): parse the date text with the current date
    as reference; when that fails or lands more than two years from now,
    rescue a month and day from the text, put them in the current year, and
    move the date one year on when it is more than a day in the past. */
module Temporal {
  import opened Wrappers
  import opened Strings
  import opened Calendar
  import opened Events

  function Abs(x: int): int {
    if x < 0 then -x else x
  }

  /** The month and day the rescue settles on; 0 stands for "no number"
      (`null`, or a captured 0), both falsy. A month-name match replaces the
      month, and the day too unless its day is 0. */
  function RescuedMonthDay(scan: DateScan): (int, int) {
    var (m0, d0) := if scan.numeric.Some? then (scan.numeric.value.0 as int, scan.numeric.value.1 as int) else (0, 0);
    if scan.named.Some? then
      (scan.named.value.0 as int, if scan.named.value.1 != 0 then scan.named.value.1 as int else d0)
    else (m0, d0)
  }

  /** The month and day in the current year, moved on by one year (of the
      normalised calendar date, as `setFullYear` does) when that is more than
      24 hours before now. */
  function Rescue(now: Moment, m: int, d: int): int
    requires 1 <= m <= 19 && 1 <= d <= 39
  {
    var candidate := LocalMidnight(now.year, m, d);
    if candidate < now.ms - DAY_MS then
      var (y2, m2, d2) := Normalize(now.year, m, d);
      DayNumber(y2 + 1, m2, d2) * DAY_MS
    else candidate
  }

  /** `String(dateInfo || '') + (timeStart ? ' ' + timeStart : '')` */
  function ParseInput(dateInfo: Option<string>, timeStart: Option<string>): string {
    OrEmpty(dateInfo) + (if Truthy(timeStart) then " " + timeStart.value else "")
  }

  /** The parse is used when it exists and its year is within two of now's. */
  predicate ParseUsable(env: Env, parsed: Option<Moment>) {
    parsed.Some? && Abs(parsed.value.year - env.now.year) <= 2
  }

  /** `deriveTimestamp(dateInfo, timeStart)`: the timestamp, or None for `null`. */
  function DeriveTimestamp(env: Env, dateInfo: Option<string>, timeStart: Option<string>): Option<int> {
    var parsed := env.parseDate(ParseInput(dateInfo, timeStart));
    if ParseUsable(env, parsed) then Some(parsed.value.ms)
    else
      var (m, d) := RescuedMonthDay(env.scanDate(OrEmpty(dateInfo)));
      if m != 0 && d != 0 then Some(Rescue(env.now, m, d))
      else if parsed.Some? then Some(parsed.value.ms)
      else None
  }

  lemma {:induction false} YearStartMonotone(a: int, b: int)
    requires a <= b
    ensures YearStart(a) <= YearStart(b)
    decreases b - a
  {
    if a < b {
      YearStartMonotone(a, b - 1);
      YearLength(b - 1);
    }
  }

  /** A rescued date is never more than one day in the past. */
  lemma RescueNotPast(now: Moment, m: int, d: int)
    requires ClockValid(now)
    requires 1 <= m <= 19 && 1 <= d <= 39
    ensures Rescue(now, m, d) >= now.ms - DAY_MS
  {
    var candidate := LocalMidnight(now.year, m, d);
    if candidate < now.ms - DAY_MS {
      var r := Normalize(now.year, m, d);
      var day := DayNumber(r.0 + 1, r.1, r.2);
      RescueMoved(now, m, d);
      NormalizeKeepsYear(now.year, m, d);
      YearStartMonotone(now.year + 1, r.0 + 1);
      assert day >= YearStart(now.year + 1);
      LaterDayLaterMs(day, YearStart(now.year + 1), now.ms);
    }
  }

  lemma LaterDayLaterMs(day: int, start: int, ms: int)
    requires day >= start && ms < start * DAY_MS
    ensures day * DAY_MS >= ms - DAY_MS
  {
  }

  lemma NormalizeKeepsYear(y: int, m: int, d: int)
    requires 1 <= m <= 19 && 1 <= d <= 39
    ensures Normalize(y, m, d).0 >= y
  {
  }

  /** Days of year `y` before month `m`: the fixed table plus the leap day from March on. */
  lemma DaysBeforeMonthTable(y: int, m: int)
    requires 1 <= m <= 12
    ensures DaysBeforeMonth(y, m) == DaysBeforeMonth(y + 1, m) + (if m >= 3 && IsLeap(y) then 1 else 0) - (if m >= 3 && IsLeap(y + 1) then 1 else 0)
    decreases m
  {
    if m > 1 {
      DaysBeforeMonthTable(y, m - 1);
    }
  }

  /** The same month and day a year later is 365 or 366 days later. */
  lemma OneYearLater(y: int, m: int, d: int)
    requires 1 <= m <= 12
    ensures DayNumber(y + 1, m, d) - DayNumber(y, m, d) in {365, 366}
  {
    YearLength(y);
    DaysBeforeMonthTable(y, m);
  }

  /** When the rescue moves a date on, it moves it by one calendar year:
      365 or 366 days. */
  lemma RescueMovesOneYear(now: Moment, m: int, d: int)
    requires 1 <= m <= 19 && 1 <= d <= 39
    requires LocalMidnight(now.year, m, d) < now.ms - DAY_MS
    ensures Rescue(now, m, d) == LocalMidnight(now.year, m, d) + 365 * DAY_MS
         || Rescue(now, m, d) == LocalMidnight(now.year, m, d) + 366 * DAY_MS
  {
    var r := Normalize(now.year, m, d);
    NormalizeSameDay(now.year, m, d);
    var before, after := DayNumber(r.0, r.1, r.2), DayNumber(r.0 + 1, r.1, r.2);
    RescueMoved(now, m, d);
    OneYearLater(r.0, r.1, r.2);
    DaysToMs(before, after);
  }

  /** A date more than a day in the past is moved to the next year's
      normalised month and day. */
  lemma RescueMoved(now: Moment, m: int, d: int)
    requires 1 <= m <= 19 && 1 <= d <= 39
    requires LocalMidnight(now.year, m, d) < now.ms - DAY_MS
    ensures var r := Normalize(now.year, m, d); Rescue(now, m, d) == DayNumber(r.0 + 1, r.1, r.2) * DAY_MS
  {
  }

  lemma DaysToMs(before: int, after: int)
    requires after - before in {365, 366}
    ensures after * DAY_MS == before * DAY_MS + 365 * DAY_MS || after * DAY_MS == before * DAY_MS + 366 * DAY_MS
  {
  }

  /** A usable parse wins over the rescue. */
  lemma ParserWins(env: Env, dateInfo: Option<string>, timeStart: Option<string>)
    requires ParseUsable(env, env.parseDate(ParseInput(dateInfo, timeStart)))
    ensures DeriveTimestamp(env, dateInfo, timeStart) == Some(env.parseDate(ParseInput(dateInfo, timeStart)).value.ms)
  {
  }

  /** When the parse is unusable and a month and day are found, the result is
      the rescued date, which is at most a day in the past. */
  lemma RescuedWhenUnparsed(env: Env, dateInfo: Option<string>, timeStart: Option<string>)
    requires ClockValid(env.now)
    requires !ParseUsable(env, env.parseDate(ParseInput(dateInfo, timeStart)))
    requires RescuedMonthDay(env.scanDate(OrEmpty(dateInfo))).0 != 0
    requires RescuedMonthDay(env.scanDate(OrEmpty(dateInfo))).1 != 0
    ensures DeriveTimestamp(env, dateInfo, timeStart).Some?
    ensures DeriveTimestamp(env, dateInfo, timeStart).value >= env.now.ms - DAY_MS
  {
    var (m, d) := RescuedMonthDay(env.scanDate(OrEmpty(dateInfo)));
    RescueNotPast(env.now, m, d);
  }

  /** With no month and day to rescue, whatever the parser said stands,
      even a date more than two years away. */
  lemma UnrescuedKeepsParse(env: Env, dateInfo: Option<string>, timeStart: Option<string>)
    requires !ParseUsable(env, env.parseDate(ParseInput(dateInfo, timeStart)))
    requires RescuedMonthDay(env.scanDate(OrEmpty(dateInfo))).0 == 0 || RescuedMonthDay(env.scanDate(OrEmpty(dateInfo))).1 == 0
    ensures DeriveTimestamp(env, dateInfo, timeStart) ==
      (if env.parseDate(ParseInput(dateInfo, timeStart)).Some? then Some(env.parseDate(ParseInput(dateInfo, timeStart)).value.ms) else None)
  {
  }

  /** A month-name match overrides the numeric match: the numeric month is
      never used, and the numeric day only when the name carried day 0. */
  lemma MonthNameOverrides(n1: Option<(NumericMonth, DayDigits)>, n2: Option<(NumericMonth, DayDigits)>,
                           named: (MonthIndex, DayDigits))
    ensures RescuedMonthDay(DateScan(n1, Some(named))).0 == named.0
    ensures named.1 != 0 ==> RescuedMonthDay(DateScan(n1, Some(named))) == RescuedMonthDay(DateScan(n2, Some(named)))
  {
  }

  lemma YearStarts()
    ensures YearStart(2024) == 19723 && YearStart(2025) == 20089
  {
  }

  /** Days before September and before December in a leap year. */
  lemma LeapCumulative(y: int)
    requires IsLeap(y)
    ensures DaysBeforeMonth(y, 9) == 244 && DaysBeforeMonth(y, 12) == 335
  {
    assert DaysBeforeMonth(y, 3) == 60;
    assert DaysBeforeMonth(y, 6) == 152;
  }

  /** Days before September in a common year. */
  lemma CommonCumulative(y: int)
    requires !IsLeap(y)
    ensures DaysBeforeMonth(y, 9) == 243
  {
    assert DaysBeforeMonth(y, 3) == 59;
    assert DaysBeforeMonth(y, 6) == 151;
  }

  /** "Sep 21" read on 2024-12-01 with the parser failing resolves to 2025-09-21. */
  lemma SeptemberRollsOver(env: Env)
    requires env.now == Moment(DayNumber(2024, 12, 1) * DAY_MS + 12 * 3600 * 1000, 2024)
    requires env.parseDate("Sep 21") == None
    requires env.scanDate("Sep 21") == DateScan(None, Some((9, 21)))
    ensures DeriveTimestamp(env, Some("Sep 21"), None) == Some(DayNumber(2025, 9, 21) * DAY_MS)
  {
    assert ParseInput(Some("Sep 21"), None) == "Sep 21";
    assert RescuedMonthDay(env.scanDate("Sep 21")) == (9, 21);
    assert DeriveTimestamp(env, Some("Sep 21"), None) == Some(Rescue(env.now, 9, 21));
    SeptemberPassed(env.now);
  }

  /** The same text on the same day with the parser succeeding: its date is
      kept even though it lies in the past, and nothing rolls over. */
  lemma SeptemberParsedStays(env: Env)
    requires env.now == Moment(DayNumber(2024, 12, 1) * DAY_MS + 12 * 3600 * 1000, 2024)
    requires env.parseDate("Sep 21") == Some(Moment(DayNumber(2024, 9, 21) * DAY_MS, 2024))
    ensures DeriveTimestamp(env, Some("Sep 21"), None) == Some(DayNumber(2024, 9, 21) * DAY_MS)
  {
    assert ParseInput(Some("Sep 21"), None) == "Sep 21";
    ParserWins(env, Some("Sep 21"), None);
  }

  lemma SeptemberPassed(now: Moment)
    requires now == Moment(DayNumber(2024, 12, 1) * DAY_MS + 12 * 3600 * 1000, 2024)
    ensures Rescue(now, 9, 21) == DayNumber(2025, 9, 21) * DAY_MS
  {
    YearStarts();
    LeapCumulative(2024);
    CommonCumulative(2025);
    assert Normalize(2024, 9, 21) == (2024, 9, 21);
    assert LocalMidnight(2024, 9, 21) == 19987 * DAY_MS;
  }
}
