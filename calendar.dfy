/** Calendar arithmetic behind the JavaScript `Date` values the statistics
    page reads: proleptic Gregorian dates as (year, month0, day) with a
    0-based month as `getMonth()` gives it, day numbers, the weekday of
    `getDay()`, and the week number of the "semaine" grain. Local time is
    taken without daylight-saving shifts. */
module Calendar {

  const MsPerDay: int := 86400000

  datatype Date = Date(year: int, month0: int, day: int)

  predicate IsLeapYear(y: int) {
    y % 4 == 0 && (y % 100 != 0 || y % 400 == 0)
  }

  function DaysInYear(y: int): (n: int)
    ensures n == 365 || n == 366
  {
    if IsLeapYear(y) then 366 else 365
  }

  function DaysInMonth(y: int, m0: int): (n: int)
    requires 0 <= m0 < 12
    ensures 28 <= n <= 31
    ensures n == 29 <==> m0 == 1 && IsLeapYear(y)
  {
    if m0 == 1 then (if IsLeapYear(y) then 29 else 28)
    else if m0 == 3 || m0 == 5 || m0 == 8 || m0 == 10 then 30
    else 31
  }

  /** Days in the months of year `y` before month `m0`. */
  function DaysBeforeMonth(y: int, m0: int): (n: nat)
    requires 0 <= m0 <= 12
    ensures 28 * m0 <= n <= 31 * m0
    decreases m0
  {
    if m0 == 0 then 0 else DaysBeforeMonth(y, m0 - 1) + DaysInMonth(y, m0 - 1)
  }

  lemma MonthsMakeAYear(y: int)
    ensures DaysBeforeMonth(y, 12) == DaysInYear(y)
  {
    assert DaysBeforeMonth(y, 1) == 31;
    assert DaysBeforeMonth(y, 2) == 31 + DaysInMonth(y, 1);
  }

  lemma {:induction false} DaysBeforeMonthMonotone(y: int, m: int, n: int)
    requires 0 <= m < n <= 12
    ensures DaysBeforeMonth(y, m) + DaysInMonth(y, m) <= DaysBeforeMonth(y, n)
    decreases n - m
  {
    if m + 1 < n { DaysBeforeMonthMonotone(y, m + 1, n); }
  }

  lemma MonthFitsInYear(y: int, m0: int)
    requires 0 <= m0 < 12
    ensures DaysBeforeMonth(y, m0) + DaysInMonth(y, m0) <= DaysInYear(y)
  {
    if m0 < 11 { DaysBeforeMonthMonotone(y, m0, 12); }
    MonthsMakeAYear(y);
  }

  predicate ValidDate(d: Date) {
    0 <= d.month0 < 12 && 1 <= d.day <= DaysInMonth(d.year, d.month0)
  }

  /** Whole days between 1 January and `d` (0 on 1 January). */
  function DayOfYear(d: Date): (n: nat)
    requires ValidDate(d)
    ensures n < DaysInYear(d.year)
  {
    MonthFitsInYear(d.year, d.month0);
    DaysBeforeMonth(d.year, d.month0) + d.day - 1
  }

  /** Days from 1 January of year 1 to 1 January of year `y`. */
  function DaysBeforeYear(y: int): int {
    365 * (y - 1) + (y - 1) / 4 - (y - 1) / 100 + (y - 1) / 400
  }

  /** Consecutive years are as far apart as the earlier year is long. */
  lemma DaysBeforeNextYear(y: int)
    ensures DaysBeforeYear(y + 1) == DaysBeforeYear(y) + DaysInYear(y)
  {
    QuotientStep4(y);
    QuotientStep100(y);
    QuotientStep400(y);
  }

  lemma QuotientStep4(y: int)
    ensures y / 4 == (y - 1) / 4 + (if y % 4 == 0 then 1 else 0)
  {
  }

  lemma QuotientStep100(y: int)
    ensures y / 100 == (y - 1) / 100 + (if y % 100 == 0 then 1 else 0)
  {
  }

  lemma QuotientStep400(y: int)
    ensures y / 400 == (y - 1) / 400 + (if y % 400 == 0 then 1 else 0)
  {
  }

  /** Days from 1 January of year 1 to `d`. */
  function DayNumber(d: Date): int
    requires ValidDate(d)
  {
    DaysBeforeYear(d.year) + DayOfYear(d)
  }

  /** `getDay()` of the day with day number `n`: 0 is Sunday, 6 is Saturday
      (1 January of year 1 was a Monday). */
  function WeekdayOf(n: int): (w: int)
    ensures 0 <= w < 7
  {
    (n + 1) % 7
  }

  function Jan1Weekday(y: int): (w: int)
    ensures 0 <= w < 7
  {
    WeekdayOf(DaysBeforeYear(y))
  }

  /** A point in local time: a date and the milliseconds since its midnight. */
  datatype Timestamp = Timestamp(date: Date, msOfDay: int)

  predicate ValidTimestamp(t: Timestamp) {
    ValidDate(t.date) && 0 <= t.msOfDay < MsPerDay
  }

  /** A JavaScript `Date` always holds a normalised local date and time. */
  type JsDate = t: Timestamp | ValidTimestamp(t) witness Timestamp(Date(2025, 0, 1), 0)

  /** Milliseconds from midnight of 1 January of year 1; `d2 - d1` of two
      `Date` values is the difference of these. */
  function EpochMs(t: JsDate): int {
    DayNumber(t.date) * MsPerDay + t.msOfDay
  }

  /** `Math.ceil(a / b)` for a positive divisor. */
  function CeilDiv(a: int, b: int): (q: int)
    requires b > 0
    ensures (q - 1) * b < a <= q * b
  {
    (a + b - 1) / b
  }

  /** The "semaine" number of the statistics page:
      `Math.ceil(((d - onejan) / 86400000 + onejan.getDay() + 1) / 7)`,
      where `d - onejan` counts the time of day as a fraction of a day. */
  function WeekNumber(t: JsDate): (w: int)
    ensures 1 <= w <= 54
  {
    var elapsed := DayOfYear(t.date) * MsPerDay + t.msOfDay;
    var a := elapsed + (Jan1Weekday(t.date.year) + 1) * MsPerDay;
    WeekFormulaWithin(a);
    CeilDiv(a, 7 * MsPerDay)
  }

  /** A year plus a week spans at most 373 days, hence at most 54 weeks. */
  lemma WeekFormulaWithin(a: int)
    requires MsPerDay <= a < 373 * MsPerDay
    ensures 1 <= CeilDiv(a, 7 * MsPerDay) <= 54
  {
  }

  /** The same formula on whole days: weeks run from Sunday to Saturday and
      the week holding 1 January is week 1. */
  function WholeDayWeekNumber(d: Date): (w: int)
    requires ValidDate(d)
    ensures 1 <= w <= 54
  {
    CeilDiv(DayOfYear(d) + Jan1Weekday(d.year) + 1, 7)
  }

  lemma WeekdayOfDate(d: Date)
    requires ValidDate(d)
    ensures WeekdayOf(DayNumber(d)) == (DayOfYear(d) + Jan1Weekday(d.year)) % 7
  {
    var b := DaysBeforeYear(d.year) + 1;
    var k := DayOfYear(d);
    assert b == (b / 7) * 7 + b % 7;
    assert b + k == (b / 7) * 7 + (b % 7 + k);
    ModShift(b % 7 + k, b / 7);
  }

  lemma ModShift(x: int, q: int)
    ensures (q * 7 + x) % 7 == x % 7
  {
  }

  /** `Math.ceil` of the day-and-fraction formula, for `n` whole days and
      `ms` extra milliseconds. */
  lemma CeilDivScaled(n: int, ms: int)
    requires n >= 1 && 0 <= ms < MsPerDay
    ensures CeilDiv(n * MsPerDay + ms, 7 * MsPerDay)
         == CeilDiv(n, 7) + (if n % 7 == 0 && ms > 0 then 1 else 0)
  {
    var q := CeilDiv(n, 7);
    assert (q - 1) * 7 < n <= q * 7;
    var a := n * MsPerDay + ms;
    var c := CeilDiv(a, 7 * MsPerDay);
    assert (c - 1) * (7 * MsPerDay) < a <= c * (7 * MsPerDay);
    if n % 7 == 0 && ms > 0 {
      assert n == q * 7;
      assert c == q + 1;
    } else if ms == 0 {
      assert c == q;
    } else {
      assert n + 1 <= q * 7;
      assert c == q;
    }
  }

  /** The fraction of a day in the formula moves every Saturday after its
      first millisecond into the following week. */
  lemma WeekNumberOfTimestamp(t: JsDate)
    ensures WeekNumber(t) == WholeDayWeekNumber(t.date)
      + (if WeekdayOf(DayNumber(t.date)) == 6 && t.msOfDay > 0 then 1 else 0)
  {
    var n := DayOfYear(t.date) + Jan1Weekday(t.date.year) + 1;
    assert DayOfYear(t.date) * MsPerDay + t.msOfDay + (Jan1Weekday(t.date.year) + 1) * MsPerDay
        == n * MsPerDay + t.msOfDay;
    CeilDivScaled(n, t.msOfDay);
    WeekdayOfDate(t.date);
  }

  /** 1 January is in week 1 except after midnight when it is a Saturday. */
  lemma JanuaryFirstWeek(t: JsDate)
    requires t.date.month0 == 0 && t.date.day == 1
    ensures WeekNumber(t) == 1 <==> Jan1Weekday(t.date.year) != 6 || t.msOfDay == 0
    ensures WeekNumber(t) <= 2
  {
    WeekNumberOfTimestamp(t);
    WeekdayOfDate(t.date);
  }

  /** Corrected week numbering: 1 January is always in week 1, and the week
      number goes up by one exactly when a day is a Sunday. */
  lemma WholeDayWeeksStartOnSunday(d: Date, e: Date)
    requires ValidDate(d) && ValidDate(e) && d.year == e.year
    requires DayOfYear(e) == DayOfYear(d) + 1
    ensures WholeDayWeekNumber(e)
         == WholeDayWeekNumber(d) + (if WeekdayOf(DayNumber(e)) == 0 then 1 else 0)
  {
    WeekdayOfDate(e);
    var n := DayOfYear(d) + Jan1Weekday(d.year) + 1;
    var q := CeilDiv(n, 7);
    var r := CeilDiv(n + 1, 7);
    assert (q - 1) * 7 < n <= q * 7;
    assert (r - 1) * 7 < n + 1 <= r * 7;
  }

  lemma WholeDayJanuaryFirst(d: Date)
    requires ValidDate(d) && d.month0 == 0 && d.day == 1
    ensures WholeDayWeekNumber(d) == 1
  {
  }
}
