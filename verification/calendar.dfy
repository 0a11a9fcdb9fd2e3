/** Naive local wall-clock time at hourly resolution, and the calendar fields
    the pipeline derives from it (hour, month, day of week with Monday = 0). */
module Calendar {

  /** A proleptic Gregorian date and an hour of that day. */
  datatype DateHour = DateHour(year: int, month: int, day: int, hour: int)

  predicate IsLeapYear(y: int)
  {
    y % 4 == 0 && (y % 100 != 0 || y % 400 == 0)
  }

  function DaysInMonth(y: int, m: int): (n: int)
    requires 1 <= m <= 12
    ensures 28 <= n <= 31
    ensures n == 29 <==> m == 2 && IsLeapYear(y)
  {
    if m == 2 then (if IsLeapYear(y) then 29 else 28)
    else if m == 4 || m == 6 || m == 9 || m == 11 then 30
    else 31
  }

  predicate ValidDateHour(t: DateHour)
  {
    && 1 <= t.month <= 12
    && 1 <= t.day <= DaysInMonth(t.year, t.month)
    && 0 <= t.hour <= 23
  }

  /** A parsed timestamp always names an existing date and hour. */
  type Timestamp = t: DateHour | ValidDateHour(t) witness DateHour(1970, 1, 1, 0)

  /** Days from 1970-01-01 to the given date (negative before it). Years are
      counted from March, so that the leap day ends the counted year. */
  function DaysSinceEpoch(y: int, m: int, d: int): int
    requires 1 <= m <= 12
  {
    var y' := if m <= 2 then y - 1 else y;
    var mp := if m > 2 then m - 3 else m + 9;
    MarchYearStart(y') + DaysBeforeMonth(mp) + d - 1 - 719468
  }

  /** Days from 0000-03-01 to March 1st of year `y'`. Division by a positive
      constant is floor division here. */
  function MarchYearStart(y': int): int
  {
    var era := y' / 400;
    var yoe := y' - era * 400;
    era * 146097 + yoe * 365 + yoe / 4 - yoe / 100
  }

  /** Days from March 1st to the first day of the month `mp` months later. */
  function DaysBeforeMonth(mp: int): int
  {
    (153 * mp + 2) / 5
  }

  /** Length of the month `mp` months after March (never February). */
  function MarchMonthLength(mp: int): int
  {
    if mp == 1 || mp == 3 || mp == 6 || mp == 8 then 30 else 31
  }

  /** The calendar successor of a valid date. */
  function NextDay(t: Timestamp): (n: Timestamp)
    ensures n.hour == t.hour
  {
    if t.day < DaysInMonth(t.year, t.month) then DateHour(t.year, t.month, t.day + 1, t.hour)
    else if t.month < 12 then DateHour(t.year, t.month + 1, 1, t.hour)
    else DateHour(t.year + 1, 1, 1, t.hour)
  }

  /** Monday = 0 ... Sunday = 6; 1970-01-01 was a Thursday. */
  function DayOfWeek(t: Timestamp): (w: int)
    ensures 0 <= w <= 6
  {
    (DaysSinceEpoch(t.year, t.month, t.day) + 3) % 7
  }

  /** The derived feature columns `dayofweek`, `hour` and `month`. */
  datatype CalendarFields = CalendarFields(dayofweek: int, hour: int, month: int)

  function CalendarOf(t: Timestamp): (c: CalendarFields)
    ensures 0 <= c.dayofweek <= 6 && c.dayofweek == DayOfWeek(t)
    ensures 0 <= c.hour <= 23 && c.hour == t.hour
    ensures 1 <= c.month <= 12 && c.month == t.month
  {
    CalendarFields(DayOfWeek(t), t.hour, t.month)
  }

  /** Chronological order of timestamps: year, month, day, hour. */
  predicate Before(a: Timestamp, b: Timestamp)
  {
    || a.year < b.year
    || (a.year == b.year && a.month < b.month)
    || (a.year == b.year && a.month == b.month && a.day < b.day)
    || (a.year == b.year && a.month == b.month && a.day == b.day && a.hour < b.hour)
  }

  lemma BeforeIsStrictTotalOrder(a: Timestamp, b: Timestamp, c: Timestamp)
    ensures !Before(a, a)
    ensures Before(a, b) || a == b || Before(b, a)
    ensures Before(a, b) && Before(b, c) ==> Before(a, c)
  {
  }

  lemma MonthStep(mp: int)
    requires 0 <= mp <= 10
    ensures DaysBeforeMonth(mp + 1) == DaysBeforeMonth(mp) + MarchMonthLength(mp)
  {
  }

  lemma Mod4Shift(k: int, n: int)
    ensures (4 * k + n) % 4 == n % 4
  {
    var q := n / 4;
    assert 4 * k + n == 4 * (k + q) + n % 4;
  }

  lemma Mod100Shift(k: int, n: int)
    ensures (100 * k + n) % 100 == n % 100
  {
    var q := n / 100;
    assert 100 * k + n == 100 * (k + q) + n % 100;
  }

  /** Within a 400-year era, year `n` adds one extra day exactly when it is a leap year. */
  lemma {:induction false} LeapStep(era: int, n: int)
    requires 1 <= n <= 399
    ensures (n / 4 - n / 100) - ((n - 1) / 4 - (n - 1) / 100) == (if IsLeapYear(400 * era + n) then 1 else 0)
  {
    Mod4Shift(100 * era, n);
    Mod100Shift(4 * era, n);
    Mod400Shift(era, n);
    DivStep4(n);
    DivStep100(n);
    if n % 100 == 0 {
      Mod4Shift(25 * (n / 100), 0);
      assert n == 4 * (25 * (n / 100)) + 0;
    }
  }

  lemma Mod400Shift(k: int, n: int)
    requires 1 <= n <= 399
    ensures (400 * k + n) % 400 == n
  {
  }

  lemma DivStep4(n: int)
    ensures n / 4 - (n - 1) / 4 == (if n % 4 == 0 then 1 else 0)
  {
  }

  lemma DivStep100(n: int)
    ensures n / 100 - (n - 1) / 100 == (if n % 100 == 0 then 1 else 0)
  {
  }

  /** A March-based year has 366 days exactly when the following calendar
      year, which holds its February, is a leap year. */
  lemma {:induction false} YearStep(y': int)
    ensures MarchYearStart(y' + 1) == MarchYearStart(y') + 365 + (if IsLeapYear(y' + 1) then 1 else 0)
  {
    var era := y' / 400;
    var yoe := y' - era * 400;
    assert 0 <= yoe < 400;
    if yoe < 399 {
      assert (y' + 1) / 400 == era;
      LeapStep(era, yoe + 1);
    } else {
      assert y' + 1 == 400 * (era + 1);
      assert (y' + 1) / 400 == era + 1;
      assert (y' + 1) % 400 == 0;
    }
  }

  /** The successor day is exactly one more day from the epoch. */
  lemma {:induction false} NextDayCountsOne(t: Timestamp)
    ensures DaysSinceEpoch(NextDay(t).year, NextDay(t).month, NextDay(t).day)
         == DaysSinceEpoch(t.year, t.month, t.day) + 1
  {
    if t.day == DaysInMonth(t.year, t.month) {
      if t.month == 2 {
        YearStep(t.year - 1);
      } else if t.month == 12 {
        MonthStep(9);
      } else if t.month == 1 {
        MonthStep(10);
      } else {
        MonthStep(t.month - 3);
      }
    }
  }

  /** The weekday cycles Monday..Sunday from one day to the next. */
  lemma NextDayAdvancesWeekday(t: Timestamp)
    ensures DayOfWeek(NextDay(t)) == (DayOfWeek(t) + 1) % 7
  {
    var d := DaysSinceEpoch(t.year, t.month, t.day);
    var n := NextDay(t);
    NextDayCountsOne(t);
    assert DaysSinceEpoch(n.year, n.month, n.day) == d + 1;
    WeekdayStep(d);
  }

  lemma WeekdayStep(d: int)
    ensures (d + 1 + 3) % 7 == ((d + 3) % 7 + 1) % 7
  {
  }

  /** Anchors: the epoch was a Thursday, 2024-01-01 a Monday. */
  lemma WeekdayAnchors(h: int)
    requires 0 <= h <= 23
    ensures DayOfWeek(DateHour(1970, 1, 1, h)) == 3
    ensures DayOfWeek(DateHour(2024, 1, 1, h)) == 0
  {
    assert DaysSinceEpoch(1970, 1, 1) == 0;
    assert DaysSinceEpoch(2024, 1, 1) == 19723;
  }
}
