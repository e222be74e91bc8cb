/** Gregorian date-times (UTC) as far as budget periods need them. */
module Calendar {

  /** A UTC date-time: calendar date plus microseconds since midnight. */
  datatype DateTime = DateTime(year: nat, month: nat, day: nat, micros: nat) {
    predicate Valid() {
      && 1 <= month <= 12
      && 1 <= day <= DaysIn(year, month)
      && micros < MICROS_PER_DAY
    }
  }

  const MICROS_PER_DAY: nat := 24 * 60 * 60 * 1_000_000

  predicate IsLeap(year: nat) {
    year % 4 == 0 && (year % 100 != 0 || year % 400 == 0)
  }

  function DaysIn(year: nat, month: nat): nat {
    if month == 2 then if IsLeap(year) then 29 else 28
    else if month in {4, 6, 9, 11} then 30
    else 31
  }

  predicate Before(a: DateTime, b: DateTime) {
    || a.year < b.year
    || (a.year == b.year && (
          || a.month < b.month
          || (a.month == b.month && (
                || a.day < b.day
                || (a.day == b.day && a.micros < b.micros)))))
  }

  /** Midnight on the first day of the month after the one `t` lies in. */
  function FirstOfNextMonth(t: DateTime): DateTime {
    if t.month == 12 then DateTime(t.year + 1, 1, 1, 0) else DateTime(t.year, t.month + 1, 1, 0)
  }

  /** `t + timedelta(days=n)`: carries over month and year ends, keeps the time of day. */
  function AddDays(t: DateTime, n: nat): DateTime
    requires t.Valid()
    decreases n
  {
    if t.day + n <= DaysIn(t.year, t.month) then t.(day := t.day + n)
    else AddDays(FirstOfNextMonth(t).(micros := t.micros), n - (DaysIn(t.year, t.month) - t.day) - 1)
  }

  lemma {:induction false} AddDaysIsLater(t: DateTime, n: nat)
    requires t.Valid()
    ensures AddDays(t, n).Valid()
    ensures n > 0 ==> Before(t, AddDays(t, n))
    decreases n
  {
    if t.day + n <= DaysIn(t.year, t.month) {
    } else {
      var next := FirstOfNextMonth(t).(micros := t.micros);
      AddDaysIsLater(next, n - (DaysIn(t.year, t.month) - t.day) - 1);
      assert Before(t, next);
    }
  }

  /** 32 days after the first of a month always lies in the following month. */
  lemma ThirtyTwoDaysReachNextMonth(t: DateTime)
    requires t.Valid()
    ensures AddDays(t.(day := 1), 32).(day := 1, micros := 0) == FirstOfNextMonth(t)
  {
    var first := t.(day := 1);
    var next := FirstOfNextMonth(t).(micros := t.micros);
    var left := 32 - (DaysIn(t.year, t.month) - 1) - 1;
    assert AddDays(first, 32) == AddDays(next, left);
    assert next.day + left <= DaysIn(next.year, next.month);
  }

  // ---------------------------------------------------------------- day numbers

  function DaysBeforeYear(year: nat): nat {
    if year == 0 then 0 else DaysBeforeYear(year - 1) + if IsLeap(year - 1) then 366 else 365
  }

  function DaysBeforeMonth(year: nat, month: nat): nat {
    if month <= 1 then 0 else DaysBeforeMonth(year, month - 1) + DaysIn(year, month - 1)
  }

  /** Days since the first day of year 0, counting that day as 1. */
  function DayNumber(t: DateTime): nat {
    DaysBeforeYear(t.year) + DaysBeforeMonth(t.year, t.month) + t.day
  }

  /** The lengths of the months and of the year. */
  lemma MonthLengths(year: nat)
    ensures DaysIn(year, 1) == DaysIn(year, 3) == DaysIn(year, 5) == DaysIn(year, 7) == 31
    ensures DaysIn(year, 8) == DaysIn(year, 10) == DaysIn(year, 12) == 31
    ensures DaysIn(year, 4) == DaysIn(year, 6) == DaysIn(year, 9) == DaysIn(year, 11) == 30
    ensures DaysIn(year, 2) == if year % 400 == 0 || (year % 4 == 0 && year % 100 != 0) then 29 else 28
    ensures MICROS_PER_DAY == 86_400_000_000
    ensures DaysBeforeMonth(year, 13) == if DaysIn(year, 2) == 29 then 366 else 365
  {
    YearSum(year);
  }

  lemma YearSum(year: nat)
    ensures DaysBeforeMonth(year, 13) == 337 + DaysIn(year, 2)
  {
    MonthSum(year, 1);
    MonthSum(year, 2);
    MonthSum(year, 3);
    MonthSum(year, 4);
    MonthSum(year, 5);
    MonthSum(year, 6);
    MonthSum(year, 7);
    MonthSum(year, 8);
    MonthSum(year, 9);
    MonthSum(year, 10);
    MonthSum(year, 11);
    MonthSum(year, 12);
    assert DaysBeforeMonth(year, 1) == 0;
  }

  lemma MonthSum(year: nat, month: nat)
    requires month >= 1
    ensures DaysBeforeMonth(year, month + 1) == DaysBeforeMonth(year, month) + DaysIn(year, month)
  {
  }

  lemma NextMonthFollows(t: DateTime)
    requires t.Valid()
    ensures DayNumber(FirstOfNextMonth(t)) == DayNumber(t) - t.day + DaysIn(t.year, t.month) + 1
  {
    if t.month == 12 {
      MonthLengths(t.year);
      assert DaysBeforeMonth(t.year, 13) == DaysBeforeMonth(t.year, 12) + DaysIn(t.year, 12);
    }
  }

  /** Adding `n` days moves the date on by exactly `n` days and keeps the time of day. */
  lemma {:induction false} AddDaysCounts(t: DateTime, n: nat)
    requires t.Valid()
    ensures DayNumber(AddDays(t, n)) == DayNumber(t) + n && AddDays(t, n).micros == t.micros
    decreases n
  {
    if t.day + n <= DaysIn(t.year, t.month) {
    } else {
      var next := FirstOfNextMonth(t).(micros := t.micros);
      NextMonthFollows(t);
      AddDaysCounts(next, n - (DaysIn(t.year, t.month) - t.day) - 1);
    }
  }

  lemma {:induction false} YearsGrow(a: nat, b: nat)
    requires a <= b
    ensures DaysBeforeYear(a) <= DaysBeforeYear(b)
  {
    if a == b {
    } else {
      YearsGrow(a, b - 1);
    }
  }

  lemma {:induction false} MonthsGrow(year: nat, a: nat, b: nat)
    requires a <= b
    ensures DaysBeforeMonth(year, a) <= DaysBeforeMonth(year, b)
  {
    if a == b {
    } else {
      MonthsGrow(year, a, b - 1);
    }
  }

  lemma DayInYear(t: DateTime)
    requires t.Valid()
    ensures DaysBeforeYear(t.year) < DayNumber(t) <= DaysBeforeYear(t.year + 1)
  {
    MonthsGrow(t.year, t.month + 1, 13);
    MonthLengths(t.year);
  }

  lemma LaterDayIsLater(a: DateTime, b: DateTime)
    requires a.Valid() && b.Valid()
    requires a.year < b.year || (a.year == b.year && (a.month < b.month || (a.month == b.month && a.day < b.day)))
    ensures DayNumber(a) < DayNumber(b)
  {
    if a.year < b.year {
      DayInYear(a);
      DayInYear(b);
      YearsGrow(a.year + 1, b.year);
    } else if a.month < b.month {
      MonthsGrow(a.year, a.month + 1, b.month);
    }
  }

  /** One date-time lies before another exactly when its day does, or its time on the same day. */
  lemma BeforeIsChronological(a: DateTime, b: DateTime)
    requires a.Valid() && b.Valid()
    ensures Before(a, b) <==> DayNumber(a) < DayNumber(b) || (DayNumber(a) == DayNumber(b) && a.micros < b.micros)
  {
    if (a.year, a.month, a.day) != (b.year, b.month, b.day) {
      if || a.year < b.year
         || (a.year == b.year && (a.month < b.month || (a.month == b.month && a.day < b.day))) {
        LaterDayIsLater(a, b);
      } else {
        LaterDayIsLater(b, a);
      }
    }
  }
}
