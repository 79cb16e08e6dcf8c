/** Calendar dates and the recurrence interval (backend/src/recurrence/recurrence.service.ts, addInterval).

    A date is the year, month and day of an ISO 8601 string; for four-digit years the string order
    used by the source is the lexicographic order of the three numbers. */
module CalendarDates {

  datatype Date = Date(year: nat, month: nat, day: nat)

  datatype Unit = Weeks | Months

  datatype Interval = Interval(count: nat, unit: Unit)

  predicate IsLeapYear(year: nat) {
    year % 4 == 0 && (year % 100 != 0 || year % 400 == 0)
  }

  function DaysInMonth(year: nat, month: nat): (days: nat)
    ensures 28 <= days <= 31
  {
    if month == 2 then (if IsLeapYear(year) then 29 else 28)
    else if month in {4, 6, 9, 11} then 30 else 31
  }

  predicate IsDate(date: Date) {
    1 <= date.month <= 12 && 1 <= date.day <= DaysInMonth(date.year, date.month)
  }

  predicate Before(left: Date, right: Date) {
    || left.year < right.year
    || (left.year == right.year
        && (left.month < right.month || (left.month == right.month && left.day < right.day)))
  }

  // ---------- counting days ----------

  /** Days from the start of year 0 to the start of the given year. */
  function DaysBeforeYear(year: nat): nat {
    if year == 0 then 0 else DaysBeforeYear(year - 1) + (if IsLeapYear(year - 1) then 366 else 365)
  }

  function DaysBeforeMonth(year: nat, month: nat): nat
    requires 1 <= month <= 13
  {
    if month == 1 then 0 else DaysBeforeMonth(year, month - 1) + DaysInMonth(year, month - 1)
  }

  /** Position of a date on the calendar: the number of days since the start of year 0. */
  function DayNumber(date: Date): nat
    requires IsDate(date)
  {
    DaysBeforeYear(date.year) + DaysBeforeMonth(date.year, date.month) + date.day
  }

  lemma YearLength(year: nat)
    ensures DaysBeforeMonth(year, 13) == if IsLeapYear(year) then 366 else 365
  {
    var february := DaysInMonth(year, 2);
    assert DaysBeforeMonth(year, 3) == DaysBeforeMonth(year, 2) + february && DaysBeforeMonth(year, 2) == 31;
    assert DaysBeforeMonth(year, 5) == DaysBeforeMonth(year, 4) + 30 && DaysBeforeMonth(year, 4) == 62 + february;
    assert DaysBeforeMonth(year, 7) == DaysBeforeMonth(year, 6) + 30 && DaysBeforeMonth(year, 6) == 123 + february;
    assert DaysBeforeMonth(year, 9) == DaysBeforeMonth(year, 8) + 31 && DaysBeforeMonth(year, 8) == 184 + february;
    assert DaysBeforeMonth(year, 11) == DaysBeforeMonth(year, 10) + 31 && DaysBeforeMonth(year, 10) == 245 + february;
    assert DaysBeforeMonth(year, 13) == DaysBeforeMonth(year, 12) + 31 && DaysBeforeMonth(year, 12) == 306 + february;
  }

  lemma {:induction false} MonthsAreOrdered(year: nat, low: nat, high: nat)
    requires 1 <= low < high <= 13
    ensures DaysBeforeMonth(year, low) + DaysInMonth(year, low) <= DaysBeforeMonth(year, high)
  {
    if low + 1 < high {
      MonthsAreOrdered(year, low, high - 1);
    }
  }

  lemma {:induction false} YearsAreOrdered(low: nat, high: nat)
    requires low < high
    ensures DaysBeforeYear(low) + (if IsLeapYear(low) then 366 else 365) <= DaysBeforeYear(high)
  {
    if low + 1 < high {
      YearsAreOrdered(low, high - 1);
    }
  }

  /** A date lies within its year. */
  lemma DateWithinYear(date: Date)
    requires IsDate(date)
    ensures DaysBeforeYear(date.year) < DayNumber(date)
    ensures DayNumber(date) <= DaysBeforeYear(date.year) + (if IsLeapYear(date.year) then 366 else 365)
  {
    YearLength(date.year);
    MonthsAreOrdered(date.year, date.month, 13);
  }

  lemma LaterIsLargerNumber(left: Date, right: Date)
    requires IsDate(left) && IsDate(right) && Before(left, right)
    ensures DayNumber(left) < DayNumber(right)
  {
    if left.year < right.year {
      DateWithinYear(left);
      DateWithinYear(right);
      YearsAreOrdered(left.year, right.year);
    } else if left.month < right.month {
      MonthsAreOrdered(left.year, left.month, right.month);
    }
  }

  /** Calendar order is the order of day numbers, and a day number identifies one date. */
  lemma OrderIsDayNumberOrder(left: Date, right: Date)
    requires IsDate(left) && IsDate(right)
    ensures Before(left, right) <==> DayNumber(left) < DayNumber(right)
    ensures left == right <==> DayNumber(left) == DayNumber(right)
  {
    if Before(left, right) {
      LaterIsLargerNumber(left, right);
    } else if Before(right, left) {
      LaterIsLargerNumber(right, left);
    }
  }

  // ---------- adding an interval ----------

  function NextDay(date: Date): (next: Date)
    requires IsDate(date)
    ensures IsDate(next)
  {
    if date.day < DaysInMonth(date.year, date.month) then date.(day := date.day + 1)
    else if date.month < 12 then Date(date.year, date.month + 1, 1)
    else Date(date.year + 1, 1, 1)
  }

  function AddDays(date: Date, days: nat): (result: Date)
    requires IsDate(date)
    ensures IsDate(result)
  {
    if days == 0 then date else NextDay(AddDays(date, days - 1))
  }

  lemma NextDayIsNextNumber(date: Date)
    requires IsDate(date)
    ensures DayNumber(NextDay(date)) == DayNumber(date) + 1
  {
    if date.day == DaysInMonth(date.year, date.month) {
      if date.month < 12 {
        assert DaysBeforeMonth(date.year, date.month + 1) ==
               DaysBeforeMonth(date.year, date.month) + DaysInMonth(date.year, date.month);
      } else {
        YearLength(date.year);
        assert DaysBeforeMonth(date.year, 13) == DaysBeforeMonth(date.year, 12) + 31;
      }
    }
  }

  lemma {:induction false} AddDaysCountsDays(date: Date, days: nat)
    requires IsDate(date)
    ensures DayNumber(AddDays(date, days)) == DayNumber(date) + days
  {
    if days > 0 {
      AddDaysCountsDays(date, days - 1);
      NextDayIsNextNumber(AddDays(date, days - 1));
    }
  }

  function AddMonths(date: Date, months: nat): (result: Date)
    requires IsDate(date)
    ensures IsDate(result)
    ensures result.year * 12 + result.month == date.year * 12 + date.month + months
    ensures result.day == date.day || result.day == DaysInMonth(result.year, result.month) < date.day
  {
    var targetMonth := date.month - 1 + months;
    var targetYear := date.year + targetMonth / 12;
    var normalizedMonth := targetMonth % 12;
    var finalDay := DaysInMonth(targetYear, normalizedMonth + 1);
    Date(targetYear, normalizedMonth + 1, if date.day < finalDay then date.day else finalDay)
  }

  function AddInterval(date: Date, interval: Interval): (result: Date)
    requires IsDate(date)
    ensures IsDate(result)
  {
    match interval.unit
    case Weeks => AddDays(date, interval.count * 7)
    case Months => AddMonths(date, interval.count)
  }

  /** A positive interval moves every date forward. */
  lemma AddIntervalIsLater(date: Date, interval: Interval)
    requires IsDate(date) && interval.count > 0
    ensures Before(date, AddInterval(date, interval))
  {
    if interval.unit == Weeks {
      AddDaysCountsDays(date, interval.count * 7);
      OrderIsDayNumberOrder(date, AddInterval(date, interval));
    }
  }

  /** An interval never reverses two dates, the clamp to the end of a short month included. */
  lemma AddIntervalIsMonotone(left: Date, right: Date, interval: Interval)
    requires IsDate(left) && IsDate(right) && !Before(right, left)
    ensures !Before(AddInterval(right, interval), AddInterval(left, interval))
  {
    if interval.unit == Weeks {
      AddDaysCountsDays(left, interval.count * 7);
      AddDaysCountsDays(right, interval.count * 7);
      OrderIsDayNumberOrder(right, left);
      OrderIsDayNumberOrder(AddInterval(right, interval), AddInterval(left, interval));
    }
  }

  // ---------- what an interval and a calendar are ----------

  /** An interval of weeks is seven days each; one of months leads to the same day of a later month, or to its last day
      when it has no such day. */
  lemma AddIntervalExactly(date: Date, interval: Interval)
    requires IsDate(date)
    ensures interval.unit.Weeks? ==>
              DayNumber(AddInterval(date, interval)) == DayNumber(date) + 7 * interval.count
    ensures interval.unit.Months? ==>
              var later := AddInterval(date, interval);
              && 12 * later.year + later.month == 12 * date.year + date.month + interval.count
              && later.day == if date.day <= DaysInMonth(later.year, later.month) then date.day
                              else DaysInMonth(later.year, later.month)
  {
    AddDaysCountsDays(date, 7 * interval.count);
  }

  lemma Fourths(n: nat)
    ensures (n + 4) / 4 == (n + 3) / 4 + (if n % 4 == 0 then 1 else 0)
  {
  }

  lemma Hundredths(n: nat)
    ensures (n + 100) / 100 == (n + 99) / 100 + (if n % 100 == 0 then 1 else 0)
  {
  }

  lemma FourHundredths(n: nat)
    ensures (n + 400) / 400 == (n + 399) / 400 + (if n % 400 == 0 then 1 else 0)
  {
  }

  lemma Centuries(n: nat)
    ensures n % 100 == 0 ==> n % 4 == 0
    ensures n % 400 == 0 ==> n % 100 == 0
  {
    var century, cycle := n / 100, n / 400;
    assert n % 100 == 0 ==> n == 4 * (25 * century);
    assert n % 400 == 0 ==> n == 100 * (4 * cycle);
  }

  /** A year has 365 days, and one more every fourth year but for full centuries that no 400 divides. */
  lemma {:induction false} DaysBeforeYearExactly(year: nat)
    ensures DaysBeforeYear(year) == 365 * year + (year + 3) / 4 - (year + 99) / 100 + (year + 399) / 400
  {
    if year > 0 {
      DaysBeforeYearExactly(year - 1);
      Fourths(year - 1);
      Hundredths(year - 1);
      FourHundredths(year - 1);
      Centuries(year - 1);
    }
  }

  /** In ordinary years the months have 31, 28, 31, 30, 31, 30, 31, 31, 30, 31, 30 and 31 days, and February one more in
      the others. */
  lemma DaysBeforeMonthExactly(year: nat, month: nat)
    requires 1 <= month <= 13
    ensures DaysBeforeMonth(year, month) ==
            [0, 31, 59, 90, 120, 151, 181, 212, 243, 273, 304, 334, 365][month - 1]
            + (if month > 2 && year % 4 == 0 && (year % 100 != 0 || year % 400 == 0) then 1 else 0)
  {
    if month > 1 {
      DaysBeforeMonthExactly(year, month - 1);
    }
  }
}
