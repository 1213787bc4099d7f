/**
 The proleptic Gregorian calendar, as the cron engine walks it: a civil date, its successor,
 and the number of days since 0001-01-01. The main result is that 146097 days (400 years, and
 a whole number of weeks) repeat the month, the day of the month and the weekday of every date.
 */
module Calendar {

  const CYCLE_DAYS := 146097

  datatype Date = Date(year: int, month: int, day: int)

  // The leap year rule of Appendix C of RFC 3339.
  predicate IsLeap(year: int) {
    year % 4 == 0 && (year % 100 != 0 || year % 400 == 0)
  }

  function DaysIn(year: int, month: int): int {
    if month == 2 then (if IsLeap(year) then 29 else 28)
    else if month == 4 || month == 6 || month == 9 || month == 11 then 30
    else 31
  }

  predicate ValidDate(d: Date) {
    1 <= d.month <= 12 && 1 <= d.day <= DaysIn(d.year, d.month)
  }

  // One step of AddDate(0, 0, 1).
  function NextDay(d: Date): (next: Date)
    requires ValidDate(d)
    ensures ValidDate(next)
  {
    if d.day < DaysIn(d.year, d.month) then Date(d.year, d.month, d.day + 1)
    else if d.month < 12 then Date(d.year, d.month + 1, 1)
    else Date(d.year + 1, 1, 1)
  }

  function DaysBeforeYear(year: int): int {
    365 * (year - 1) + (year - 1) / 4 - (year - 1) / 100 + (year - 1) / 400
  }

  function DaysBeforeMonth(year: int, month: int): int
    decreases month
  {
    if month <= 1 then 0 else DaysBeforeMonth(year, month - 1) + DaysIn(year, month - 1)
  }

  // Days from 0001-01-01 to the date, which may be negative.
  function DayNumber(d: Date): int {
    DaysBeforeYear(d.year) + DaysBeforeMonth(d.year, d.month) + d.day - 1
  }

  // Sunday is 0; 0001-01-01 was a Monday.
  function Weekday(dayNumber: int): int {
    (dayNumber + 1) % 7
  }

  lemma YearLength(year: int)
    ensures DaysBeforeYear(year + 1) == DaysBeforeYear(year) + (if IsLeap(year) then 366 else 365)
  {
    var y := year - 1;
    assert (y + 1) / 4 == y / 4 + (if year % 4 == 0 then 1 else 0);
    assert (y + 1) / 100 == y / 100 + (if year % 100 == 0 then 1 else 0);
    assert (y + 1) / 400 == y / 400 + (if year % 400 == 0 then 1 else 0);
  }

  lemma TwelveMonths(year: int)
    ensures DaysBeforeMonth(year, 12) + 31 == (if IsLeap(year) then 366 else 365)
  {
    assert DaysBeforeMonth(year, 3) == DaysBeforeMonth(year, 2) + DaysIn(year, 2);
    assert DaysBeforeMonth(year, 5) == DaysBeforeMonth(year, 4) + DaysIn(year, 4);
    assert DaysBeforeMonth(year, 7) == DaysBeforeMonth(year, 6) + DaysIn(year, 6);
    assert DaysBeforeMonth(year, 9) == DaysBeforeMonth(year, 8) + DaysIn(year, 8);
    assert DaysBeforeMonth(year, 11) == DaysBeforeMonth(year, 10) + DaysIn(year, 10);
  }

  // Stepping to the next date is adding one day.
  lemma NextDayIsPlusOne(d: Date)
    requires ValidDate(d)
    ensures DayNumber(NextDay(d)) == DayNumber(d) + 1
  {
    if d.day == DaysIn(d.year, d.month) && d.month == 12 {
      YearLength(d.year);
      TwelveMonths(d.year);
    }
  }

  predicate Before(a: Date, b: Date) {
    a.year < b.year || (a.year == b.year && (a.month < b.month || (a.month == b.month && a.day < b.day)))
  }

  lemma {:induction false} LaterMonth(year: int, m: int, n: int)
    requires 1 <= m < n
    ensures DaysBeforeMonth(year, m) + DaysIn(year, m) <= DaysBeforeMonth(year, n)
    decreases n
  {
    if m < n - 1 { LaterMonth(year, m, n - 1); }
  }

  lemma {:induction false} LaterYear(x: int, y: int)
    requires x < y
    ensures DaysBeforeYear(x) + 365 <= DaysBeforeYear(x + 1) <= DaysBeforeYear(y)
    decreases y - x
  {
    YearLength(x);
    if x + 1 < y {
      LaterYear(x + 1, y);
    }
  }

  lemma WithinYear(d: Date)
    requires ValidDate(d)
    ensures DaysBeforeYear(d.year) <= DayNumber(d) < DaysBeforeYear(d.year + 1)
  {
    YearLength(d.year);
    TwelveMonths(d.year);
    if d.month < 12 { LaterMonth(d.year, d.month, 12); }
    if 1 < d.month { LaterMonth(d.year, 1, d.month); }
  }

  // The day number orders dates as the calendar does.
  lemma DayNumberIncreases(a: Date, b: Date)
    requires ValidDate(a) && ValidDate(b) && Before(a, b)
    ensures DayNumber(a) < DayNumber(b)
  {
    if a.year < b.year {
      WithinYear(a);
      WithinYear(b);
      LaterYear(a.year, b.year);
    } else if a.month < b.month {
      LaterMonth(a.year, a.month, b.month);
    }
  }

  lemma DayNumberIsInjective(a: Date, b: Date)
    requires ValidDate(a) && ValidDate(b) && DayNumber(a) == DayNumber(b)
    ensures a == b
  {
    if Before(a, b) {
      DayNumberIncreases(a, b);
    } else if Before(b, a) {
      DayNumberIncreases(b, a);
    }
  }

  lemma {:induction false} SameMonths(x: int, y: int, month: int)
    requires IsLeap(x) == IsLeap(y)
    ensures DaysBeforeMonth(x, month) == DaysBeforeMonth(y, month)
    decreases month
  {
    if 1 < month { SameMonths(x, y, month - 1); }
  }

  // 400 years are exactly CYCLE_DAYS days, wherever they start.
  lemma ShiftYears(d: Date, k: int)
    ensures IsLeap(d.year + 400 * k) == IsLeap(d.year)
    ensures DayNumber(Date(d.year + 400 * k, d.month, d.day)) == DayNumber(d) + CYCLE_DAYS * k
  {
    CarryMultiple(d.year - 1, k);
    CarryMultiple(d.year, k);
    SameMonths(d.year, d.year + 400 * k, d.month);
  }

  // Adding 400 * k moves the quotients of the leap year rule by whole numbers and its remainders not at all.
  lemma CarryMultiple(y: int, k: int)
    ensures (y + 400 * k) / 4 == y / 4 + 100 * k && (y + 400 * k) % 4 == y % 4
    ensures (y + 400 * k) / 100 == y / 100 + 4 * k && (y + 400 * k) % 100 == y % 100
    ensures (y + 400 * k) / 400 == y / 400 + k && (y + 400 * k) % 400 == y % 400
  {
    assert y + 400 * k == 4 * (y / 4 + 100 * k) + y % 4;
    assert y + 400 * k == 100 * (y / 100 + 4 * k) + y % 100;
    assert y + 400 * k == 400 * (y / 400 + k) + y % 400;
  }

  function ShiftDate(d: Date, k: int): (shifted: Date)
    requires ValidDate(d)
    ensures ValidDate(shifted) && DayNumber(shifted) == DayNumber(d) + CYCLE_DAYS * k
  {
    ShiftYears(d, k);
    Date(d.year + 400 * k, d.month, d.day)
  }

  function Successor(d: Date, n: int): (next: Date)
    requires ValidDate(d) && DayNumber(d) == n
    ensures ValidDate(next) && DayNumber(next) == n + 1
  {
    NextDayIsPlusOne(d);
    NextDay(d)
  }

  // The civil date of a day number.
  function Civil(n: int): (d: Date)
    ensures ValidDate(d) && DayNumber(d) == n
    decreases !(0 <= n < CYCLE_DAYS), n
  {
    if n == 0 then Date(1, 1, 1)
    else if 0 < n < CYCLE_DAYS then Successor(Civil(n - 1), n - 1)
    else ShiftDate(Civil(n % CYCLE_DAYS), n / CYCLE_DAYS)
  }

  // The whole cycle, any number of times: the year moves by 400, nothing else does.
  lemma CalendarRepeats(n: int, k: int)
    ensures Civil(n + CYCLE_DAYS * k) == ShiftDate(Civil(n), k)
    ensures Weekday(n + CYCLE_DAYS * k) == Weekday(n)
  {
    DayNumberIsInjective(Civil(n + CYCLE_DAYS * k), ShiftDate(Civil(n), k));
    WholeWeeks(n, 20871 * k);
  }

  lemma WholeWeeks(n: int, w: int)
    ensures Weekday(n + 7 * w) == Weekday(n)
  {
  }

  // The date the loop steps to is the date of the next day number.
  lemma NextDayIsNextCivil(n: int)
    ensures NextDay(Civil(n)) == Civil(n + 1)
  {
    NextDayIsPlusOne(Civil(n));
    DayNumberIsInjective(NextDay(Civil(n)), Civil(n + 1));
  }

  // Two days whose weekday is common knowledge: the first of 1970 was a Thursday, the leap day of 2000 a Tuesday.
  lemma KnownDays()
    ensures DayNumber(Date(1970, 1, 1)) == 719162 && Weekday(719162) == 4
    ensures ValidDate(Date(2000, 2, 29)) && DayNumber(Date(2000, 2, 29)) == 730178 && Weekday(730178) == 2
    ensures !ValidDate(Date(1900, 2, 29))
  {
    assert DaysBeforeMonth(2000, 2) == 31;
  }
}
