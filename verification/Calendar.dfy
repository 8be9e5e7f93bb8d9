/** The Gregorian calendar loop of servak_na_linux/server/my_time.cpp, and the month numbers the
    runtime ledger compares days by. */
module Calendar {

  datatype Date = Date(year: int, month: int, day: int)

  // ---------------------------------------------------------------------------------------------
  // The Gregorian calendar in closed form
  // ---------------------------------------------------------------------------------------------

  /** `my_time_cls::eee`. */
  predicate Leap(year: int) {
    if year % 400 == 0 then true
    else if year % 100 == 0 then false
    else year % 4 == 0
  }

  /** `my_time_cls::mmm`. */
  function MonthLength(year: int, month: int): int {
    if month in {1, 3, 5, 7, 8, 10, 12} then 31
    else if month in {4, 6, 9, 11} then 30
    else if month == 2 then if Leap(year) then 29 else 28
    else -1
  }

  predicate ValidDate(d: Date) {
    1 <= d.month <= 12 && 1 <= d.day <= MonthLength(d.year, d.month)
  }

  /** Leap years among 1 to `year`. */
  function LeapYears(year: int): int {
    year / 4 - year / 100 + year / 400
  }

  function DaysBeforeMonth(year: int, month: int): int
    requires 1 <= month <= 12
  {
    [0, 31, 59, 90, 120, 151, 181, 212, 243, 273, 304, 334][month - 1]
    + if month > 2 && Leap(year) then 1 else 0
  }

  /** Days from 1 January 1970. */
  function DayNumber(d: Date): int
    requires 1 <= d.month <= 12
  {
    365 * (d.year - 1970) + LeapYears(d.year - 1) - LeapYears(1969)
    + DaysBeforeMonth(d.year, d.month) + d.day - 1
  }

  predicate Before(a: Date, b: Date) {
    if a.year != b.year then a.year < b.year
    else if a.month != b.month then a.month < b.month
    else a.day < b.day
  }

  lemma YearLength(year: int)
    ensures LeapYears(year) - LeapYears(year - 1) == if Leap(year) then 1 else 0
  {
    Fourths(year);
    Hundredths(year);
    FourHundredths(year);
    Multiples(year);
  }

  lemma Fourths(year: int)
    ensures year / 4 - (year - 1) / 4 == if year % 4 == 0 then 1 else 0
  {
  }

  lemma Hundredths(year: int)
    ensures year / 100 - (year - 1) / 100 == if year % 100 == 0 then 1 else 0
  {
  }

  lemma FourHundredths(year: int)
    ensures year / 400 - (year - 1) / 400 == if year % 400 == 0 then 1 else 0
  {
  }

  lemma Multiples(year: int)
    ensures year % 100 == 0 ==> year % 4 == 0
    ensures year % 400 == 0 ==> year % 100 == 0
  {
    if year % 100 == 0 {
      assert year == 4 * (25 * (year / 100));
    }
    if year % 400 == 0 {
      assert year == 100 * (4 * (year / 400));
    }
  }

  lemma {:induction false} LeapYearsGrow(a: int, b: int)
    requires a <= b
    ensures 0 <= LeapYears(b) - LeapYears(a) <= b - a
    decreases b - a
  {
    if a < b {
      YearLength(b);
      LeapYearsGrow(a, b - 1);
    }
  }

  lemma WithinYear(d: Date)
    requires ValidDate(d)
    ensures 1 <= DaysBeforeMonth(d.year, d.month) + d.day <= 365 + if Leap(d.year) then 1 else 0
    ensures d.month < 12 ==>
      DaysBeforeMonth(d.year, d.month + 1) == DaysBeforeMonth(d.year, d.month) + MonthLength(d.year, d.month)
  {
  }

  /** Day numbers order valid dates exactly as the calendar does. */
  lemma DayNumberOrder(a: Date, b: Date)
    requires ValidDate(a) && ValidDate(b)
    ensures Before(a, b) <==> DayNumber(a) < DayNumber(b)
    ensures a == b <==> DayNumber(a) == DayNumber(b)
  {
    if Before(a, b) {
      DayNumberGrows(a, b);
    } else if Before(b, a) {
      DayNumberGrows(b, a);
    }
  }

  lemma DayNumberGrows(a: Date, b: Date)
    requires ValidDate(a) && ValidDate(b) && Before(a, b)
    ensures DayNumber(a) < DayNumber(b)
  {
    WithinYear(a);
    WithinYear(b);
    if a.year < b.year {
      YearLength(a.year);
      LeapYearsGrow(a.year, b.year - 1);
    } else if a.month < b.month {
      MonthsGrow(a.year, a.month, b.month);
    }
  }

  lemma {:induction false} MonthsGrow(year: int, m: int, n: int)
    requires 1 <= m < n <= 12
    ensures DaysBeforeMonth(year, n) >= DaysBeforeMonth(year, m) + MonthLength(year, m)
    decreases n - m
  {
    if m + 1 < n {
      MonthsGrow(year, m + 1, n);
    }
  }

  // ---------------------------------------------------------------------------------------------
  // One pass of the loop, and counting days with it
  // ---------------------------------------------------------------------------------------------

  /** One pass of the counting loop. */
  function Next(d: Date): Date {
    if d.day + 1 == MonthLength(d.year, d.month) + 1 then
      if d.month + 1 == 13 then Date(d.year + 1, 1, 1) else Date(d.year, d.month + 1, 1)
    else d.(day := d.day + 1)
  }

  lemma NextDay(d: Date)
    requires ValidDate(d)
    ensures ValidDate(Next(d))
    ensures DayNumber(Next(d)) == DayNumber(d) + 1
  {
    WithinYear(d);
    YearLength(d.year);
  }

  function DateOf(days: nat): Date {
    if days == 0 then Date(1970, 1, 1) else Next(DateOf(days - 1))
  }

  /** Counting days and numbering dates are inverse to each other. */
  lemma {:induction false} DateOfNumber(days: nat)
    ensures ValidDate(DateOf(days)) && DayNumber(DateOf(days)) == days
  {
    if days > 0 {
      DateOfNumber(days - 1);
      NextDay(DateOf(days - 1));
    }
  }

  lemma NumberOfDate(d: Date)
    requires ValidDate(d) && DayNumber(d) >= 0
    ensures DateOf(DayNumber(d)) == d
  {
    DateOfNumber(DayNumber(d));
    DayNumberOrder(d, DateOf(DayNumber(d)));
  }

  lemma TimeOfDay(utc: nat)
    ensures utc / 60 / 60 / 24 == utc / 86400
    ensures utc == utc / 86400 * 86400 + utc / 60 / 60 % 24 * 3600 + utc / 60 % 60 * 60 + utc % 60
  {
  }

  /** `my_time_cls`: the fields the loop of `update` counts up. */
  class CalendarClock {
    var s: int
    var mi: int
    var h: int
    var d: int
    var dw: int
    var mo: int
    var e: int

    function Today(): Date
      reads this
    {
      Date(e, mo, d)
    }

    constructor ()
    {
      s, mi, h, d, dw, mo, e := 0, 0, 0, 1, 4, 1, 1970;
    }

    /** The body of the counting loop. */
    method NextDay(ghost n: nat)
      requires Today() == DateOf(n) && dw == (n + 3) % 7 + 1
      modifies this`dw, this`d, this`mo, this`e
      ensures Today() == DateOf(n + 1) && dw == (n + 4) % 7 + 1
    {
      d := d + 1;
      dw := dw + 1;
      if dw == 8 {
        dw := 1;
      }
      if d == MonthLength(e, mo) + 1 {
        d := 1;
        mo := mo + 1;
        if mo == 13 {
          e := e + 1;
          mo := 1;
        }
      }
    }

    /** `my_time_cls::update` at a given UTC second, for a whole-hour time zone; the sum is kept in
        an unsigned 32-bit integer. */
    method Update(time: nat, zone: int)
      modifies this
      ensures var utc := (time + zone * 3600) % 0x1_0000_0000;
              && ValidDate(Today()) && DayNumber(Today()) == utc / 86400
              && dw == (utc / 86400 + 3) % 7 + 1
              && 0 <= s < 60 && 0 <= mi < 60 && 0 <= h < 24
              && utc == utc / 86400 * 86400 + h * 3600 + mi * 60 + s
    {
      var utc: int := (time + zone * 3600) % 0x1_0000_0000;
      TimeOfDay(utc);
      s := utc % 60;
      utc := utc / 60;
      mi := utc % 60;
      utc := utc / 60;
      h := utc % 24;
      utc := utc / 24;
      ghost var days, second, minute, hour := utc, s, mi, h;
      dw, d, mo, e := 4, 1, 1, 1970;
      while utc != 0
        invariant 0 <= utc <= days
        invariant Today() == DateOf(days - utc)
        invariant dw == (days - utc + 3) % 7 + 1
        invariant s == second && mi == minute && h == hour
      {
        NextDay(days - utc);
        utc := utc - 1;
      }
      DateOfNumber(days);
    }
  }

  // ---------------------------------------------------------------------------------------------
  // Month numbers (`my_time_get_month_epoch`)
  // ---------------------------------------------------------------------------------------------

  /** Months since January 1900, as `tm_year * 12 + tm_mon` gives them. */
  function MonthOf(days: nat): int {
    (DateOf(days).year - 1900) * 12 + DateOf(days).month - 1
  }

  lemma {:induction false} MonthOfGrows(a: nat, b: nat)
    requires a <= b
    ensures MonthOf(a) <= MonthOf(b)
    decreases b - a
  {
    if a < b {
      MonthOfGrows(a, b - 1);
      DateOfNumber(b - 1);
    }
  }
}
