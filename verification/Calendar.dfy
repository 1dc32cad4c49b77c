/** Gregorian dates in the basic format YYYYMMDD (ISO 8601:2004, section 4.1.2.2), their day
    numbers, and counting days forward. */
module Calendar {
  import opened Text

  datatype Date = Date(year: nat, month: nat, day: nat)

  predicate Leap(year: nat) {
    year % 4 == 0 && (year % 100 != 0 || year % 400 == 0)
  }

  function DaysIn(year: nat, month: nat): nat {
    if month == 2 then (if Leap(year) then 29 else 28)
    else if month == 4 || month == 6 || month == 9 || month == 11 then 30
    else 31
  }

  predicate Valid(d: Date) {
    1 <= d.month <= 12 && 1 <= d.day <= DaysIn(d.year, d.month)
  }

  // Days before a year and before a month of it, counted from 0000-01-01
  function YearStart(year: nat): nat {
    365 * year + (year + 3) / 4 - (year + 99) / 100 + (year + 399) / 400
  }

  function MonthStart(year: nat, month: nat): nat
    decreases month
  {
    if month <= 1 then 0 else MonthStart(year, month - 1) + DaysIn(year, month - 1)
  }

  function DayNumber(d: Date): int {
    YearStart(d.year) + MonthStart(d.year, d.month) + d.day - 1
  }

  function NextDay(d: Date): Date {
    if d.day < DaysIn(d.year, d.month) then d.(day := d.day + 1)
    else if d.month < 12 then Date(d.year, d.month + 1, 1)
    else Date(d.year + 1, 1, 1)
  }

  // time.Time.AddDate(0, 0, n) on a date
  function AddDays(d: Date, n: nat): Date
    decreases n
  {
    if n == 0 then d else AddDays(NextDay(d), n - 1)
  }

  // time.Time.After on dates
  predicate After(a: Date, b: Date) {
    a.year > b.year || (a.year == b.year && (a.month > b.month || (a.month == b.month && a.day > b.day)))
  }

  lemma FourthYears(y: nat)
    ensures (y + 4) / 4 == (y + 3) / 4 + (if y % 4 == 0 then 1 else 0)
  {
  }

  lemma Centuries(y: nat)
    ensures (y + 100) / 100 == (y + 99) / 100 + (if y % 100 == 0 then 1 else 0)
  {
  }

  lemma FourthCenturies(y: nat)
    ensures (y + 400) / 400 == (y + 399) / 400 + (if y % 400 == 0 then 1 else 0)
  {
  }

  lemma Multiples(y: nat)
    ensures y % 400 == 0 ==> y % 100 == 0
    ensures y % 100 == 0 ==> y % 4 == 0
  {
    if y % 400 == 0 { assert y == 100 * (4 * (y / 400)); }
    if y % 100 == 0 { assert y == 4 * (25 * (y / 100)); }
  }

  lemma YearLength(year: nat)
    ensures YearStart(year + 1) == YearStart(year) + (if Leap(year) then 366 else 365)
  {
    FourthYears(year);
    Centuries(year);
    FourthCenturies(year);
    Multiples(year);
  }

  lemma TwelveMonths(year: nat)
    ensures MonthStart(year, 12) + 31 == (if Leap(year) then 366 else 365)
  {
    var _ := MonthStart(year, 2);
    assert MonthStart(year, 3) == 31 + DaysIn(year, 2);
    assert MonthStart(year, 5) == MonthStart(year, 3) + 31 + 30;
    assert MonthStart(year, 7) == MonthStart(year, 5) + 31 + 30;
    assert MonthStart(year, 9) == MonthStart(year, 7) + 31 + 31;
    assert MonthStart(year, 11) == MonthStart(year, 9) + 30 + 31;
    assert MonthStart(year, 12) == MonthStart(year, 11) + 30;
  }

  lemma MonthLength(year: nat, month: nat)
    requires 1 <= month
    ensures MonthStart(year, month + 1) == MonthStart(year, month) + DaysIn(year, month)
    ensures DaysIn(year, month) >= 28 && MonthStart(year, 1) == 0
  {
  }

  /** The day number counts days: every next day is one more. */
  lemma DayNumberCounts(d: Date)
    requires Valid(d)
    ensures Valid(NextDay(d)) && DayNumber(NextDay(d)) == DayNumber(d) + 1
  {
    if d.day == DaysIn(d.year, d.month) {
      if d.month < 12 {
        MonthLength(d.year, d.month);
        MonthLength(d.year, d.month + 1);
      } else {
        YearEnds(d.year);
      }
    }
    hide YearStart;
    hide MonthStart;
    hide DaysIn;
  }

  lemma YearEnds(year: nat)
    ensures YearStart(year + 1) == YearStart(year) + MonthStart(year, 12) + 31
    ensures DaysIn(year, 12) == 31 && DaysIn(year + 1, 1) == 31 && MonthStart(year + 1, 1) == 0
  {
    YearLength(year);
    TwelveMonths(year);
    hide YearStart;
    hide Leap;
  }

  // and the first day is number 0
  lemma FirstDay()
    ensures Valid(Date(0, 1, 1)) && DayNumber(Date(0, 1, 1)) == 0
  {
  }

  lemma {:induction false} AddDaysCounts(d: Date, n: nat)
    requires Valid(d)
    ensures Valid(AddDays(d, n)) && DayNumber(AddDays(d, n)) == DayNumber(d) + n
    decreases n
  {
    hide Valid;
    hide DayNumber;
    hide NextDay;
    if n == 0 {
    } else {
      DayNumberCounts(d);
      AddDaysCounts(NextDay(d), n - 1);
    }
  }

  lemma {:induction false} MonthsAdvance(year: nat, m: nat, n: nat)
    requires 1 <= m < n <= 12
    ensures MonthStart(year, m) + DaysIn(year, m) <= MonthStart(year, n)
    ensures MonthStart(year, n) + DaysIn(year, n) <= (if Leap(year) then 366 else 365)
    decreases n, 12 - m
  {
    if m < n - 1 { MonthsAdvance(year, m, n - 1); }
    WithinYear(year, n);
  }

  lemma {:induction false} WithinYear(year: nat, n: nat)
    requires 1 <= n <= 12
    ensures MonthStart(year, n) + DaysIn(year, n) <= (if Leap(year) then 366 else 365)
    decreases 12 - n
  {
    if n == 12 { TwelveMonths(year); } else { WithinYear(year, n + 1); }
  }

  lemma {:induction false} YearsAdvance(y: nat, z: nat)
    requires y < z
    ensures YearStart(y) + (if Leap(y) then 366 else 365) <= YearStart(z)
    decreases z
  {
    YearLength(y);
    if y < z - 1 {
      YearsAdvance(y, z - 1);
      YearLength(z - 1);
    }
  }

  /* ---- The Gregorian calendar ---- */

  /** The valid dates are those of the Gregorian calendar, month by month. */
  lemma ValidIsGregorian(d: Date)
    ensures Valid(d) <==>
            d.day >= 1 &&
            match d.month
            case 1 | 3 | 5 | 7 | 8 | 10 | 12 => d.day <= 31
            case 4 | 6 | 9 | 11 => d.day <= 30
            case 2 => d.day <= 28 || (d.day == 29 && d.year % 4 == 0 && (d.year % 100 == 0 ==> d.year % 400 == 0))
            case _ => false
  {
  }

  // Days before a month in a year of 365 days
  lemma MonthsOfCommonYear(year: nat, month: nat)
    requires 1 <= month <= 12
    ensures month <= 2 ==> MonthStart(year, month) == 31 * (month - 1)
    ensures month > 2 ==> MonthStart(year, month) == (if Leap(year) then 60 else 59) + (153 * (month - 3) + 2) / 5
    decreases month
  {
    if month > 1 { MonthsOfCommonYear(year, month - 1); }
    assert month in [1, 2, 3, 4, 5, 6, 7, 8, 9, 10, 11, 12];
    hide Leap;
  }

  lemma Periods(y: nat)
    ensures (y + 4) / 4 == y / 4 + 1
    ensures (y + 100) / 100 == y / 100 + 1
    ensures (y + 400) / 400 == y / 400 + 1
  {
  }

  lemma LeapDayCounts(year: nat)
    ensures (if year % 4 == 0 then 1 else 0) - (if year % 100 == 0 then 1 else 0) + (if year % 400 == 0 then 1 else 0)
         == (if Leap(year) then 1 else 0)
  {
    Multiples(year);
  }

  lemma LeapYears(year: nat)
    ensures YearStart(year) + (if Leap(year) then 1 else 0) == 365 * year + year / 4 - year / 100 + year / 400 + 1
  {
    hide Leap;
    LeapDayCounts(year);
    Periods(year);
    FourthYears(year);
    Centuries(year);
    FourthCenturies(year);
  }

  lemma YearBefore(year: nat)
    ensures YearStart(year) ==
            365 * (year - 1) + (year - 1) / 4 - (year - 1) / 100 + (year - 1) / 400 + 366
  {
    assert (year + 3) / 4 == (year - 1) / 4 + 1;
    assert (year + 99) / 100 == (year - 1) / 100 + 1;
    assert (year + 399) / 400 == (year - 1) / 400 + 1;
  }

  lemma MonthsFromMarch(month: nat)
    requires 1 <= month <= 12
    ensures (month + 9) % 12 == (if month > 2 then month - 3 else month + 9)
    ensures month <= 2 ==> (153 * (month + 9) + 2) / 5 == 31 * (month - 1) + 306
  {
    assert month in [1, 2, 3, 4, 5, 6, 7, 8, 9, 10, 11, 12];
  }

  /** The day number in closed form, for years that begin in March: no table of months, and the leap
      days at the end of the year. Day 0 is 1 January of year 0. */
  lemma DayNumberIsGregorian(d: Date)
    requires Valid(d)
    ensures var y, m := (if d.month > 2 then d.year else d.year - 1), (d.month + 9) % 12;
            DayNumber(d) == 365 * y + y / 4 - y / 100 + y / 400 + (153 * m + 2) / 5 + d.day + 59
  {
    hide YearStart;
    hide MonthStart;
    hide Leap;
    MonthsOfCommonYear(d.year, d.month);
    MonthsFromMarch(d.month);
    if d.month > 2 { LeapYears(d.year); } else { YearBefore(d.year); }
  }

  /** The later of two dates has the larger day number. */
  lemma AfterIsLargerDayNumber(a: Date, b: Date)
    requires Valid(a) && Valid(b)
    ensures After(a, b) <==> DayNumber(a) > DayNumber(b)
  {
    if After(a, b) { LaterCountsMore(a, b); }
    if After(b, a) { LaterCountsMore(b, a); }
  }

  lemma LaterCountsMore(a: Date, b: Date)
    requires Valid(a) && Valid(b) && After(a, b)
    ensures DayNumber(a) > DayNumber(b)
  {
    if a.year > b.year {
      YearsAdvance(b.year, a.year);
      WithinYear(b.year, b.month);
    } else if a.month > b.month {
      MonthsAdvance(a.year, b.month, a.month);
    }
  }

  /* ---- Build dates ---- */

  // time.Parse("20060102") of the eight-digit build number
  function DateOf(build: int): Option<Date> {
    if build <= 0 || build > 99_999_999 then None
    else
      var d := Date(build / 10_000, build / 100 % 100, build % 100);
      if Valid(d) then Some(d) else None
  }

  /** The eight digits of a valid date, read back, are that date; and only such numbers are dates. */
  lemma DateOfDigits(d: Date, build: int)
    requires d.year <= 9999
    ensures Valid(d) ==> DateOf(d.year * 10_000 + d.month * 100 + d.day) == Some(d)
    ensures DateOf(build) == Some(d) ==> Valid(d) && build == d.year * 10_000 + d.month * 100 + d.day
  {
    if Valid(d) {
      var n := d.year * 10_000 + d.month * 100 + d.day;
      assert d.day <= 31 && d.month <= 12;
      assert n / 100 == d.year * 100 + d.month && n % 100 == d.day;
      assert n / 100 % 100 == d.month;
      assert n / 10_000 == d.year;
    }
    if DateOf(build) == Some(d) { Digits(build); }
  }

  // The number's digits are the date's, and larger numbers are later dates
  lemma BuildOrderIsDateOrder(a: int, b: int)
    requires DateOf(a).Some? && DateOf(b).Some?
    ensures a == DateOf(a).value.year * 10_000 + DateOf(a).value.month * 100 + DateOf(a).value.day
    ensures After(DateOf(a).value, DateOf(b).value) <==> a > b
  {
    Digits(a);
    Digits(b);
  }

  lemma Digits(a: int)
    requires DateOf(a).Some?
    ensures a == DateOf(a).value.year * 10_000 + DateOf(a).value.month * 100 + DateOf(a).value.day
    ensures DateOf(a).value.month <= 12 && DateOf(a).value.day <= 31
  {
    assert a == 100 * (a / 100) + a % 100;
    assert a / 100 == 100 * (a / 100 / 100) + a / 100 % 100;
    assert a / 100 / 100 == a / 10_000;
  }
}
