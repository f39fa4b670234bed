/**
 * The calendar of section 21.4.1 of ECMA-262. Days are counted from 1 January
 * 1970, months through all years, twelve to a year.
 */
module Calendars {
  function DayFromYear(y: int): int { 365 * (y - 1970) + (y - 1969) / 4 - (y - 1901) / 100 + (y - 1601) / 400 }

  predicate Leap(y: int) { y % 4 == 0 && (y % 100 != 0 || y % 400 == 0) }

  /** Days of the year before month `month`, January being 0. */
  function DaysBefore(month: int, leap: bool): int
    requires 0 <= month < 12
  {
    var common := [0, 31, 59, 90, 120, 151, 181, 212, 243, 273, 304, 334][month];
    if leap && month >= 2 then common + 1 else common
  }

  /** The first day of a month; months are numbered through all years, twelve to a year. */
  function MonthStart(m: int): int { DayFromYear(m / 12) + DaysBefore(m % 12, Leap(m / 12)) }

  lemma YearLength(y: int)
    ensures DayFromYear(y + 1) - DayFromYear(y) == if Leap(y) then 366 else 365
  {
    EveryFour(y);
    EveryHundred(y);
    EveryFourHundred(y);
  }

  lemma EveryFour(y: int)
    ensures (y - 1968) / 4 - (y - 1969) / 4 == if y % 4 == 0 then 1 else 0
  {
  }

  lemma EveryHundred(y: int)
    ensures (y - 1900) / 100 - (y - 1901) / 100 == if y % 100 == 0 then 1 else 0
  {
  }

  lemma EveryFourHundred(y: int)
    ensures (y - 1600) / 400 - (y - 1601) / 400 == if y % 400 == 0 then 1 else 0
    ensures y % 400 == 0 ==> y % 100 == 0
    ensures y % 100 == 0 ==> y % 4 == 0
  {
  }

  function DaysIn(month: int, leap: bool): int
    requires 0 <= month < 12
  {
    if month == 11 then 31 else DaysBefore(month + 1, leap) - DaysBefore(month, leap)
  }

  lemma MonthLengthIs(m: int)
    ensures MonthStart(m + 1) - MonthStart(m) == DaysIn(m % 12, Leap(m / 12))
  {
    YearLength(m / 12);
    if m % 12 == 11 { assert (m + 1) / 12 == m / 12 + 1 && (m + 1) % 12 == 0; }
    else { assert (m + 1) / 12 == m / 12 && (m + 1) % 12 == m % 12 + 1; }
  }

  lemma MonthLength(m: int)
    ensures 28 <= MonthStart(m + 1) - MonthStart(m) <= 31
  {
    MonthLengthIs(m);
  }

  /** The months of 1900 years, which Date.UTC adds to a year from 0 to 99. */
  const SHIFT := 1900 * 12

  const YEAR_100 := 100 * 12

  const YEAR_10000 := 10000 * 12

  /**
   * All that bucketing needs of the calendar: where each month starts. Months
   * have 28 to 31 days; those of the years 0 to 99 are as long as 1900 years
   * later, but for February of the leap year 0; year 1900 starts on a Monday
   * and year 100 does not.
   */
  type Calendar = start: int -> int | Regular(start) witness (m: int) => 30 * m + if m < 2 then 1 else 2

  predicate RegularAt(start: int -> int, m: int) { 28 <= start(m + 1) - start(m) <= 31 }

  predicate RepeatsAt(start: int -> int, m: int) {
    start(m + SHIFT + 1) - start(m + SHIFT) == start(m + 1) - start(m) - if m == 1 then 1 else 0
  }

  /** Day 0 is a Thursday. */
  predicate IsMonday(d: int) { (d + 3) % 7 == 0 }

  ghost predicate Regular(start: int -> int) {
    && (forall m :: RegularAt(start, m))
    && (forall m | 0 <= m < YEAR_100 :: RepeatsAt(start, m))
    && IsMonday(start(SHIFT)) && !IsMonday(start(YEAR_100))
  }

  lemma LeapYearsRepeat(y: int)
    requires 0 <= y < 100
    ensures Leap(y + 1900) <==> Leap(y) && y != 0
  {
    assert (y + 1900) % 100 == y && (y + 1900) % 4 == y % 4;
    if y == 0 { assert !Leap(1900); }
  }

  /** Only a February differs, and only in year 0. */
  lemma LengthsRepeat(month: int, y: int)
    requires 0 <= month < 12 && 0 <= y < 100
    ensures DaysIn(month, Leap(y + 1900)) == DaysIn(month, Leap(y)) - if y == 0 && month == 1 then 1 else 0
  {
    LeapYearsRepeat(y);
    if y == 0 { assert Leap(0); }
  }

  lemma NineteenHundredYearsLater(m: int)
    ensures (m + SHIFT) / 12 == m / 12 + 1900 && (m + SHIFT) % 12 == m % 12
  {
  }

  lemma MonthsRepeat(m: int)
    requires 0 <= m < YEAR_100
    ensures RepeatsAt(MonthStart, m)
  {
    LengthsRepeat(m % 12, m / 12);
    NineteenHundredYearsLater(m);
    MonthLengthIs(m);
    MonthLengthIs(m + SHIFT);
  }

  lemma Januaries(y: int)
    ensures MonthStart(12 * y) == DayFromYear(y)
  {
    assert 12 * y / 12 == y && 12 * y % 12 == 0;
  }

  lemma JanuaryWeekdays()
    ensures IsMonday(MonthStart(SHIFT)) && !IsMonday(MonthStart(YEAR_100))
  {
    Januaries(1900);
    Januaries(100);
    assert DayFromYear(1900) == -25567 && DayFromYear(100) == -683003;
  }

  lemma MonthLengths()
    ensures forall m :: RegularAt(MonthStart, m)
    ensures forall m | 0 <= m < YEAR_100 :: RepeatsAt(MonthStart, m)
  {
    forall m ensures RegularAt(MonthStart, m) { MonthLength(m); }
    forall m | 0 <= m < YEAR_100 ensures RepeatsAt(MonthStart, m) { MonthsRepeat(m); }
  }

  lemma GregorianIsRegular()
    ensures Regular(MonthStart)
  {
    MonthLengths();
    JanuaryWeekdays();
  }

  function Gregorian(): Calendar {
    GregorianIsRegular();
    MonthStart
  }

  lemma {:induction false} MonthsAscend(cal: Calendar, a: int, b: int)
    requires a <= b
    ensures cal(a) + 28 * (b - a) <= cal(b)
    decreases b - a
  {
    if a < b {
      assert RegularAt(cal, a);
      MonthsAscend(cal, a + 1, b);
    }
  }

  function MonthUp(cal: Calendar, d: int, m: int): (r: int)
    requires cal(m) <= d
    ensures cal(r) <= d < cal(r + 1)
    decreases d - cal(m)
  {
    assert RegularAt(cal, m);
    if cal(m + 1) <= d then MonthUp(cal, d, m + 1) else m
  }

  function MonthDown(cal: Calendar, d: int, m: int): (r: int)
    ensures cal(r) <= d
    decreases cal(m) - d
  {
    assert RegularAt(cal, m - 1);
    if cal(m) <= d then m else MonthDown(cal, d, m - 1)
  }

  /** The month a day is in. */
  function MonthOf(cal: Calendar, d: int): (m: int)
    ensures cal(m) <= d < cal(m + 1)
  {
    MonthUp(cal, d, MonthDown(cal, d, 1970 * 12))
  }

  lemma MonthIsUnique(cal: Calendar, d: int, m: int)
    requires cal(m) <= d < cal(m + 1)
    ensures MonthOf(cal, d) == m
  {
    var n := MonthOf(cal, d);
    if n < m { MonthsAscend(cal, n + 1, m); }
    if m < n { MonthsAscend(cal, m + 1, n); }
  }

  lemma MonthOfStart(cal: Calendar, m: int)
    ensures MonthOf(cal, cal(m)) == m
  {
    assert RegularAt(cal, m);
    MonthIsUnique(cal, cal(m), m);
  }

  lemma MonthsFollowDays(cal: Calendar, c: int, d: int)
    requires c <= d
    ensures MonthOf(cal, c) <= MonthOf(cal, d)
  {
    var m, n := MonthOf(cal, c), MonthOf(cal, d);
    if n < m { MonthsAscend(cal, n + 1, m); }
  }
}
