/** UTC day numbers and the Gregorian calendar, as in section 21.4.1 of ECMA-262.  Day 0 is
    1970-01-01; months are counted from 0 and days of the month from 1. */
module Gregorian {
  import Numerals

  function DayFromYear(y: int): int {
    365 * (y - 1970) + (y - 1969) / 4 - (y - 1901) / 100 + (y - 1601) / 400
  }

  predicate Leap(y: int) {
    y % 4 == 0 && (y % 100 != 0 || y % 400 == 0)
  }

  lemma CountsMultiples(n: int, k: int)
    requires k == 4 || k == 100 || k == 400
    ensures n / k == (n - 1) / k + if n % k == 0 then 1 else 0
  {
  }

  /** How many of the years from a multiple of k to a year are multiples of k. */
  function Since(y: int, first: int, k: int): int
    requires k > 0
  {
    (y - first) / k
  }

  lemma SinceStep(y: int, first: int, k: int)
    requires (k == 4 || k == 100 || k == 400) && (first - 1) % k == 0
    ensures Since(y + 1, first, k) == Since(y, first, k) + if y % k == 0 then 1 else 0
  {
    CountsMultiples(y + 1 - first, k);
    SameRemainder(y, first - 1, k);
  }

  lemma SameRemainder(y: int, m: int, k: int)
    requires (k == 4 || k == 100 || k == 400) && m % k == 0
    ensures (y - m) % k == y % k
  {
    Remainder(y - m, y / k - m / k, y % k, k) by {
      assert y == y / k * k + y % k && m == m / k * k;
      assert (y / k - m / k) * k == y / k * k - m / k * k;
    }
  }

  lemma Remainder(n: int, q: int, r: int, k: int)
    requires k > 0 && n == q * k + r && 0 <= r < k
    ensures n % k == r
  {
    assert (n / k - q) * k == r - n % k;
    Numerals.SmallMultiple(n / k - q, k);
  }

  lemma YearLength(y: int)
    ensures DayFromYear(y + 1) - DayFromYear(y) == if Leap(y) then 366 else 365
  {
    SinceStep(y, 1969, 4);
    SinceStep(y, 1901, 100);
    SinceStep(y, 1601, 400);
    LeapCounts(y);
    assert DayFromYear(y) == 365 * (y - 1970) + Since(y, 1969, 4) - Since(y, 1901, 100) + Since(y, 1601, 400);
    assert DayFromYear(y + 1) ==
      365 * (y + 1 - 1970) + Since(y + 1, 1969, 4) - Since(y + 1, 1901, 100) + Since(y + 1, 1601, 400);
  }

  /** A multiple of 400 is one of 100, and that one of 4. */
  lemma LeapCounts(y: int)
    ensures y % 400 == 0 ==> y % 100 == 0
    ensures y % 100 == 0 ==> y % 4 == 0
  {
  }

  lemma {:induction false} YearsAscend(x: int, y: int)
    requires x <= y
    ensures DayFromYear(x) + 365 * (y - x) <= DayFromYear(y)
    decreases y - x
  {
    if x < y {
      YearLength(x);
      YearsAscend(x + 1, y);
    }
  }

  function YearNear(day: int, y: int): (r: int)
    ensures DayFromYear(r) <= day < DayFromYear(r + 1)
    decreases if day < DayFromYear(y) then 1 + DayFromYear(y) - day
        else if DayFromYear(y + 1) <= day then 1 + day - DayFromYear(y + 1) else 0
  {
    hide DayFromYear;
    YearLength(y - 1);
    YearLength(y + 1);
    if day < DayFromYear(y) then YearNear(day, y - 1)
    else if DayFromYear(y + 1) <= day then YearNear(day, y + 1)
    else y
  }

  /** The year whose days include this one. */
  function Year(day: int): (r: int)
    ensures DayFromYear(r) <= day < DayFromYear(r + 1)
  {
    YearNear(day, 1970)
  }

  lemma YearIs(day: int, y: int)
    requires DayFromYear(y) <= day < DayFromYear(y + 1)
    ensures Year(day) == y
  {
    if Year(day) < y {
      YearsAscend(Year(day) + 1, y);
    } else if y < Year(day) {
      YearsAscend(y + 1, Year(day));
    }
  }

  function MonthLength(y: int, m: int): int
    requires 0 <= m < 12
  {
    if m == 1 then (if Leap(y) then 29 else 28)
    else if m == 3 || m == 5 || m == 8 || m == 10 then 30 else 31
  }

  /** Days of the year before month `m`. */
  function MonthStart(y: int, m: int): int
    requires 0 <= m <= 12
  {
    if m == 0 then 0 else MonthStart(y, m - 1) + MonthLength(y, m - 1)
  }

  lemma MonthTable(y: int)
    ensures var leap := if Leap(y) then 1 else 0;
            && MonthStart(y, 0) == 0 && MonthStart(y, 1) == 31 && MonthStart(y, 2) == 59 + leap
            && MonthStart(y, 3) == 90 + leap && MonthStart(y, 4) == 120 + leap && MonthStart(y, 5) == 151 + leap
            && MonthStart(y, 6) == 181 + leap && MonthStart(y, 7) == 212 + leap && MonthStart(y, 8) == 243 + leap
            && MonthStart(y, 9) == 273 + leap && MonthStart(y, 10) == 304 + leap && MonthStart(y, 11) == 334 + leap
            && MonthStart(y, 12) == 365 + leap
  {
    assert MonthStart(y, 4) == MonthStart(y, 3) + 30;
    assert MonthStart(y, 8) == MonthStart(y, 7) + 31;
  }

  function MonthFrom(y: int, dayOfYear: int, m: int): (r: int)
    requires 0 <= m < 12 && MonthStart(y, m) <= dayOfYear < MonthStart(y, 12)
    ensures 0 <= r < 12 && MonthStart(y, r) <= dayOfYear < MonthStart(y, r + 1)
    decreases 12 - m
  {
    if dayOfYear < MonthStart(y, m + 1) then m else MonthFrom(y, dayOfYear, m + 1)
  }

  function Month(day: int): (r: int)
    ensures 0 <= r < 12 && MonthStart(Year(day), r) <= day - DayFromYear(Year(day)) < MonthStart(Year(day), r + 1)
  {
    var y := Year(day);
    YearLength(y);
    MonthTable(y);
    MonthFrom(y, day - DayFromYear(y), 0)
  }

  function DayOfMonth(day: int): (r: int)
    ensures 1 <= r <= MonthLength(Year(day), Month(day)) <= 31
  {
    day - DayFromYear(Year(day)) - MonthStart(Year(day), Month(day)) + 1
  }

  function WeekDay(day: int): int { (day + 4) % 7 }

  /** Days since a known Sunday, 2 January 2000. */
  predicate IsSunday(day: int) { (day - 10958) % 7 == 0 }

  /** The week day of every day, from its successor and two known dates. */
  lemma WeekDays(day: int)
    ensures WeekDay(day) == 0 <==> IsSunday(day)
    ensures 0 <= WeekDay(day) < 7 && WeekDay(day + 1) == if WeekDay(day) == 6 then 0 else WeekDay(day) + 1
    ensures MakeDay(1970, 0, 1) == 0 && WeekDay(0) == 4 && MakeDay(2000, 0, 2) == 10958
  {
    assert DayFromYear(1970) == 0 && DayFromYear(2000) == 10957;
    assert MonthStart(1970, 0) == MonthStart(2000, 0) == 0;
  }

  /** The lengths of the months: February has 29 days in the years divisible by four but not by a hundred,
      and in those divisible by four hundred. */
  lemma MonthsAre(y: int)
    ensures var days := (m: int) => MakeDay(y, m + 1, 1) - MakeDay(y, m, 1);
            && days(0) == days(2) == days(4) == days(6) == days(7) == days(9) == days(11) == 31
            && days(3) == days(5) == days(8) == days(10) == 30
            && days(1) == if y % 400 == 0 || (y % 4 == 0 && y % 100 != 0) then 29 else 28
    ensures forall m, d :: MakeDay(y, m, d) == MakeDay(y, m, 1) + d - 1
    ensures MakeDay(y, 12, 1) == MakeDay(y + 1, 0, 1) && MakeDay(y, -1, 1) == MakeDay(y - 1, 11, 1)
  {
    MonthTable(y);
    LeapCounts(y);
    hide DayFromYear, MonthStart;
    YearLength(y);
    YearStarts(y + 1);
  }

  lemma YearStarts(y: int)
    ensures MonthStart(y, 0) == 0
  {
  }

  /** MakeDay: month and day of the month may overflow either way. */
  function MakeDay(year: int, month: int, date: int): int {
    DayFromYear(year + month / 12) + MonthStart(year + month / 12, month % 12) + date - 1
  }

  lemma {:induction false} MonthsAscend(y: int, i: int, j: int)
    requires 0 <= i <= j <= 12
    ensures MonthStart(y, i) + 28 * (j - i) <= MonthStart(y, j)
    decreases j - i
  {
    if i < j {
      MonthsAscend(y, i, j - 1);
    }
  }

  /** Taking a day apart and putting it together again. */
  lemma MakeOfParts(day: int)
    ensures MakeDay(Year(day), Month(day), DayOfMonth(day)) == day
  {
    hide DayFromYear, MonthStart;
    assert Month(day) / 12 == 0 && Month(day) % 12 == Month(day);
  }

  lemma WithinYear(y: int, m: int, d: int)
    requires 0 <= m < 12 && 1 <= d <= MonthLength(y, m)
    ensures MakeDay(y, m, d) == DayFromYear(y) + MonthStart(y, m) + d - 1
    ensures DayFromYear(y) <= MakeDay(y, m, d) < DayFromYear(y + 1)
  {
    hide DayFromYear, MonthLength;
    assert m / 12 == 0 && m % 12 == m;
    MonthsAscend(y, 0, m);
    MonthsAscend(y, m + 1, 12);
    YearLength(y);
    MonthTable(y);
  }

  lemma SameMonth(y: int, k: int, m: int, n: int)
    requires 0 <= m < 12 && 0 <= n < 12
    requires MonthStart(y, m) <= k < MonthStart(y, m + 1) && MonthStart(y, n) <= k < MonthStart(y, n + 1)
    ensures m == n
  {
    hide MonthStart;
    if m < n {
      MonthsAscend(y, m + 1, n);
    } else if n < m {
      MonthsAscend(y, n + 1, m);
    }
  }

  /** Putting a date together and taking it apart again. */
  lemma PartsOfMake(y: int, m: int, d: int)
    requires 0 <= m < 12 && 1 <= d <= MonthLength(y, m)
    ensures var day := MakeDay(y, m, d); Year(day) == y && Month(day) == m && DayOfMonth(day) == d
  {
    var day := MakeDay(y, m, d);
    assert MonthStart(y, m + 1) == MonthStart(y, m) + MonthLength(y, m);
    hide DayFromYear, MonthStart, MonthLength, MakeDay;
    WithinYear(y, m, d);
    YearIs(day, y);
    SameMonth(y, day - DayFromYear(y), Month(day), m);
  }

  // ---------- months as one line ----------

  function MonthIndex(day: int): int { 12 * Year(day) + Month(day) }

  function FirstOf(index: int): int { MakeDay(0, index, 1) }

  lemma MakeIsIndexed(year: int, month: int, date: int)
    ensures MakeDay(year, month, date) == FirstOf(12 * year + month) + date - 1
  {
    hide DayFromYear, MonthStart;
    assert (12 * year + month) / 12 == year + month / 12 && (12 * year + month) % 12 == month % 12;
  }

  lemma FirstIsFirst(index: int)
    ensures var day := FirstOf(index);
            DayOfMonth(day) == 1 && Year(day) == index / 12 && Month(day) == index % 12 && MonthIndex(day) == index
  {
    hide DayFromYear, MonthStart;
    PartsOfMake(index / 12, index % 12, 1);
  }

  lemma DayWithinMonth(day: int)
    ensures FirstOf(MonthIndex(day)) == day - DayOfMonth(day) + 1
  {
    hide DayFromYear, MonthStart;
    MakeIsIndexed(Year(day), Month(day), 1);
    assert Month(day) % 12 == Month(day) && Month(day) / 12 == 0;
  }

  /** A day lies in the month whose first day is the last first not after it. */
  lemma MonthIs(day: int, index: int)
    requires FirstOf(index) <= day < FirstOf(index) + MonthLength(index / 12, index % 12)
    ensures MonthIndex(day) == index && Year(day) == index / 12 && Month(day) == index % 12
  {
    hide DayFromYear, MonthStart, MonthLength, FirstOf, MakeDay;
    var d := day - FirstOf(index) + 1;
    MakeIsIndexed(index / 12, index % 12, d);
    PartsOfMake(index / 12, index % 12, d);
    assert 12 * (index / 12) + index % 12 == index;
  }

  lemma NextFirst(index: int)
    ensures FirstOf(index + 1) == FirstOf(index) + MonthLength(index / 12, index % 12)
    ensures 28 <= MonthLength(index / 12, index % 12) <= 31
  {
    hide DayFromYear;
    if index % 12 == 11 {
      MonthTable(index / 12);
      YearLength(index / 12);
      assert (index + 1) / 12 == index / 12 + 1 && (index + 1) % 12 == 0;
    } else {
      assert (index + 1) / 12 == index / 12 && (index + 1) % 12 == index % 12 + 1;
    }
  }

  lemma {:induction false} FirstsAscend(i: int, j: int)
    requires i <= j
    ensures FirstOf(i) + 28 * (j - i) <= FirstOf(j)
    decreases j - i
  {
    if i < j {
      NextFirst(i);
      FirstsAscend(i + 1, j);
    }
  }
}
