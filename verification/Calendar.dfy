/** Day, week and month stepping of the markets calendar, on the texts it passes around.
    `Some` of a day number stands for a Date at midnight, `None` for an invalid Date. */
module Calendar {
  import opened Common
  import opened Gregorian

  // ---------- texts ----------

  function Digit(n: int): char
    requires 0 <= n < 10
  {
    "0123456789"[n]
  }

  function Digits(n: nat, width: nat): (s: string)
    ensures |s| == width && '-' !in s && '+' !in s
  {
    if width == 0 then "" else Digits(n / 10, width - 1) + [Digit(n % 10)]
  }

  predicate IsDigit(c: char) { '0' <= c <= '9' }

  function Value(s: string): (r: nat)
    requires forall i :: 0 <= i < |s| ==> IsDigit(s[i])
  {
    if s == "" then 0 else assert IsDigit(s[|s| - 1]); 10 * Value(s[..|s| - 1]) + (s[|s| - 1] as int - '0' as int)
  }

  /** `Number` on the texts that can arise here: digits, or nothing at all. */
  function Numeral(s: string): Option<nat> {
    if forall i :: 0 <= i < |s| ==> IsDigit(s[i]) then Some(Value(s)) else None
  }

  function Pow10(n: nat): nat { if n == 0 then 1 else 10 * Pow10(n - 1) }

  lemma {:induction false} NumeralOfDigits(n: nat, width: nat)
    requires n < Pow10(width)
    ensures Numeral(Digits(n, width)) == Some(n)
    decreases width
  {
    if width > 0 {
      NumeralOfDigits(n / 10, width - 1);
      var s := Digits(n, width);
      assert s[..|s| - 1] == Digits(n / 10, width - 1);
      assert forall i :: 0 <= i < |s| - 1 ==> s[i] == s[..|s| - 1][i];
    }
  }

  function Split(s: string): (parts: seq<string>)
    ensures parts != []
  {
    if s == "" then [""]
    else
      var rest := Split(s[1..]);
      if s[0] == '-' then [""] + rest else [[s[0]] + rest[0]] + rest[1..]
  }

  lemma {:induction false} SplitAt(a: string, rest: string)
    requires '-' !in a
    ensures Split(a + "-" + rest) == [a] + Split(rest)
    decreases |a|
  {
    var s := a + "-" + rest;
    if a == "" {
      assert s[1..] == rest;
    } else {
      assert s[1..] == a[1..] + "-" + rest;
      SplitAt(a[1..], rest);
      assert [a[0]] + a[1..] == a;
      assert ([a[1..]] + Split(rest))[1..] == Split(rest);
    }
  }

  lemma {:induction false} SplitWhole(a: string)
    requires '-' !in a
    ensures Split(a) == [a]
    decreases |a|
  {
    if a != "" {
      SplitWhole(a[1..]);
      assert [a[0]] + a[1..] == a;
    }
  }

  function Abs(n: int): nat { if n < 0 then -n else n }

  /** The first ten characters of `toISOString`. */
  function IsoDay(day: int): string {
    var y, m, d := Year(day), Month(day), DayOfMonth(day);
    if 0 <= y <= 9999 then Digits(y, 4) + "-" + Digits(m + 1, 2) + "-" + Digits(d, 2)
    else (if y < 0 then "-" else "+") + Digits(Abs(y), 6) + "-" + Digits(m + 1, 2)
  }

  /** Date.UTC reads years 0 to 99 as 1900 to 1999. */
  function FullYear(y: int): int { if 0 <= y <= 99 then 1900 + y else y }

  function ParseDay(value: string): Option<int> {
    var parts := Split(value);
    if |parts| < 3 then None
    else
      var y, m, d := Numeral(parts[0]), Numeral(parts[1]), Numeral(parts[2]);
      if y.None? || m.None? || d.None? then None
      else Some(MakeDay(FullYear(y.value), m.value - 1, d.value))
  }

  lemma SplitTwo(a: string, b: string)
    requires '-' !in a && '-' !in b
    ensures Split(a + "-" + b) == [a, b]
  {
    hide Split;
    SplitAt(a, b);
    SplitWhole(b);
  }

  lemma SplitThree(a: string, b: string, c: string)
    requires '-' !in a && '-' !in b && '-' !in c
    ensures Split(a + "-" + b + "-" + c) == [a, b, c]
  {
    hide Split;
    assert a + "-" + b + "-" + c == a + "-" + (b + "-" + c);
    SplitAt(a, b + "-" + c);
    SplitTwo(b, c);
  }

  lemma ParseThree(a: string, b: string, c: string, y: nat, m: nat, d: nat)
    requires '-' !in a && '-' !in b && '-' !in c
    requires Numeral(a) == Some(y) && Numeral(b) == Some(m) && Numeral(c) == Some(d)
    ensures ParseDay(a + "-" + b + "-" + c) == Some(MakeDay(FullYear(y), m - 1, d))
  {
    hide Split, Numeral, MakeDay, FullYear;
    SplitThree(a, b, c);
  }

  lemma ParseText(y: nat, m: nat, d: nat)
    requires y <= 9999 && m <= 99 && d <= 99
    ensures ParseDay(Digits(y, 4) + "-" + Digits(m, 2) + "-" + Digits(d, 2)) == Some(MakeDay(FullYear(y), m - 1, d))
  {
    assert Pow10(4) == 10000 && Pow10(2) == 100;
    hide Digits, Numeral, Pow10, MakeDay, ParseDay;
    NumeralOfDigits(y, 4);
    NumeralOfDigits(m, 2);
    NumeralOfDigits(d, 2);
    ParseThree(Digits(y, 4), Digits(m, 2), Digits(d, 2), y, m, d);
  }

  lemma ParseTwo(a: string, b: string)
    requires '-' !in a && '-' !in b
    ensures ParseDay(a + "-" + b) == None
  {
    hide Split;
    SplitTwo(a, b);
  }

  lemma ParseFarText(day: int)
    requires -999999 <= Year(day) <= 999999 && !(0 <= Year(day) <= 9999)
    ensures ParseDay(IsoDay(day)) == if Year(day) < 0 then Some(MakeDay(1900, -Year(day) - 1, Month(day) + 1)) else None
  {
    hide Digits, MakeDay, DayFromYear, MonthStart, ParseDay, Year, Month, DayOfMonth, MonthLength;
    if Year(day) < 0 {
      ParseNegative(Abs(Year(day)), Month(day) + 1);
    } else {
      ParseTwo("+" + Digits(Abs(Year(day)), 6), Digits(Month(day) + 1, 2));
    }
  }

  lemma ParseNegative(y: nat, m: nat)
    requires y <= 999999 && m <= 99
    ensures ParseDay("-" + Digits(y, 6) + "-" + Digits(m, 2)) == Some(MakeDay(1900, y - 1, m))
  {
    assert Pow10(6) == 1000000 && Pow10(2) == 100;
    hide Digits, Numeral, Pow10, MakeDay, ParseDay;
    NoDigits();
    NumeralOfDigits(y, 6);
    NumeralOfDigits(m, 2);
    ParseThree("", Digits(y, 6), Digits(m, 2), 0, y, m);
    assert "" + "-" + Digits(y, 6) + "-" + Digits(m, 2) == "-" + Digits(y, 6) + "-" + Digits(m, 2);
  }

  lemma NoDigits()
    ensures Numeral("") == Some(0)
  {
  }

  lemma DayIsInMonth(day: int)
    ensures FirstOf(MonthIndex(day)) <= day < FirstOf(MonthIndex(day) + 1)
  {
    hide DayFromYear, MonthStart, MakeDay;
    DayWithinMonth(day);
    NextFirst(MonthIndex(day));
    assert MonthIndex(day) / 12 == Year(day) && MonthIndex(day) % 12 == Month(day);
  }

  lemma FourDigitText(day: int)
    requires 0 <= Year(day) <= 9999
    ensures ParseDay(IsoDay(day)) == Some(FirstOf(12 * FullYear(Year(day)) + Month(day)) + DayOfMonth(day) - 1)
  {
    hide MakeDay, Digits, ParseDay, FirstOf, FullYear, Year, Month, DayOfMonth, MonthLength, MonthStart, DayFromYear;
    ParseText(Year(day), Month(day) + 1, DayOfMonth(day));
    MakeIsIndexed(FullYear(Year(day)), Month(day), DayOfMonth(day));
  }

  /** The text of a day with a four-digit year: four digits for the year, two for the month counted from
      one, two for the day. */
  lemma IsoDayReads(day: int)
    requires 0 <= Year(day) <= 9999
    ensures var text := IsoDay(day);
            && |text| == 10 && text[4] == text[7] == '-' && Numeral(text[..4]) == Some(Year(day))
            && Numeral(text[5..7]) == Some(Month(day) + 1) && Numeral(text[8..]) == Some(DayOfMonth(day))
  {
    hide Digits, Numeral, Year, Month, DayOfMonth, MonthLength, MonthStart, DayFromYear;
    TextReads(Year(day), Month(day) + 1, DayOfMonth(day));
  }

  lemma TextReads(y: nat, m: nat, d: nat)
    requires y <= 9999 && m <= 99 && d <= 99
    ensures var text := Digits(y, 4) + "-" + Digits(m, 2) + "-" + Digits(d, 2);
            && |text| == 10 && text[4] == text[7] == '-' && Numeral(text[..4]) == Some(y)
            && Numeral(text[5..7]) == Some(m) && Numeral(text[8..]) == Some(d)
  {
    SmallPowers();
    hide *;
    NumeralOfDigits(y, 4);
    NumeralOfDigits(m, 2);
    NumeralOfDigits(d, 2);
    Slices(Digits(y, 4), Digits(m, 2), Digits(d, 2));
  }

  lemma SmallPowers()
    ensures Pow10(4) == 10000 && Pow10(2) == 100
  {
  }

  lemma Slices(a: string, b: string, c: string)
    requires |a| == 4 && |b| == |c| == 2
    ensures var text := a + "-" + b + "-" + c;
            && |text| == 10 && text[4] == text[7] == '-'
            && text[..4] == a && text[5..7] == b && text[8..] == c
  {
    var text := a + "-" + b + "-" + c;
    assert |a + "-" + b| == 7 && text[..7] == a + "-" + b;
    assert text[5..7] == text[..7][5..];
  }

  /** Years are read as written, but for those of one or two digits, which are of the last century. */
  lemma YearsAreRead(y: nat, m: nat, d: nat)
    requires y <= 9999 && m <= 99 && d <= 99
    ensures ParseDay(Digits(y, 4) + "-" + Digits(m, 2) + "-" + Digits(d, 2)) ==
              Some(MakeDay(if y < 100 then 1900 + y else y, m - 1, d))
  {
    hide Digits, ParseDay, MakeDay;
    ParseText(y, m, d);
  }

  /** A numeral is read digit by digit in base ten. */
  lemma NumeralReads(s: string, c: char)
    ensures Numeral("") == Some(0)
    ensures Numeral(s + [c]) == if Numeral(s).Some? && '0' <= c <= '9'
                                then Some(10 * Numeral(s).value + (c as int - '0' as int)) else None
  {
    var t := s + [c];
    assert t[..|s|] == s && t[|s|] == c;
    assert forall i :: 0 <= i < |s| ==> t[i] == s[i];
  }

  /** A text of a negative year is read as a day of the year 1900 or later. */
  lemma NegativeText(day: int)
    requires -999999 <= Year(day) < 0
    ensures ParseDay(IsoDay(day)).Some? && ParseDay(IsoDay(day)).value > day
  {
    hide MakeDay, Digits, DayFromYear, MonthStart, IsoDay, ParseDay;
    ParseFarText(day);
    MakeIsIndexed(1900, -Year(day) - 1, Month(day) + 1);
    DayIsInMonth(day);
    FirstsAscend(MonthIndex(day) + 1, 12 * 1900 - Year(day) - 1);
  }

  /** A day survives its text exactly when its year has four digits and is not read as a
      two-digit one. */
  lemma RoundTripIff(day: int)
    requires -999999 <= Year(day) <= 999999
    ensures ParseDay(IsoDay(day)) == Some(day) <==> 100 <= Year(day) <= 9999
  {
    hide MakeDay, Digits, DayFromYear, MonthStart, IsoDay, ParseDay;
    var y := Year(day);
    DayWithinMonth(day);
    if 0 <= y <= 9999 {
      FourDigitText(day);
      FirstsAscend(MonthIndex(day), 12 * FullYear(y) + Month(day));
    } else if y < 0 {
      NegativeText(day);
    } else {
      ParseFarText(day);
    }
  }
}
