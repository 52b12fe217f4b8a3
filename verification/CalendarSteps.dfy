/** addDays, addMonths, startOfWeek and monthGrid: the code on a mutable Date, and what it does
    to days, months and weeks. */
module CalendarSteps {
  import opened Common
  import opened Gregorian
  import opened Calendar

  /** A valid Date at midnight UTC. */
  class Date {
    var day: int

    constructor (day: int)
      ensures this.day == day
    {
      this.day := day;
    }

    method SetUTCDate(date: int)
      modifies this
      ensures day == old(day) - DayOfMonth(old(day)) + date
    {
      hide DayFromYear, MonthStart;
      assert Month(day) / 12 == 0 && Month(day) % 12 == Month(day);
      day := MakeDay(Year(day), Month(day), date);
    }

    method SetUTCMonth(month: int)
      modifies this
      ensures day == FirstOf(12 * Year(old(day)) + month) + DayOfMonth(old(day)) - 1
    {
      hide DayFromYear, MonthStart;
      MakeIsIndexed(Year(day), month, DayOfMonth(day));
      day := MakeDay(Year(day), month, DayOfMonth(day));
    }
  }

  // ---------- what the steps are ----------

  function DaysLater(value: string, amount: int): Option<string> {
    match ParseDay(value)
    case None => None
    case Some(day) => Some(IsoDay(day + amount))
  }

  function MonthsLater(value: string, amount: int): Option<string> {
    match ParseDay(value)
    case None => None
    case Some(day) => Some(IsoDay(FirstOf(MonthIndex(day) + amount)))
  }

  function Sunday(day: int): int { day - WeekDay(day) }

  function WeekStart(value: string): Option<string> {
    match ParseDay(value)
    case None => None
    case Some(day) => Some(IsoDay(Sunday(day)))
  }

  /** `None` is the RangeError `toISOString` throws on an invalid Date. */
  method AddDays(value: string, amount: int) returns (r: Option<string>)
    ensures r == DaysLater(value, amount)
  {
    hide IsoDay, ParseDay;
    var parsed := ParseDay(value);
    if parsed.None? { return None; }
    var date := new Date(parsed.value);
    date.SetUTCDate(DayOfMonth(date.day) + amount);
    return Some(IsoDay(date.day));
  }

  method AddMonths(value: string, amount: int) returns (r: Option<string>)
    ensures r == MonthsLater(value, amount)
  {
    hide MakeDay, DayFromYear, MonthStart, IsoDay, ParseDay, FirstOf, Year, Month, DayOfMonth;
    var parsed := ParseDay(value);
    if parsed.None? { return None; }
    var date := new Date(parsed.value);
    DayWithinMonth(date.day);
    date.SetUTCDate(1);
    FirstIsFirst(MonthIndex(parsed.value));
    date.SetUTCMonth(Month(date.day) + amount);
    return Some(IsoDay(date.day));
  }

  method StartOfWeek(value: string) returns (r: Option<string>)
    ensures r == WeekStart(value)
  {
    hide IsoDay, ParseDay, DayFromYear, MonthStart;
    var parsed := ParseDay(value);
    if parsed.None? { return None; }
    var date := new Date(parsed.value);
    date.SetUTCDate(DayOfMonth(date.day) - WeekDay(date.day));
    return Some(IsoDay(date.day));
  }

  // ---------- laws of the steps ----------

  predicate Proper(day: int) { 100 <= Year(day) <= 9999 }

  lemma TextOf(day: int)
    requires Proper(day)
    ensures ParseDay(IsoDay(day)) == Some(day)
  {
    RoundTripIff(day);
  }

  lemma AddDaysComposes(value: string, a: int, b: int)
    requires ParseDay(value).Some? && Proper(ParseDay(value).value + a)
    ensures DaysLater(DaysLater(value, a).value, b) == DaysLater(value, a + b)
  {
    hide IsoDay, ParseDay;
    TextOf(ParseDay(value).value + a);
  }

  lemma AddDaysUndone(day: int, a: int)
    requires Proper(day) && Proper(day + a)
    ensures DaysLater(IsoDay(day), a).Some? && DaysLater(DaysLater(IsoDay(day), a).value, -a) == Some(IsoDay(day))
  {
    hide IsoDay, ParseDay;
    TextOf(day);
    TextOf(day + a);
  }

  /** The result is the first day of the month `amount` months away. */
  lemma AddMonthsLandsOnFirst(value: string, amount: int)
    requires ParseDay(value).Some?
    ensures var index, r := MonthIndex(ParseDay(value).value) + amount, ParseDay(MonthsLater(value, amount).value);
            1200 <= index < 120000 ==> r.Some? && DayOfMonth(r.value) == 1 && MonthIndex(r.value) == index
  {
    hide FirstOf, IsoDay, ParseDay, MonthIndex, DayFromYear, MonthStart, DayOfMonth;
    var index := MonthIndex(ParseDay(value).value) + amount;
    FirstIsFirst(index);
    if 1200 <= index < 120000 {
      TextOf(FirstOf(index));
    }
  }

  lemma AddMonthsComposes(value: string, a: int, b: int)
    requires ParseDay(value).Some?
    ensures 1200 <= MonthIndex(ParseDay(value).value) + a < 120000 ==>
        MonthsLater(MonthsLater(value, a).value, b) == MonthsLater(value, a + b)
  {
    hide FirstOf, IsoDay, ParseDay;
    AddMonthsLandsOnFirst(value, a);
  }

  lemma StartOfWeekIdempotent(value: string)
    requires ParseDay(value).Some? && Proper(Sunday(ParseDay(value).value))
    ensures WeekStart(WeekStart(value).value) == WeekStart(value)
  {
    hide IsoDay, ParseDay, Sunday;
    var day := ParseDay(value).value;
    TextOf(Sunday(day));
    WeeksPartition(day, Sunday(day));
  }

  /** Weeks run from Sunday to Saturday, every day lies in its own, and two days have the same
      start exactly when one lies within seven days of the other's start. */
  lemma WeeksPartition(day: int, other: int)
    ensures IsSunday(Sunday(day)) && Sunday(day) <= day < Sunday(day) + 7
    ensures Sunday(other) == Sunday(day) <==> Sunday(day) <= other < Sunday(day) + 7
  {
  }

  // ---------- exactly when the laws hold ----------

  /** The days a Date can hold. */
  predicate Dated(day: int) { -100_000_000 <= day <= 100_000_000 }

  lemma DatedYear(day: int)
    requires Dated(day)
    ensures -999999 <= Year(day) <= 999999
  {
    assert DayFromYear(1_000_000) > 100_000_000 && DayFromYear(-999_999) < -100_000_000;
    hide DayFromYear;
    if Year(day) > 999999 {
      YearsAscend(1_000_000, Year(day));
    } else if Year(day) < -999999 {
      YearsAscend(Year(day) + 1, -999_999);
    }
  }

  lemma TextsDiffer(late: int, early: int)
    requires Year(late) >= 100 && Year(early) < 100
    ensures IsoDay(late) != IsoDay(early)
  {
    if 0 <= Year(early) && Year(late) <= 9999 {
      assert Pow10(4) == 10000;
      NumeralOfDigits(Year(late), 4);
      NumeralOfDigits(Year(early), 4);
      assert IsoDay(late)[..4] == Digits(Year(late), 4) && IsoDay(early)[..4] == Digits(Year(early), 4);
    } else {
      FirstCharacter(late);
      FirstCharacter(early);
    }
  }

  lemma FirstCharacter(day: int)
    ensures IsoDay(day) != ""
    ensures IsoDay(day)[0] == '-' <==> Year(day) < 0
    ensures IsoDay(day)[0] == '+' <==> Year(day) > 9999
  {
    if 0 <= Year(day) <= 9999 {
      assert IsoDay(day)[0] == Digits(Year(day), 4)[0];
    }
  }

  lemma NotBefore(day: int, index: int)
    requires FirstOf(index) <= day
    ensures MonthIndex(day) >= index && Year(day) >= index / 12
  {
    hide FirstOf, DayFromYear, MonthStart;
    DayIsInMonth(day);
    IndexParts(day);
    if MonthIndex(day) < index {
      FirstsAscend(MonthIndex(day) + 1, index);
    }
  }

  /** The text of an improper day is not read at all, or as a day of the year 1900 or later. */
  lemma ReadAnew(day: int)
    requires -999999 <= Year(day) <= 999999 && !Proper(day)
    ensures var r := ParseDay(IsoDay(day)); r.None? || (Year(day) < 100 && r.value >= FirstOf(22800))
  {
    hide MakeDay, DayFromYear, MonthStart, IsoDay, ParseDay;
    var y := Year(day);
    if 0 <= y < 100 {
      FourDigitText(day);
      FirstsAscend(22800, 12 * FullYear(y) + Month(day));
    } else {
      ParseFarText(day);
      if y < 0 {
        MakeIsIndexed(1900, -y - 1, Month(day) + 1);
        FirstsAscend(22800, 12 * 1900 - y - 1);
      }
    }
  }

  /** Adding a and then b is adding a + b for every b exactly when the day between is proper. */
  lemma AddDaysComposesIff(value: string, a: int)
    requires ParseDay(value).Some? && Dated(ParseDay(value).value + a)
    ensures (forall b :: DaysLater(DaysLater(value, a).value, b) == DaysLater(value, a + b)) <==>
        Proper(ParseDay(value).value + a)
  {
    hide IsoDay, ParseDay, FirstOf;
    var mid := ParseDay(value).value + a;
    if Proper(mid) {
      forall b ensures DaysLater(DaysLater(value, a).value, b) == DaysLater(value, a + b) {
        AddDaysComposes(value, a, b);
      }
    } else {
      DatedYear(mid);
      ReadAnew(mid);
      var r := ParseDay(IsoDay(mid));
      if r.Some? {
        NotBefore(r.value, 22800);
        TextsDiffer(r.value, mid);
      }
      assert DaysLater(DaysLater(value, a).value, 0) != DaysLater(value, a + 0);
    }
  }

  /** From a proper day, going there and back returns exactly when the day there is proper. */
  lemma AddDaysUndoneIff(day: int, a: int)
    requires Proper(day) && Dated(day + a)
    ensures var there := DaysLater(IsoDay(day), a);
            there.Some? && (DaysLater(there.value, -a) == Some(IsoDay(day)) <==> Proper(day + a))
  {
    hide IsoDay, ParseDay, FirstOf, DayFromYear, MonthStart;
    TextOf(day);
    if Proper(day + a) {
      AddDaysUndone(day, a);
    } else {
      DatedYear(day + a);
      ReadAnew(day + a);
      var r := ParseDay(IsoDay(day + a));
      if r.Some? {
        Later(r.value, day + a);
        SameTextSameDay(day, r.value - a);
      }
    }
  }

  lemma Later(late: int, early: int)
    requires late >= FirstOf(22800) && Year(early) < 100
    ensures late > early
  {
    hide FirstOf, DayFromYear, MonthStart;
    if early >= FirstOf(22800) {
      NotBefore(early, 22800);
    }
  }

  /** No later day has the text of a proper one. */
  lemma SameTextSameDay(day: int, later: int)
    requires Proper(day) && later > day
    ensures IsoDay(later) != IsoDay(day)
  {
    hide IsoDay, ParseDay, FirstOf, DayFromYear, MonthStart;
    ProperBetween(day);
    ProperBetween(later);
    if Proper(later) {
      TextOf(later);
      TextOf(day);
    } else {
      NotBefore(later, 120000);
      FirstCharacter(later);
      FirstCharacter(day);
    }
  }

  lemma AddMonthsComposesIff(value: string, a: int)
    requires ParseDay(value).Some?
    ensures var index := MonthIndex(ParseDay(value).value) + a;
            -11_999_988 <= index < 12_000_000 ==>
              ((forall b :: MonthsLater(MonthsLater(value, a).value, b) == MonthsLater(value, a + b)) <==>
                  1200 <= index < 120000)
  {
    hide IsoDay, ParseDay, FirstOf, DayFromYear, MonthStart;
    var index := MonthIndex(ParseDay(value).value) + a;
    FirstIsFirst(index);
    if 1200 <= index < 120000 {
      forall b ensures MonthsLater(MonthsLater(value, a).value, b) == MonthsLater(value, a + b) {
        AddMonthsComposes(value, a, b);
      }
    } else if -11_999_988 <= index < 12_000_000 {
      var mid := FirstOf(index);
      ReadAnew(mid);
      var r := ParseDay(IsoDay(mid));
      if r.Some? {
        NotBefore(r.value, 22800);
        FirstIsFirst(MonthIndex(r.value));
        TextsDiffer(FirstOf(MonthIndex(r.value)), mid);
      }
      assert MonthsLater(MonthsLater(value, a).value, 0) != MonthsLater(value, a + 0);
    }
  }

  /** Months of at most six-digit years, more than a Date can hold.  The text of a month step is read as
      the first of the month aimed at exactly for the months of the proper years. */
  lemma AddMonthsLandsIff(value: string, amount: int)
    requires ParseDay(value).Some?
    ensures var index, r := MonthIndex(ParseDay(value).value) + amount, ParseDay(MonthsLater(value, amount).value);
            -11_999_988 <= index < 12_000_000 ==>
              (r.Some? && DayOfMonth(r.value) == 1 && MonthIndex(r.value) == index <==> 1200 <= index < 120000)
  {
    hide IsoDay, ParseDay, FirstOf, DayFromYear, MonthStart;
    var index := MonthIndex(ParseDay(value).value) + amount;
    FirstIsFirst(index);
    if 1200 <= index < 120000 {
      AddMonthsLandsOnFirst(value, amount);
    } else if -11_999_988 <= index < 12_000_000 {
      ReadAnew(FirstOf(index));
      var r := ParseDay(IsoDay(FirstOf(index)));
      if r.Some? {
        NotBefore(r.value, 22800);
      }
    }
  }

  lemma StartOfWeekIdempotentIff(value: string)
    requires ParseDay(value).Some? && Dated(Sunday(ParseDay(value).value))
    ensures WeekStart(WeekStart(value).value) == WeekStart(value) <==> Proper(Sunday(ParseDay(value).value))
  {
    hide IsoDay, ParseDay, FirstOf, DayFromYear, MonthStart;
    var sunday := Sunday(ParseDay(value).value);
    if Proper(sunday) {
      StartOfWeekIdempotent(value);
    } else {
      DatedYear(sunday);
      ReadAnew(sunday);
      var r := ParseDay(IsoDay(sunday));
      if r.Some? {
        FirstsAscend(22799, 22800);
        NotBefore(Sunday(r.value), 22799);
        TextsDiffer(Sunday(r.value), sunday);
      }
    }
  }

  // ---------- the month grid ----------

  /** The day the grid's cursor starts on: the Sunday, after its passage through text. */
  function GridStart(day: int): int
    requires Proper(day)
  {
    var text := ParseDay(IsoDay(Sunday(FirstOf(MonthIndex(day)))));
    if text.Some? then text.value else 0
  }

  function GridLength(day: int): nat
    requires Proper(day)
  {
    CellCount(GridStart(day), Month(day))
  }

  lemma MonthIsProper(day: int)
    requires Proper(day)
    ensures Proper(FirstOf(MonthIndex(day))) && Month(FirstOf(MonthIndex(day))) == Month(day)
  {
    hide FirstOf, DayFromYear, MonthStart;
    FirstIsFirst(MonthIndex(day));
    assert MonthIndex(day) / 12 == Year(day);
  }

  lemma SundayOfFirstParses(day: int)
    requires Proper(day)
    ensures ParseDay(IsoDay(Sunday(FirstOf(MonthIndex(day))))).Some?
    ensures 99 <= Year(Sunday(FirstOf(MonthIndex(day)))) <= 9999
  {
    hide FirstOf, MonthIndex, DayFromYear, MonthStart, IsoDay, ParseDay;
    var first := FirstOf(MonthIndex(day));
    MonthIsProper(day);
    var sunday := Sunday(first);
    YearLength(Year(first) - 1);
    if sunday < DayFromYear(Year(first)) {
      YearIs(sunday, Year(first) - 1);
    } else {
      YearIs(sunday, Year(first));
    }
    FourDigitText(sunday);
  }

  /** The first of the month, as `Date.UTC` makes it of the date's year and month. */
  function FirstDate(day: int): int { MakeDay(FullYear(Year(day)), Month(day), 1) }

  /** Where the cursor starts, for any day; `None` is an invalid Date. */
  function GridFrom(day: int): Option<int> {
    match WeekStart(IsoDay(FirstDate(day)))
    case None => None
    case Some(text) => ParseDay(text)
  }

  /** Six rows when the sixth begins in the month's number, else five. */
  function CellCount(start: int, month: int): nat {
    match ParseDay(IsoDay(start + 35))
    case None => 35
    case Some(day) => if Month(day) == month then 42 else 35
  }

  /** The texts the grid holds, for any day; `None` is the RangeError of an invalid Date. */
  function GridTexts(day: int): Option<seq<string>> {
    match GridFrom(day)
    case None => None
    case Some(start) => Some(seq(CellCount(start, Month(day)), k requires 0 <= k => IsoDay(start + k)))
  }

  method MonthGrid(value: string) returns (r: Option<seq<string>>)
    ensures r == match ParseDay(value) case None => None case Some(day) => GridTexts(day)
  {
    hide IsoDay, ParseDay, MakeDay, DayFromYear, MonthStart, FullYear, Year, Month, DayOfMonth, WeekDay;
    var parsed := ParseDay(value);
    if parsed.None? { return None; }
    var date := parsed.value;
    var first := MakeDay(FullYear(Year(date)), Month(date), 1);
    var sunday := StartOfWeek(IsoDay(first));
    if sunday.None? { return None; }
    var start := ParseDay(sunday.value);
    if start.None? { return None; }
    var cursor := new Date(start.value);
    var days: seq<string> := [];
    for index := 0 to 42
      invariant |days| == index && cursor.day == start.value + index
      invariant forall k :: 0 <= k < index ==> days[k] == IsoDay(start.value + k)
    {
      days := days + [IsoDay(cursor.day)];
      cursor.SetUTCDate(DayOfMonth(cursor.day) + 1);
    }
    var month := Month(date);
    while |days| > 35 && (var sixth := ParseDay(days[|days| - 7]); sixth.None? || Month(sixth.value) != month)
      invariant |days| == 42 || |days| == 35
      invariant forall k :: 0 <= k < |days| ==> days[k] == IsoDay(start.value + k)
      invariant |days| == 35 ==> CellCount(start.value, month) == 35
    {
      days := days[..|days| - 7];
    }
    assert |days| == CellCount(start.value, month);
    assert days == GridTexts(date).value;
    return Some(days);
  }

  predicate InMonth(day: int, other: int) { MonthIndex(day) == MonthIndex(other) }

  /** What a month grid is for: 35 or 42 days in a row from a Sunday, each text meaning its day,
      all of the month among them, and a sixth row exactly when the month reaches it. */
  ghost predicate RightGrid(days: seq<string>, day: int) {
    && (|days| == 35 || |days| == 42)
    && ParseDay(days[0]).Some?
    && var s := ParseDay(days[0]).value;
       && IsSunday(s)
       && (forall k :: 0 <= k < |days| ==> ParseDay(days[k]) == Some(s + k))
       && (forall x :: InMonth(x, day) ==> s <= x < s + |days|)
       && (|days| == 42 <==> exists x :: InMonth(x, day) && s + 35 <= x < s + 42)
  }

  /** The days of a month are the days from its first up to the next first. */
  lemma MonthDays(day: int, x: int)
    ensures InMonth(x, day) <==> FirstOf(MonthIndex(day)) <= x < FirstOf(MonthIndex(day) + 1)
  {
    hide FirstOf, DayFromYear, MonthStart;
    DayIsInMonth(x);
    if MonthIndex(x) < MonthIndex(day) {
      FirstsAscend(MonthIndex(x) + 1, MonthIndex(day));
    } else if MonthIndex(day) < MonthIndex(x) {
      FirstsAscend(MonthIndex(day) + 1, MonthIndex(x));
    }
  }

  function GridOf(day: int): seq<string>
    requires Proper(day)
  {
    seq(GridLength(day), k requires 0 <= k => IsoDay(GridStart(day) + k))
  }

  lemma ProperBetween(day: int)
    ensures Proper(day) <==> FirstOf(1200) <= day < FirstOf(120000)
  {
    hide FirstOf, DayFromYear, MonthStart;
    DayIsInMonth(day);
    var index := MonthIndex(day);
    assert index / 12 == Year(day);
    if index < 1200 {
      FirstsAscend(index + 1, 1200);
    } else if index < 120000 {
      FirstsAscend(1200, index);
      FirstsAscend(index + 1, 120000);
    } else {
      FirstsAscend(120000, index);
    }
  }

  /** Away from both ends every day of the six weeks survives its text. */
  lemma WindowIsProper(day: int, k: int)
    requires 1200 < MonthIndex(day) < 119999 && 0 <= k < 42
    ensures Proper(day) && Proper(Sunday(FirstOf(MonthIndex(day))) + k)
  {
    hide FirstOf, DayFromYear, MonthStart;
    var index := MonthIndex(day);
    assert index / 12 == Year(day);
    FirstsAscend(1200, index - 1);
    FirstsAscend(index - 1, index);
    FirstsAscend(index, index + 2);
    FirstsAscend(index + 2, 120000);
    ProperBetween(Sunday(FirstOf(index)) + k);
  }

  lemma GridStartIs(day: int)
    requires 1200 < MonthIndex(day) < 119999
    ensures Proper(day) && GridStart(day) == Sunday(FirstOf(MonthIndex(day)))
  {
    hide FirstOf, IsoDay, ParseDay;
    WindowIsProper(day, 0);
    TextOf(Sunday(FirstOf(MonthIndex(day))));
  }

  lemma IndexParts(day: int)
    ensures Month(day) == MonthIndex(day) % 12 && Year(day) == MonthIndex(day) / 12
  {
    hide DayFromYear, MonthStart;
  }

  lemma InNextMonth(index: int, x: int)
    requires FirstOf(index + 1) <= x < FirstOf(index + 2)
    ensures MonthIndex(x) == index + 1
  {
    hide FirstOf, DayFromYear, MonthStart;
    NextFirst(index + 1);
    MonthIs(x, index + 1);
  }

  /** A day of the grid's sixth row has the month's number exactly when it lies in the month. */
  lemma SixthRow(day: int, index: int, x: int)
    requires index == MonthIndex(day) && FirstOf(index) <= x < FirstOf(index + 2)
    ensures Month(x) == Month(day) <==> x < FirstOf(index + 1)
  {
    hide FirstOf, DayFromYear, MonthStart, MonthIndex, MonthLength;
    IndexParts(day);
    IndexParts(x);
    if FirstOf(MonthIndex(day) + 1) <= x {
      InNextMonth(MonthIndex(day), x);
      NumbersDiffer(MonthIndex(day));
    } else {
      MonthDays(day, x);
    }
  }

  lemma NumbersDiffer(index: int)
    ensures index % 12 != (index + 1) % 12
  {
  }

  /** The sixth row's first day decides whether the month reaches the row. */
  lemma GridLengthIs(day: int)
    requires 1200 < MonthIndex(day) < 119999
    ensures Proper(day) && GridLength(day) == if GridStart(day) + 35 < FirstOf(MonthIndex(day) + 1) then 42 else 35
  {
    hide FirstOf, DayFromYear, MonthStart, IsoDay, ParseDay, MonthIndex, MonthLength;
    var index := MonthIndex(day);
    GridStartIs(day);
    WindowIsProper(day, 35);
    var x := GridStart(day) + 35;
    TextOf(x);
    FirstsAscend(index, index + 2);
    NextFirst(index);
    SixthRow(day, index, x);
  }

  lemma GridIsRight(day: int)
    requires 1200 < MonthIndex(day) < 119999
    ensures Proper(day) && RightGrid(GridOf(day), day)
  {
    hide FirstOf, DayFromYear, MonthStart, IsoDay, ParseDay, CellCount;
    GridStartIs(day);
    GridLengthIs(day);
    var index, s := MonthIndex(day), GridStart(day);
    NextFirst(index);
    forall k | 0 <= k < GridLength(day) ensures ParseDay(GridOf(day)[k]) == Some(s + k) {
      WindowIsProper(day, k);
      TextOf(s + k);
    }
    forall x ensures InMonth(x, day) <==> FirstOf(index) <= x < FirstOf(index + 1) {
      MonthDays(day, x);
    }
    if GridLength(day) == 42 {
      assert InMonth(s + 35, day);
    }
  }

  lemma TwoEnds()
    ensures FirstOf(1200) == -683003 && FirstOf(119999) == 2932866 && FirstOf(120000) == 2932897
  {
    assert DayFromYear(100) == -683003 && DayFromYear(9999) == 2932532 && DayFromYear(10000) == 2932897;
    MonthTable(9999);
  }

  /** The Sunday before the first of January 100 falls in the year 99, which is read as 1999. */
  lemma StartOfJanuary100(day: int)
    requires MonthIndex(day) == 1200
    ensures Proper(day) && FirstOf(23999) <= GridStart(day) <= FirstOf(23999) + 30
  {
    hide FirstOf, DayFromYear, MonthStart, IsoDay, ParseDay, MonthLength;
    TwoEnds();
    IndexParts(day);
    var sunday := Sunday(FirstOf(1200));
    assert sunday == FirstOf(1200) - 5;
    NextFirst(1199);
    MonthIs(sunday, 1199);
    FourDigitText(sunday);
  }

  lemma January100(day: int)
    requires MonthIndex(day) == 1200
    ensures Proper(day) && !RightGrid(GridOf(day), day)
  {
    hide FirstOf, DayFromYear, MonthStart, IsoDay, ParseDay, MonthLength, GridStart;
    StartOfJanuary100(day);
    TwoEnds();
    var first, s := FirstOf(1200), GridStart(day);
    FirstsAscend(1200, 23999);
    FirstsAscend(23999, 120000);
    ProperBetween(s);
    TextOf(s);
    MonthDays(day, first);
    NextFirst(1200);
    assert ParseDay(GridOf(day)[0]) == Some(s);
  }

  /** The last day of December 9999 is a Friday: the row ends in the year 10000. */
  lemma December9999(day: int)
    requires MonthIndex(day) == 119999
    ensures Proper(day) && !RightGrid(GridOf(day), day)
  {
    hide FirstOf, DayFromYear, MonthStart, IsoDay, ParseDay, MonthLength;
    TwoEnds();
    IndexParts(day);
    var first := FirstOf(119999);
    assert Sunday(first) == first - 3;
    FirstsAscend(1200, 119998);
    FirstsAscend(119998, 119999);
    ProperBetween(first - 3);
    TextOf(first - 3);
    var beyond := first + 31;
    NextFirst(120000);
    MonthIs(beyond, 120000);
    ParseFarText(beyond);
    assert GridOf(day)[34] == IsoDay(beyond);
  }

  // ---------- and for every day ----------

  lemma ProperGrid(day: int)
    requires Proper(day)
    ensures GridTexts(day) == Some(GridOf(day))
  {
    hide IsoDay, ParseDay, MakeDay, FirstOf, DayFromYear, MonthStart;
    MakeIsIndexed(Year(day), Month(day), 1);
    MonthIsProper(day);
    TextOf(FirstOf(MonthIndex(day)));
    SundayOfFirstParses(day);
  }

  lemma FarIsUnread(day: int)
    requires Year(day) > 9999
    ensures ParseDay(IsoDay(day)) == None
  {
    hide ParseDay, Digits, DayFromYear, MonthStart;
    var y, m := Digits(Abs(Year(day)), 6), Digits(Month(day) + 1, 2);
    ParseTwo("+" + y, m);
  }

  lemma HoldsItsDay(days: seq<string>, day: int)
    requires RightGrid(days, day)
    ensures |days| > 0 && ParseDay(days[0]).Some? && ParseDay(days[0]).value <= day
  {
    assert InMonth(day, day);
  }

  /** A grid whose month is read as one of 1900 or later does not hold a day before the year 100. */
  lemma LateGrid(day: int, r: int)
    requires Year(day) < 100 && r >= FirstOf(22800) && WeekStart(IsoDay(FirstDate(day))) == Some(IsoDay(Sunday(r)))
    ensures GridTexts(day).None? || !RightGrid(GridTexts(day).value, day)
  {
    hide IsoDay, ParseDay, FirstOf, FirstDate, DayFromYear, MonthStart, WeekStart, CellCount, RightGrid;
    var sunday := Sunday(r);
    NextFirst(22799);
    NotBefore(sunday, 22799);
    if Proper(sunday) {
      TextOf(sunday);
      if RightGrid(GridTexts(day).value, day) {
        HoldsItsDay(GridTexts(day).value, day);
        FirstsAscend(1200, 22799);
        NotBefore(day, 22799);
      }
    } else {
      FarIsUnread(sunday);
    }
  }

  lemma ImproperGrid(day: int)
    requires Dated(day) && !Proper(day)
    ensures GridTexts(day).None? || !RightGrid(GridTexts(day).value, day)
  {
    hide IsoDay, ParseDay, MakeDay, FirstOf, DayFromYear, MonthStart, RightGrid;
    DatedYear(day);
    var index := 12 * FullYear(Year(day)) + Month(day);
    MakeIsIndexed(FullYear(Year(day)), Month(day), 1);
    FirstIsFirst(index);
    assert FirstDate(day) == FirstOf(index) && Year(FirstOf(index)) == FullYear(Year(day));
    if 0 <= Year(day) < 100 {
      TextOf(FirstOf(index));
      FirstsAscend(22800, index);
      LateGrid(day, FirstOf(index));
    } else {
      ReadAnew(FirstOf(index));
      var r := ParseDay(IsoDay(FirstOf(index)));
      if r.Some? {
        LateGrid(day, r.value);
      }
    }
  }

  /** For every day a Date can hold: the grid exists and is right exactly for the months of the years
      100 to 9999 but the first and the last. */
  lemma GridRightIff(day: int)
    requires Dated(day)
    ensures GridTexts(day).Some? && RightGrid(GridTexts(day).value, day) <==> 1200 < MonthIndex(day) < 119999
  {
    hide GridTexts, RightGrid, DayFromYear, MonthStart;
    if Proper(day) {
      ProperGrid(day);
      if MonthIndex(day) == 1200 {
        January100(day);
      } else if MonthIndex(day) == 119999 {
        December9999(day);
      } else {
        GridIsRight(day);
      }
    } else {
      ImproperGrid(day);
    }
  }
}
