/** The calendar engine of `class Date`: parsing a `DD.MM.YYYY?` string,
    the Gregorian leap rule, the proleptic day number, the (year, month,
    day) order and the forward-only day difference. */
module Calendar {
  import opened Options
  import opened Text

  /** The three integer fields of a `Date`. */
  datatype CalendarDate = CalendarDate(day: int, month: int, year: int)

  /** What a default-constructed or unparsable `Date` holds. */
  const Zero := CalendarDate(0, 0, 0)

  /** The non-leap month lengths `to_day_number` sums. */
  const DaysInMonthTable: seq<int> := [31, 28, 31, 30, 31, 30, 31, 31, 30, 31, 30, 31]

  /** Gregorian leap rule. Divisibility is the same whether `%` truncates
      (C++) or not (Dafny), so the test holds for every year. */
  predicate IsLeap(y: int) {
    (y % 4 == 0 && y % 100 != 0) || y % 400 == 0
  }

  /** C++ integer division by a positive divisor: rounds toward zero. */
  function Quot(a: int, b: int): int
    requires b > 0
  {
    if a >= 0 then a / b else -((-a) / b)
  }

  /** Days in all years before `year`, as `to_day_number` counts them
      (the zero date's year 0 gives `y = -1`, where C++ rounds toward zero). */
  function YearStart(year: int): int {
    var y := year - 1;
    y * 365 + Quot(y, 4) - Quot(y, 100) + Quot(y, 400)
  }

  /** The table summed over months 1 .. m-1, one entry per loop turn.
      Months above 13 would read past the table. */
  function DaysBeforeMonth(m: int): int
    requires m <= 13
  {
    if m <= 1 then 0 else DaysBeforeMonth(m - 1) + DaysInMonthTable[m - 2]
  }

  /** Days in the year before the first of month `m`, with February's
      extra day in leap years. */
  function MonthStart(m: int, year: int): int
    requires m <= 13
  {
    DaysBeforeMonth(m) + (if m > 2 && IsLeap(year) then 1 else 0)
  }

  /** `to_day_number`: the proleptic day count of a date. */
  function DayNumberOf(d: CalendarDate): int
    requires d.month <= 13
  {
    YearStart(d.year) + MonthStart(d.month, d.year) + d.day
  }

  /** `operator>`: compares year, then month, then day. */
  predicate Later(a: CalendarDate, b: CalendarDate) {
    if a.year != b.year then a.year > b.year
    else if a.month != b.month then a.month > b.month
    else a.day > b.day
  }

  /** `operator-`: the day count from `b` to `a` when `a` is strictly later,
      and 0 otherwise; the day numbers are only computed in the first case. */
  function Difference(a: CalendarDate, b: CalendarDate): int
    requires Later(a, b) ==> a.month <= 13 && b.month <= 13
  {
    if !Later(a, b) then 0 else DayNumberOf(a) - DayNumberOf(b)
  }

  predicate LineTerminator(c: char) {
    c == '\n' || c == '\r'
  }

  /** `split_date`: the pattern `(\d{2})\.(\d{2})\.(\d{4}).` must match the
      whole string; its last `.` is unescaped and matches any character but
      a line terminator. `None` is the error flag. The conversions cannot
      fail on digit runs, so the `catch` branch has no counterpart. */
  function SplitDate(s: string): (r: Option<CalendarDate>)
    ensures r.Some? ==> InRange(r.value)
  {
    if |s| == 11 && AllDigits(s[..2]) && s[2] == '.' && AllDigits(s[3..5]) && s[5] == '.'
       && AllDigits(s[6..10]) && !LineTerminator(s[10])
    then Some(CalendarDate(DigitsValue(s[..2]), DigitsValue(s[3..5]), DigitsValue(s[6..10])))
    else None
  }

  /** The date `set_date` leaves behind: the parsed one, or the zero date. */
  function ParseOrZero(s: string): CalendarDate {
    match SplitDate(s)
    case Some(d) => d
    case None => Zero
  }

  /** The fields a two-digit, two-digit, four-digit pattern can hold. */
  predicate InRange(d: CalendarDate) {
    0 <= d.day <= 99 && 0 <= d.month <= 99 && 0 <= d.year <= 9999
  }

  /** The first ten characters of a string the pattern accepts, written
      from the date they denote. */
  function PatternText(d: CalendarDate): string
    requires InRange(d)
  {
    Digits(d.day, 2) + "." + Digits(d.month, 2) + "." + Digits(d.year, 4)
  }

  /** Every date the pattern can hold parses back from its text, whatever
      the final character is, line terminators apart. */
  lemma SplitDateAccepts(d: CalendarDate, last: char)
    requires InRange(d) && !LineTerminator(last)
    ensures SplitDate(PatternText(d) + [last]) == Some(d)
  {
    var s := PatternText(d) + [last];
    assert s[..2] == Digits(d.day, 2);
    assert s[3..5] == Digits(d.month, 2);
    assert s[6..10] == Digits(d.year, 4);
    DigitsValueOfDigits(d.day, 2);
    DigitsValueOfDigits(d.month, 2);
    DigitsValueOfDigits(d.year, 4);
  }

  /** A string parses only if it is the text of the date it yields followed
      by one character that is not a line terminator; every other string
      gives the error flag. */
  lemma SplitDateShape(s: string)
    requires SplitDate(s).Some?
    ensures var d := SplitDate(s).value;
      InRange(d) && |s| == 11 && s == PatternText(d) + [s[10]] && !LineTerminator(s[10])
  {
    var d := SplitDate(s).value;
    DigitsOfDigitsValue(s[..2]);
    DigitsOfDigitsValue(s[3..5]);
    DigitsOfDigitsValue(s[6..10]);
    assert s == s[..2] + "." + s[3..5] + "." + s[6..10] + [s[10]];
  }

  /** A calendar date the engine is meant for: year at least 1, a real month,
      a day within that month. */
  predicate ValidDate(d: CalendarDate) {
    1 <= d.year && 1 <= d.month <= 12 && 1 <= d.day <= DaysInMonth(d.month, d.year)
  }

  function DaysInMonth(m: int, year: int): int
    requires 1 <= m <= 12
  {
    if m == 2 && IsLeap(year) then 29 else DaysInMonthTable[m - 1]
  }

  /** For `n >= 1`, `n / k - (n - 1) / k` is 1 exactly when `k` divides `n`
      (for the three divisors of the leap rule). */
  lemma QuotStep(n: int, k: int)
    requires n >= 1 && (k == 4 || k == 100 || k == 400)
    ensures n / k - (n - 1) / k == if n % k == 0 then 1 else 0
  {
    if k == 4 {
    } else if k == 100 {
    } else {
    }
  }

  /** A year contributes 365 days to the count, 366 when it is a leap year. */
  lemma YearLength(year: int)
    requires year >= 1
    ensures YearStart(year + 1) == YearStart(year) + 365 + (if IsLeap(year) then 1 else 0)
  {
    QuotStep(year, 4);
    QuotStep(year, 100);
    QuotStep(year, 400);
  }

  /** The month offsets grow by the length of each month, up to the whole year. */
  lemma {:induction false} MonthStartStep(m: int, year: int)
    requires 1 <= m <= 12
    ensures MonthStart(m + 1, year) == MonthStart(m, year) + DaysInMonth(m, year)
  {
  }

  lemma {:induction false} MonthStartIncreasing(m1: int, m2: int, year: int)
    requires 1 <= m1 < m2 <= 13
    ensures MonthStart(m1, year) + DaysInMonth(m1, year) <= MonthStart(m2, year)
    decreases m2 - m1
  {
    MonthStartStep(m1, year);
    if m1 + 1 < m2 {
      MonthStartIncreasing(m1 + 1, m2, year);
      MonthStartStep(m1 + 1, year);
    }
  }

  /** The twelve table entries add up to a non-leap year. */
  lemma TableSumsToYear()
    ensures DaysBeforeMonth(13) == 365
  {
    assert DaysBeforeMonth(2) == 31;
    assert DaysBeforeMonth(3) == 59;
    assert DaysBeforeMonth(4) == 90;
    assert DaysBeforeMonth(5) == 120;
    assert DaysBeforeMonth(6) == 151;
    assert DaysBeforeMonth(7) == 181;
    assert DaysBeforeMonth(8) == 212;
    assert DaysBeforeMonth(9) == 243;
    assert DaysBeforeMonth(10) == 273;
    assert DaysBeforeMonth(11) == 304;
    assert DaysBeforeMonth(12) == 334;
  }

  lemma DayNumberInItsYear(d: CalendarDate)
    requires ValidDate(d)
    ensures YearStart(d.year) < DayNumberOf(d) <= YearStart(d.year + 1)
  {
    if d.month < 12 {
      MonthStartIncreasing(d.month, 12, d.year);
    }
    MonthStartStep(12, d.year);
    YearLength(d.year);
    TableSumsToYear();
  }

  lemma {:induction false} YearStartIncreasing(y1: int, y2: int)
    requires 1 <= y1 < y2
    ensures YearStart(y1 + 1) <= YearStart(y2)
    decreases y2 - y1
  {
    if y1 + 1 < y2 {
      YearLength(y1 + 1);
      YearStartIncreasing(y1 + 1, y2);
    }
  }

  /** The day number is strictly increasing in (year, month, day) order on
      valid dates. */
  lemma DayNumberIncreasing(a: CalendarDate, b: CalendarDate)
    requires ValidDate(a) && ValidDate(b) && Later(a, b)
    ensures DayNumberOf(a) > DayNumberOf(b)
  {
    if a.year != b.year {
      DayNumberInItsYear(a);
      DayNumberInItsYear(b);
      YearStartIncreasing(b.year, a.year);
    } else if a.month != b.month {
      MonthStartIncreasing(b.month, a.month, a.year);
    }
  }

  /** On valid dates the difference is zero exactly when the left date is not
      strictly later, equal dates included, and positive otherwise. */
  lemma DifferenceZeroUnlessLater(a: CalendarDate, b: CalendarDate)
    requires ValidDate(a) && ValidDate(b)
    ensures Difference(a, b) == 0 <==> !Later(a, b)
    ensures Later(a, b) ==> Difference(a, b) > 0
    ensures Difference(a, a) == 0
  {
    if Later(a, b) {
      DayNumberIncreasing(a, b);
    }
  }

  /** Differences add up along a chain of strictly later dates. */
  lemma DifferenceAdditive(a: CalendarDate, c: CalendarDate, b: CalendarDate)
    requires ValidDate(a) && ValidDate(c) && ValidDate(b)
    requires Later(a, c) && Later(c, b)
    ensures Later(a, b)
    ensures Difference(a, b) == Difference(a, c) + Difference(c, b)
    ensures Difference(a, b) > Difference(a, c) > 0
  {
    DayNumberIncreasing(c, b);
    DayNumberIncreasing(a, c);
  }

  /** The date read as the decimal number YYYYMMDD. */
  function Key(d: CalendarDate): int {
    (d.year * 100 + d.month) * 100 + d.day
  }

  /** For the fields the pattern can hold, `operator>` is the numeric order
      of the YYYYMMDD reading. */
  lemma LaterIsKeyOrder(a: CalendarDate, b: CalendarDate)
    requires InRange(a) && InRange(b)
    ensures Later(a, b) <==> Key(a) > Key(b)
  {
    var ma, mb := a.year * 100 + a.month, b.year * 100 + b.month;
    if a.year != b.year {
      if a.year > b.year {
        assert ma >= b.year * 100 + 100 > mb;
      } else {
        assert mb >= a.year * 100 + 100 > ma;
      }
    }
    if ma > mb {
      assert Key(a) >= mb * 100 + 100 > Key(b);
    } else if ma < mb {
      assert Key(b) >= ma * 100 + 100 > Key(a);
    }
  }

  /** The example differences: two days from the 1st to the 3rd of January
      2020, and two days across the leap day from 28 February to 1 March. */
  lemma ExampleDifferences()
    ensures Difference(CalendarDate(3, 1, 2020), CalendarDate(1, 1, 2020)) == 2
    ensures Difference(CalendarDate(1, 3, 2020), CalendarDate(28, 2, 2020)) == 2
    ensures Difference(CalendarDate(1, 3, 2019), CalendarDate(28, 2, 2019)) == 1
    ensures Difference(CalendarDate(1, 1, 2020), CalendarDate(3, 1, 2020)) == 0
  {
  }

  /** A `Date` object: the fields `set_date` overwrites. */
  class Date {
    var day: int
    var month: int
    var year: int
    var dateStr: string

    function Value(): CalendarDate
      reads this
    {
      CalendarDate(day, month, year)
    }

    constructor ()
      ensures Value() == Zero && dateStr == ""
    {
      day, month, year := 0, 0, 0;
      dateStr := "";
    }

    /** `set_date`: keeps the text, then takes the parsed fields, or zeroes
        all three when the text does not match (the source also logs it). */
    method SetDate(s: string)
      modifies this
      ensures dateStr == s
      ensures SplitDate(s).Some? ==> Value() == SplitDate(s).value
      ensures SplitDate(s).None? ==> Value() == Zero
    {
      dateStr := s;
      var parsed := SplitDate(s);
      if parsed.Some? {
        day, month, year := parsed.value.day, parsed.value.month, parsed.value.year;
      } else {
        day, month, year := 0, 0, 0;
      }
    }

    /** `to_day_number`: the year part, then one table entry per month
        before this one, then the leap day and the day of the month. */
    method DayNumber() returns (n: int)
      requires month <= 13
      ensures n == DayNumberOf(Value())
    {
      var y := year - 1;
      n := y * 365;
      n := n + Quot(y, 4) - Quot(y, 100) + Quot(y, 400);
      var m := 1;
      while m < month
        invariant 1 <= m <= (if month < 1 then 1 else month)
        invariant n == YearStart(year) + DaysBeforeMonth(m)
      {
        n := n + DaysInMonthTable[m - 1];
        m := m + 1;
      }
      assert n == YearStart(year) + DaysBeforeMonth(month);
      if month > 2 && IsLeap(year) {
        n := n + 1;
      }
      n := n + day;
    }

    /** `operator-`: 0 unless this date is strictly later than `other`,
        otherwise the difference of the two day numbers. */
    method Minus(other: Date) returns (r: int)
      requires Later(Value(), other.Value()) ==> month <= 13 && other.month <= 13
      ensures r == Difference(Value(), other.Value())
    {
      if !Later(Value(), other.Value()) {
        return 0;
      }
      var days1 := DayNumber();
      var days2 := other.DayNumber();
      r := days1 - days2;
    }
  }
}
