/** The per-line rewrite of `modify_dates`: the first CSV field's day and
    month are kept, the year is taken from the `YYYY-YYYY` season in the
    file name, and the field is written back as `DD.MM.YYYY.` for the date
    parser of the later passes. */
module DateRewrite {
  import opened Options
  import opened Text
  import opened Calendar

  /** The year of a row in season `firstYear-secondYear`: the first half for
      months after August, the second half otherwise. */
  function SeasonYear(month: int, firstYear: int, secondYear: int): int {
    if month > 8 then firstYear else secondYear
  }

  /** A day or month as the stream writes it: a `0` in front of values
      below 10. */
  function Padded(n: int): string {
    if n < 10 then "0" + IntText(n) else IntText(n)
  }

  /** The rewritten first field, with its closing dot. */
  function DateField(day: int, month: int, year: int): string {
    Padded(day) + "." + Padded(month) + "." + IntText(year) + "."
  }

  /** One data line of `modify_dates`. `day` and `month` are what `std::stoi`
      read from the line's first field, `firstYear` and `secondYear` what it
      read from the two halves of the file-name stem. Everything after the
      first comma is kept; a line without a comma is kept whole (the erase
      count wraps to zero). */
  function RewriteLine(line: string, day: int, month: int, firstYear: int, secondYear: int): string {
    DateField(day, month, SeasonYear(month, firstYear, secondYear)) + "," + AfterFirstField(line)
  }

  lemma PaddedIsTwoDigits(n: int)
    requires 0 <= n <= 99
    ensures Padded(n) == Digits(n, 2)
  {
    assert Pow10(1) == 10 && Pow10(2) == 100;
    if n < 10 {
      assert Digits(n, 2) == Digits(0, 1) + [DigitChar(n)];
    } else {
      DecimalIsDigits(n, 2);
    }
  }

  lemma FourDigitYear(y: int)
    requires 1000 <= y <= 9999
    ensures IntText(y) == Digits(y, 4)
  {
    assert Pow10(3) == 1000 && Pow10(4) == 10000;
    DecimalIsDigits(y, 4);
  }

  /** For a day and a month of at most two digits and four-digit season
      years, the field written for a line parses back to that day and month
      and to the first season year when the month is after August, the
      second otherwise; and the rest of the line after its first field is
      unchanged. */
  lemma RewriteRoundTrip(line: string, day: int, month: int, firstYear: int, secondYear: int)
    requires 0 <= day <= 99 && 0 <= month <= 99
    requires 1000 <= firstYear <= 9999 && 1000 <= secondYear <= 9999
    ensures var out := RewriteLine(line, day, month, firstYear, secondYear);
      && SplitDate(FirstField(out)) == Some(CalendarDate(day, month, if month > 8 then firstYear else secondYear))
      && AfterFirstField(out) == AfterFirstField(line)
  {
    var year := SeasonYear(month, firstYear, secondYear);
    var d := CalendarDate(day, month, year);
    PaddedIsTwoDigits(day);
    PaddedIsTwoDigits(month);
    FourDigitYear(year);
    var field := DateField(day, month, year);
    assert field == PatternText(d) + ".";
    SplitDateAccepts(d, '.');
    assert ',' !in field by {
      forall k | 0 <= k < |field| ensures field[k] != ',' {
        assert field[k] in PatternText(d) + ".";
      }
    }
    CutAfterPrefix(field, AfterFirstField(line));
  }
}
