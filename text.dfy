/** The optional value returned where the source signals a failure with a flag. */
module Options {
  datatype Option<T> = None | Some(value: T)
}

/** Decimal digits, the integer text `std::ostream` writes, and the comma
    cutting (`find_first_of` / `substr` / `erase`) the CSV passes use. */
module Text {

  predicate IsDigit(c: char) {
    '0' <= c <= '9'
  }

  predicate AllDigits(s: string) {
    forall k :: 0 <= k < |s| ==> IsDigit(s[k])
  }

  function DigitValue(c: char): (v: nat)
    requires IsDigit(c)
    ensures v < 10
  {
    c as int - '0' as int
  }

  function DigitChar(v: nat): (c: char)
    requires v < 10
    ensures IsDigit(c) && DigitValue(c) == v
  {
    ('0' as int + v) as char
  }

  function Pow10(n: nat): (p: nat)
    ensures p >= 1
  {
    if n == 0 then 1 else 10 * Pow10(n - 1)
  }

  /** The number a run of decimal digits denotes, most significant first
      (what `std::stoi` returns for such a run). */
  function DigitsValue(s: string): (v: nat)
    requires AllDigits(s)
    ensures v < Pow10(|s|)
  {
    if s == [] then 0 else DigitsValue(s[..|s| - 1]) * 10 + DigitValue(s[|s| - 1])
  }

  /** The `w` lowest decimal digits of `n`, zero-padded on the left. */
  function Digits(n: nat, w: nat): (s: string)
    ensures |s| == w && AllDigits(s)
  {
    if w == 0 then [] else Digits(n / 10, w - 1) + [DigitChar(n % 10)]
  }

  /** Reading back a fixed-width rendering gives the number again. */
  lemma {:induction false} DigitsValueOfDigits(n: nat, w: nat)
    requires n < Pow10(w)
    ensures DigitsValue(Digits(n, w)) == n
  {
    if w > 0 {
      var s := Digits(n, w);
      assert s[..|s| - 1] == Digits(n / 10, w - 1);
      DigitsValueOfDigits(n / 10, w - 1);
    }
  }

  /** Rendering the value of a digit run at its own width gives the run again. */
  lemma {:induction false} DigitsOfDigitsValue(s: string)
    requires AllDigits(s)
    ensures Digits(DigitsValue(s), |s|) == s
  {
    if s != [] {
      var init := s[..|s| - 1];
      DigitsOfDigitsValue(init);
      var v := DigitsValue(s);
      assert v / 10 == DigitsValue(init) && v % 10 == DigitValue(s[|s| - 1]);
      assert DigitChar(DigitValue(s[|s| - 1])) == s[|s| - 1];
      assert s == init + [s[|s| - 1]];
    }
  }

  /** Decimal text of a natural number, without leading zeros. */
  function Decimal(n: nat): (s: string)
    ensures 1 <= |s| && AllDigits(s)
  {
    if n < 10 then [DigitChar(n)] else Decimal(n / 10) + [DigitChar(n % 10)]
  }

  /** A number with exactly `w` digits is written with exactly `w` digits. */
  lemma {:induction false} DecimalIsDigits(n: nat, w: nat)
    requires 1 <= w && Pow10(w - 1) <= n < Pow10(w)
    ensures Decimal(n) == Digits(n, w)
  {
    if w == 1 {
      assert Digits(n, 1) == Digits(n / 10, 0) + [DigitChar(n % 10)];
    } else {
      assert Pow10(w - 2) <= n / 10 < Pow10(w - 1);
      DecimalIsDigits(n / 10, w - 1);
    }
  }

  /** What `stream << n` writes for an `int`. */
  function IntText(n: int): (s: string)
    ensures n >= 0 ==> AllDigits(s)
    ensures n < 0 ==> |s| >= 2 && s[0] == '-'
  {
    if n < 0 then "-" + Decimal(-n) else Decimal(n)
  }

  /** `s.find_first_of(c)`, with `|s|` standing for `npos`. */
  function IndexOf(s: string, c: char): (k: nat)
    ensures k <= |s|
  {
    if s == [] then 0 else if s[0] == c then 0 else 1 + IndexOf(s[1..], c)
  }

  /** `IndexOf` finds the first occurrence, and `|s|` only when there is none. */
  lemma {:induction false} IndexOfIsFirst(s: string, c: char)
    ensures var k := IndexOf(s, c);
      && (k < |s| ==> s[k] == c)
      && (forall j :: 0 <= j < k ==> s[j] != c)
  {
    if s != [] && s[0] != c {
      IndexOfIsFirst(s[1..], c);
    }
  }

  /** `s.substr(0, s.find_first_of(','))`: the text before the first comma,
      or all of `s` when it has none. */
  function FirstField(s: string): string {
    s[..IndexOf(s, ',')]
  }

  /** `s.erase(0, s.find_first_of(',') + 1)`. When `s` has no comma,
      `npos + 1` wraps to 0 and nothing is erased. */
  function AfterFirstField(s: string): string {
    var k := IndexOf(s, ',');
    if k < |s| then s[k + 1..] else s
  }

  /** Cutting at the first comma splits the text into field, comma and
      remainder, and the field holds no comma; without a comma the text is
      left whole. */
  lemma CutAtFirstComma(s: string)
    ensures ',' !in FirstField(s)
    ensures ',' in s ==> s == FirstField(s) + "," + AfterFirstField(s)
    ensures ',' !in s ==> FirstField(s) == s && AfterFirstField(s) == s
  {
    var k := IndexOf(s, ',');
    IndexOfIsFirst(s, ',');
    if ',' in s {
      var j :| 0 <= j < |s| && s[j] == ',';
      assert k <= j;
      assert s == s[..k] + [s[k]] + s[k + 1..];
    }
  }

  /** The field cut from text that starts with a comma-free prefix and a
      comma is that prefix, and what follows is the rest. */
  lemma {:induction false} CutAfterPrefix(field: string, rest: string)
    requires ',' !in field
    ensures FirstField(field + "," + rest) == field
    ensures AfterFirstField(field + "," + rest) == rest
  {
    var s := field + "," + rest;
    IndexOfPrefix(field, rest);
  }

  lemma {:induction false} IndexOfPrefix(field: string, rest: string)
    requires ',' !in field
    ensures IndexOf(field + "," + rest, ',') == |field|
  {
    var s := field + "," + rest;
    if field != [] {
      assert s[1..] == field[1..] + "," + rest;
      IndexOfPrefix(field[1..], rest);
    }
  }
}
