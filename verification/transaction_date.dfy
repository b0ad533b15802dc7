/** `TransactionDate` (src/domain/value_objects/transaction_date.rs): a date
    kept as the text it was written in, after checking that the text is
    year, month and day separated by '-', '/' or '.', and names a real day
    between 1900 and 2100.

    Ordering and equality are those of the stored text (the Rust type derives
    `Ord` on its `String`), not of the calendar. */
module TransactionDates {
  import opened Wrappers
  import opened Text

  // ---------------------------------------------------------------------------
  // the calendar, as a reference

  /** Gregorian leap years: every fourth year, except centuries not divisible by 400. */
  predicate IsLeapYear(y: int) {
    (y % 4 == 0 && y % 100 != 0) || y % 400 == 0
  }

  /** Month lengths from the calendar table. */
  function DaysInMonth(y: int, m: int): int
    requires 1 <= m <= 12
  {
    [31, if IsLeapYear(y) then 29 else 28, 31, 30, 31, 30, 31, 31, 30, 31, 30, 31][m - 1]
  }

  /** A day the validator accepts: year 1900..2100, month 1..12, and a day that
      exists in that month of that year. */
  predicate IsCalendarDate(y: int, m: int, d: int) {
    1900 <= y <= 2100 && 1 <= m <= 12 && 1 <= d <= DaysInMonth(y, m)
  }

  // ---------------------------------------------------------------------------
  // reading the text

  /** The separator the validator picks: '-' if the text has one, else '/',
      else '.'; none at all when the text has none of the three. */
  function SeparatorOf(s: string): (r: Option<char>)
    ensures r.None? <==> '-' !in s && '/' !in s && '.' !in s
    ensures r.Some? ==> r.value in s
    ensures r == Some('-') <==> '-' in s
    ensures r == Some('/') <==> '-' !in s && '/' in s
    ensures r == Some('.') <==> '-' !in s && '/' !in s && '.' in s
  {
    if '-' in s then Some('-')
    else if '/' in s then Some('/')
    else if '.' in s then Some('.')
    else None
  }

  /** The numbers the text names, when it splits into exactly three parts that
      each parse: the year as a signed integer, month and day as unsigned ones. */
  function FieldsOf(s: string): Option<(int, int, int)> {
    match SeparatorOf(s)
    case None => None
    case Some(sep) =>
      var parts := Split(s, sep);
      if |parts| == 3 && ParseInteger(parts[0], true).Some?
         && ParseInteger(parts[1], false).Some? && ParseInteger(parts[2], false).Some?
      then Some((ParseInteger(parts[0], true).value, ParseInteger(parts[1], false).value,
                 ParseInteger(parts[2], false).value))
      else None
  }

  /** `TransactionDate::is_valid_date_format`: the checks in the order the
      source makes them. `ValidDateFormatMeaning` states what it accepts. */
  predicate IsValidDateFormat(s: string) {
    match SeparatorOf(s)
    case None => false
    case Some(sep) =>
      var parts := Split(s, sep);
      if |parts| != 3 then false
      else
        match (ParseInteger(parts[0], true), ParseInteger(parts[1], false), ParseInteger(parts[2], false))
        case (Some(year), Some(month), Some(day)) =>
          if !(1900 <= year <= 2100) then false
          else if !(1 <= month <= 12) then false
          else if day < 1 then false
          else
            var maxDay :=
              if month in {1, 3, 5, 7, 8, 10, 12} then 31
              else if month in {4, 6, 9, 11} then 30
              else if month == 2 then (if (year % 4 == 0 && year % 100 != 0) || year % 400 == 0 then 29 else 28)
              else 0;
            day <= maxDay
        case _ => false
  }

  /** The validator accepts exactly the texts whose three fields form a
      calendar date. */
  lemma ValidDateFormatMeaning(s: string)
    ensures IsValidDateFormat(s) <==>
      FieldsOf(s).Some? && IsCalendarDate(FieldsOf(s).value.0, FieldsOf(s).value.1, FieldsOf(s).value.2)
  {
  }

  /** A date that passed validation, kept as its trimmed text. */
  type TransactionDate = s: string | IsValidDateFormat(s) witness EarliestDate()

  /** "1900-01-01", the first day the validator accepts. */
  function EarliestDate(): (s: string)
    ensures IsValidDateFormat(s)
  {
    FormatFields(1900, 1, 1, '-');
    Format(1900, 1, 1, '-')
  }

  /** `TransactionDate::new`: blank text is rejected, so is text that is not a
      valid date; otherwise the trimmed text itself is the date. */
  function New(date: string): (r: Result<TransactionDate>)
    ensures r.Success? <==> IsValidDateFormat(Trim(date))
    ensures r.Success? ==> r.value == Trim(date)
    ensures AllWhitespace(date) ==> r == Failure(Blank("date"))
    ensures !AllWhitespace(date) && r.Failure? ==> r == Failure(MalformedDate(Trim(date)))
  {
    var t := Trim(date);
    if t == [] then Failure(Blank("date"))
    else if !IsValidDateFormat(t) then Failure(MalformedDate(t))
    else Success(t)
  }

  function Value(d: TransactionDate): string {
    d
  }

  /** The derived `<` on dates: lexicographic order of the stored texts. */
  predicate Less(a: TransactionDate, b: TransactionDate) {
    StrLt(a, b)
  }

  // ---------------------------------------------------------------------------
  // canonical texts

  /** `y`, `m` and `d` written as YYYY, MM and DD with the separator between them. */
  function Format(y: nat, m: nat, d: nat, sep: char): string
    requires y < 10000 && m < 100 && d < 100
  {
    assert Pow10(4) == 10000 && Pow10(2) == 100;
    PadDigits(y, 4) + [sep] + PadDigits(m, 2) + [sep] + PadDigits(d, 2)
  }

  /** Three separator-free pieces joined by the separator split back into
      those pieces. */
  lemma SplitThree(a: string, b: string, c: string, sep: char)
    requires sep !in a && sep !in b && sep !in c
    ensures Split(a + [sep] + b + [sep] + c, sep) == [a, b, c]
  {
    var bc := b + [sep] + c;
    SplitWithoutSeparator(c, sep);
    SplitAround(b, sep, c);
    assert Split(bc, sep) == [b, c];
    SplitAround(a, sep, bc);
    assert a + [sep] + b + [sep] + c == a + [sep] + bc;
  }

  /** Reading a canonical text gives back the three numbers it was written from. */
  lemma FormatFields(y: nat, m: nat, d: nat, sep: char)
    requires y < 10000 && m < 100 && d < 100
    requires sep == '-' || sep == '/' || sep == '.'
    ensures FieldsOf(Format(y, m, d, sep)) == Some((y as int, m as int, d as int))
  {
    assert Pow10(4) == 10000 && Pow10(2) == 100;
    var a, b, c := PadDigits(y, 4), PadDigits(m, 2), PadDigits(d, 2);
    var s := Format(y, m, d, sep);
    assert sep !in a && sep !in b && sep !in c;
    assert s[4] == sep;
    assert SeparatorOf(s) == Some(sep) by {
      assert forall i :: 0 <= i < |s| ==> IsAsciiDigit(s[i]) || s[i] == sep;
    }
    SplitThree(a, b, c, sep);
    PadDigitsValue(y, 4);
    PadDigitsValue(m, 2);
    PadDigitsValue(d, 2);
  }

  /** A canonical text is a date exactly when its numbers form a calendar date,
      and the date then keeps that text; surrounding whitespace is dropped. */
  lemma {:induction false} CanonicalTextRoundTrip(before: string, y: nat, m: nat, d: nat, sep: char, after: string)
    requires y < 10000 && m < 100 && d < 100
    requires sep == '-' || sep == '/' || sep == '.'
    requires AllWhitespace(before) && AllWhitespace(after)
    ensures New(before + Format(y, m, d, sep) + after).Success? <==> IsCalendarDate(y, m, d)
    ensures IsCalendarDate(y, m, d) ==> New(before + Format(y, m, d, sep) + after) == Success(Format(y, m, d, sep))
  {
    var s := Format(y, m, d, sep);
    assert Pow10(4) == 10000 && Pow10(2) == 100;
    assert s[0] == PadDigits(y, 4)[0] && s[|s| - 1] == PadDigits(d, 2)[1];
    TrimSurrounded(before, s, after);
    FormatFields(y, m, d, sep);
    ValidDateFormatMeaning(s);
  }

  /** February 29th is a date exactly in leap years. */
  lemma LeapDay(y: nat, sep: char)
    requires 1900 <= y <= 2100
    requires sep == '-' || sep == '/' || sep == '.'
    ensures New(Format(y, 2, 29, sep)).Success? <==> IsLeapYear(y)
  {
    var s := Format(y, 2, 29, sep);
    CanonicalTextRoundTrip([], y, 2, 29, sep, []);
    assert [] + s + [] == s;
    FebruaryLength(y);
  }

  lemma FebruaryLength(y: int)
    ensures IsCalendarDate(y, 2, 29) <==> 1900 <= y <= 2100 && IsLeapYear(y)
  {
    assert DaysInMonth(y, 2) == if IsLeapYear(y) then 29 else 28;
  }

  // ---------------------------------------------------------------------------
  // examples

  /** A canonical text with nothing around it. */
  lemma Canonical(y: nat, m: nat, d: nat, sep: char)
    requires y < 10000 && m < 100 && d < 100
    requires sep == '-' || sep == '/' || sep == '.'
    ensures New(Format(y, m, d, sep)).Success? <==> IsCalendarDate(y, m, d)
    ensures IsCalendarDate(y, m, d) ==> New(Format(y, m, d, sep)) == Success(Format(y, m, d, sep))
  {
    CanonicalTextRoundTrip([], y, m, d, sep, []);
    assert [] + Format(y, m, d, sep) + [] == Format(y, m, d, sep);
  }

  // renderings of the texts the examples use

  lemma Year2024()
    ensures PadDigits(2024, 4) == "2024"
  {
    assert Pow10(4) == 10000;
    assert PadDigits(20, 2) == "20";
    assert PadDigits(202, 3) == "202";
  }

  lemma Year2023()
    ensures PadDigits(2023, 4) == "2023"
  {
    assert Pow10(4) == 10000;
    assert PadDigits(20, 2) == "20";
    assert PadDigits(202, 3) == "202";
  }

  lemma TwoDigitTexts()
    ensures PadDigits(1, 2) == "01" && PadDigits(2, 2) == "02" && PadDigits(12, 2) == "12"
    ensures PadDigits(13, 2) == "13" && PadDigits(15, 2) == "15" && PadDigits(29, 2) == "29"
    ensures PadDigits(31, 2) == "31" && PadDigits(32, 2) == "32"
  {
    assert Pow10(2) == 100;
  }

  lemma Text20240115Hyphen()
    ensures Format(2024, 1, 15, '-') == "2024-01-15"
  {
    Year2024();
    TwoDigitTexts();
  }

  lemma Text20240115Slash()
    ensures Format(2024, 1, 15, '/') == "2024/01/15"
  {
    Year2024();
    TwoDigitTexts();
  }

  lemma Text20240115Dot()
    ensures Format(2024, 1, 15, '.') == "2024.01.15"
  {
    Year2024();
    TwoDigitTexts();
  }

  lemma Text20240229Hyphen()
    ensures Format(2024, 2, 29, '-') == "2024-02-29"
  {
    Year2024();
    TwoDigitTexts();
  }

  lemma Text20230229Hyphen()
    ensures Format(2023, 2, 29, '-') == "2023-02-29"
  {
    Year2023();
    TwoDigitTexts();
  }

  lemma Text20241301Hyphen()
    ensures Format(2024, 13, 1, '-') == "2024-13-01"
  {
    Year2024();
    TwoDigitTexts();
  }

  lemma Text20240132Hyphen()
    ensures Format(2024, 1, 32, '-') == "2024-01-32"
  {
    Year2024();
    TwoDigitTexts();
  }

  lemma Text20241231Hyphen()
    ensures Format(2024, 12, 31, '-') == "2024-12-31"
  {
    Year2024();
    TwoDigitTexts();
  }

  lemma Text20240101Slash()
    ensures Format(2024, 1, 1, '/') == "2024/01/01"
  {
    Year2024();
    TwoDigitTexts();
  }

  /** '-' separates the fields; the text is kept as written. */
  lemma HyphenExample()
    ensures New("2024-01-15") == Success("2024-01-15")
  {
    Text20240115Hyphen();
    Canonical(2024, 1, 15, '-');
  }

  /** '/' separates the fields; the text is kept as written. */
  lemma SlashExample()
    ensures New("2024/01/15") == Success("2024/01/15")
  {
    Text20240115Slash();
    Canonical(2024, 1, 15, '/');
  }

  /** '.' separates the fields; the text is kept as written. */
  lemma DotExample()
    ensures New("2024.01.15") == Success("2024.01.15")
  {
    Text20240115Dot();
    Canonical(2024, 1, 15, '.');
  }

  /** February 29th exists in 2024, a leap year. */
  lemma LeapYearExample()
    ensures New("2024-02-29") == Success("2024-02-29")
  {
    Text20240229Hyphen();
    FebruaryLength(2024);
    assert IsLeapYear(2024);
    Canonical(2024, 2, 29, '-');
  }

  /** February 29th does not exist in 2023, a common year. */
  lemma CommonYearExample()
    ensures New("2023-02-29").Failure?
  {
    Text20230229Hyphen();
    FebruaryLength(2023);
    assert !IsLeapYear(2023);
    Canonical(2023, 2, 29, '-');
  }

  /** There is no 13th month. */
  lemma MonthRangeExample()
    ensures New("2024-13-01").Failure?
  {
    Text20241301Hyphen();
    Canonical(2024, 13, 1, '-');
  }

  /** January has no 32nd day. */
  lemma DayRangeExample()
    ensures New("2024-01-32").Failure?
  {
    Text20240132Hyphen();
    assert !IsCalendarDate(2024, 1, 32);
    Canonical(2024, 1, 32, '-');
  }

  /** Dates compare as text: January 15th comes before February 20th. */
  lemma OrderingExample()
    ensures StrLt("2024-01-15", "2024-02-20")
  {
  }

  /** The last day of 2024, written with '-'. */
  lemma YearEndExample()
    ensures New("2024-12-31") == Success("2024-12-31")
  {
    Text20241231Hyphen();
    Canonical(2024, 12, 31, '-');
  }

  /** The first day of 2024, written with '/'. */
  lemma NewYearExample()
    ensures New("2024/01/01") == Success("2024/01/01")
  {
    Text20240101Slash();
    Canonical(2024, 1, 1, '/');
  }

  /** The order is that of the text, not of the calendar: December 31st written
      with '-' sorts before January 1st of the same year written with '/',
      because '-' comes before '/'. */
  lemma TextOrderIsNotCalendarOrder()
    ensures New("2024-12-31").Success? && New("2024/01/01").Success?
    ensures Less(New("2024-12-31").value, New("2024/01/01").value)
  {
    YearEndExample();
    NewYearExample();
    HyphenSortsBeforeSlash();
  }

  lemma HyphenSortsBeforeSlash()
    ensures StrLt("2024-12-31", "2024/01/01")
  {
    assert "2024-12-31"[1..] == "024-12-31";
  }

  /** Empty text and text without a separator are rejected. */
  lemma FormatExamples()
    ensures New("") == Failure(Blank("date"))
    ensures New("20240115").Failure?
  {
    TrimOfTrimmed("20240115");
    assert SeparatorOf("20240115") == None;
  }
}
