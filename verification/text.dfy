/** String helpers standing in for the parts of Rust's `str` API that the domain
    layer relies on: `trim`, `contains`, `split`, `len` (a byte count), integer
    parsing, and the lexicographic `Ord` of `str`.

    Strings are sequences of Unicode scalar values. */
module Text {
  import opened Wrappers

  /** Rust's `char::is_whitespace`: the Unicode White_Space property. */
  predicate IsWhitespace(c: char) {
    var n := c as int;
    (0x09 <= n <= 0x0D) || n == 0x20 || n == 0x85 || n == 0xA0 || n == 0x1680
    || (0x2000 <= n <= 0x200A) || n == 0x2028 || n == 0x2029 || n == 0x202F
    || n == 0x205F || n == 0x3000
  }

  /** Rust's `char::is_ascii_digit`. */
  predicate IsAsciiDigit(c: char) {
    '0' <= c <= '9'
  }

  predicate AllWhitespace(s: string) {
    forall i :: 0 <= i < |s| ==> IsWhitespace(s[i])
  }

  predicate AllDigits(s: string) {
    forall i :: 0 <= i < |s| ==> IsAsciiDigit(s[i])
  }

  /** A non-empty string with no whitespace at either end: what `trim` returns
      when its result is not empty. */
  predicate IsTrimmed(s: string) {
    s != [] && !IsWhitespace(s[0]) && !IsWhitespace(s[|s| - 1])
  }

  // ---------------------------------------------------------------------------
  // trim

  /** Number of leading whitespace characters. */
  function TrimStartIndex(s: string): (k: nat)
    ensures k <= |s|
    ensures forall i :: 0 <= i < k ==> IsWhitespace(s[i])
    ensures k < |s| ==> !IsWhitespace(s[k])
    decreases |s|
  {
    if s == [] || !IsWhitespace(s[0]) then 0 else 1 + TrimStartIndex(s[1..])
  }

  /** Length of `s` without its trailing whitespace. */
  function TrimEndIndex(s: string): (k: nat)
    ensures k <= |s|
    ensures forall i :: k <= i < |s| ==> IsWhitespace(s[i])
    ensures 0 < k ==> !IsWhitespace(s[k - 1])
    decreases |s|
  {
    if s == [] || !IsWhitespace(s[|s| - 1]) then |s| else TrimEndIndex(s[..|s| - 1])
  }

  /** Rust's `str::trim`: `s` without leading and trailing whitespace. */
  function Trim(s: string): (t: string)
    ensures t == [] <==> AllWhitespace(s)
    ensures t != [] ==> IsTrimmed(t)
    ensures TrimStartIndex(s) + |t| <= |s|
    ensures t == s[TrimStartIndex(s)..TrimStartIndex(s) + |t|]
    ensures AllWhitespace(s[TrimStartIndex(s) + |t|..])
  {
    var rest := s[TrimStartIndex(s)..];
    rest[..TrimEndIndex(rest)]
  }

  /** Whitespace around a trimmed string is exactly what `trim` removes. */
  lemma TrimSurrounded(before: string, t: string, after: string)
    requires AllWhitespace(before) && AllWhitespace(after) && IsTrimmed(t)
    ensures Trim(before + t + after) == t
  {
    var s := before + t + after;
    var k := TrimStartIndex(s);
    assert s[|before|] == t[0];
    assert forall i :: 0 <= i < |before| ==> s[i] == before[i];
    assert k == |before|;
    var rest := s[k..];
    assert rest == t + after;
    var e := TrimEndIndex(rest);
    assert rest[|t| - 1] == t[|t| - 1];
    assert forall i :: |t| <= i < |rest| ==> rest[i] == after[i - |t|];
    assert e == |t|;
  }

  lemma TrimOfTrimmed(t: string)
    requires IsTrimmed(t)
    ensures Trim(t) == t
  {
    TrimSurrounded([], t, []);
    assert [] + t + [] == t;
  }

  // ---------------------------------------------------------------------------
  // split

  /** Rust's `str::split` on one character: the pieces between separators, so
      `n` separators give `n + 1` pieces, some of them possibly empty. */
  function Split(s: string, sep: char): (parts: seq<string>)
    ensures |parts| >= 1
    ensures forall i :: 0 <= i < |parts| ==> sep !in parts[i]
    ensures Join(parts, sep) == s
    decreases |s|
  {
    if s == [] then [[]]
    else
      var rest := Split(s[1..], sep);
      if s[0] == sep then
        assert ([[]] + rest)[1..] == rest;
        [[]] + rest
      else
        var parts := [[s[0]] + rest[0]] + rest[1..];
        assert parts[1..] == rest[1..];
        parts
  }

  /** The inverse of `Split`: the pieces glued back with the separator. */
  function Join(parts: seq<string>, sep: char): string
    requires |parts| >= 1
  {
    if |parts| == 1 then parts[0] else parts[0] + [sep] + Join(parts[1..], sep)
  }

  lemma {:induction false} SplitWithoutSeparator(a: string, sep: char)
    requires sep !in a
    ensures Split(a, sep) == [a]
    decreases |a|
  {
    if a != [] {
      SplitWithoutSeparator(a[1..], sep);
    }
  }

  lemma {:induction false} SplitAround(a: string, sep: char, b: string)
    requires sep !in a
    ensures Split(a + [sep] + b, sep) == [a] + Split(b, sep)
    decreases |a|
  {
    var s := a + [sep] + b;
    if a == [] {
      assert s[0] == sep && s[1..] == b;
    } else {
      assert s[0] == a[0] && s[1..] == a[1..] + [sep] + b;
      SplitAround(a[1..], sep, b);
      assert [a[0]] + a[1..] == a;
    }
  }

  /** Splitting undoes joining pieces that do not contain the separator. */
  lemma {:induction false} SplitJoin(parts: seq<string>, sep: char)
    requires |parts| >= 1
    requires forall i :: 0 <= i < |parts| ==> sep !in parts[i]
    ensures Split(Join(parts, sep), sep) == parts
    decreases |parts|
  {
    if |parts| == 1 {
      SplitWithoutSeparator(parts[0], sep);
    } else {
      SplitJoin(parts[1..], sep);
      SplitAround(parts[0], sep, Join(parts[1..], sep));
      assert [parts[0]] + parts[1..] == parts;
    }
  }

  // ---------------------------------------------------------------------------
  // decimal digits and integer parsing

  function DigitValue(c: char): (d: nat)
    requires IsAsciiDigit(c)
    ensures d < 10
  {
    c as int - '0' as int
  }

  function DigitChar(d: nat): (c: char)
    requires d < 10
    ensures IsAsciiDigit(c) && DigitValue(c) == d
  {
    ('0' as int + d) as char
  }

  /** The number a string of decimal digits denotes (leading zeros allowed). */
  function DigitsValue(s: string): nat
    requires AllDigits(s)
    decreases |s|
  {
    if s == [] then 0 else 10 * DigitsValue(s[..|s| - 1]) + DigitValue(s[|s| - 1])
  }

  /** One or more decimal digits, nothing else. */
  function ParseDigits(s: string): (r: Option<nat>)
    ensures r.Some? <==> s != [] && AllDigits(s)
  {
    if s != [] && AllDigits(s) then Some(DigitsValue(s)) else None
  }

  /** The texts Rust's integer `parse` accepts: one or more decimal digits,
      optionally after a `+`, or after a `-` when the type is signed. */
  predicate IsIntegerText(s: string, signed: bool) {
    || (s != [] && AllDigits(s))
    || (|s| > 1 && (s[0] == '+' || (signed && s[0] == '-')) && AllDigits(s[1..]))
  }

  /** Rust's `str::parse` for an integer type: an optional `+` (or `-` when the
      type is signed) followed by one or more decimal digits. Range overflow of
      the fixed-width type is not modelled. */
  function ParseInteger(s: string, signed: bool): (r: Option<int>)
    ensures r.Some? <==> IsIntegerText(s, signed)
    ensures s != [] && AllDigits(s) ==> r == Some(DigitsValue(s) as int)
    ensures r.Some? && s != [] && s[0] == '+' ==> r.value == DigitsValue(s[1..]) as int
    ensures r.Some? && s != [] && s[0] == '-' ==> r.value == -(DigitsValue(s[1..]) as int)
    ensures r.Some? && r.value < 0 ==> signed && s != [] && s[0] == '-'
  {
    if s != [] && s[0] == '+' then
      match ParseDigits(s[1..])
      case Some(n) => Some(n as int)
      case None => None
    else if signed && s != [] && s[0] == '-' then
      match ParseDigits(s[1..])
      case Some(n) => Some(-(n as int))
      case None => None
    else
      match ParseDigits(s)
      case Some(n) => Some(n as int)
      case None => None
  }

  function Pow10(n: nat): (p: nat)
    ensures p >= 1
  {
    if n == 0 then 1 else 10 * Pow10(n - 1)
  }

  /** `n` written with exactly `width` decimal digits, zero-padded on the left. */
  function PadDigits(n: nat, width: nat): (s: string)
    requires n < Pow10(width)
    ensures |s| == width && AllDigits(s)
  {
    if width == 0 then [] else PadDigits(n / 10, width - 1) + [DigitChar(n % 10)]
  }

  /** Parsing a zero-padded rendering gives the number back. */
  lemma {:induction false} PadDigitsValue(n: nat, width: nat)
    requires n < Pow10(width)
    ensures DigitsValue(PadDigits(n, width)) == n
    decreases width
  {
    if width > 0 {
      var s := PadDigits(n, width);
      PadDigitsValue(n / 10, width - 1);
      assert s[..|s| - 1] == PadDigits(n / 10, width - 1);
    }
  }

  // ---------------------------------------------------------------------------
  // decimal floating-point notation

  /** 10 raised to an integer power, as a real. */
  function Power10(x: int): (p: real)
    ensures p > 0.0
  {
    if x >= 0 then Pow10(x) as real else 1.0 / (Pow10(-x) as real)
  }

  /** Index of the first 'e' or 'E' in `s`, or `|s|` when there is none. */
  function ExponentIndex(s: string): (k: nat)
    ensures k <= |s|
    ensures forall i :: 0 <= i < k ==> s[i] != 'e' && s[i] != 'E'
    ensures k < |s| ==> s[k] == 'e' || s[k] == 'E'
    decreases |s|
  {
    if s == [] || s[0] == 'e' || s[0] == 'E' then 0 else 1 + ExponentIndex(s[1..])
  }

  /** Digits with at most one '.', and at least one digit on some side of it. */
  function ParseMantissa(m: string): Option<real> {
    var parts := Split(m, '.');
    if |parts| == 1 then
      match ParseDigits(m)
      case Some(n) => Some(n as real)
      case None => None
    else if |parts| == 2 && AllDigits(parts[0]) && AllDigits(parts[1]) && |parts[0]| + |parts[1]| > 0 then
      Some(FractionValue(parts[0], parts[1]))
    else None
  }

  /** The value of the digits `a`, a decimal point, and the digits `b`. */
  function FractionValue(a: string, b: string): (v: real)
    requires AllDigits(a) && AllDigits(b)
    ensures v >= 0.0
  {
    DigitsValue(a) as real + DigitsValue(b) as real / Pow10(|b|) as real
  }

  /** An unsigned decimal number: a mantissa, optionally followed by 'e' or 'E'
      and a signed integer exponent. */
  function ParseUnsignedDecimal(s: string): Option<real> {
    var k := ExponentIndex(s);
    match ParseMantissa(s[..k])
    case None => None
    case Some(m) =>
      if k == |s| then Some(m)
      else
        match ParseInteger(s[k + 1..], true)
        case Some(x) => Some(m * Power10(x))
        case None => None
  }

  /** Rust's `str::parse::<f64>` on decimal notation: an optional sign, then an
      unsigned decimal number. The special spellings `inf`, `infinity` and `nan`
      and rounding to the nearest double are not part of this model. */
  function ParseDecimal(s: string): Option<real> {
    if s != [] && (s[0] == '+' || s[0] == '-') then
      match ParseUnsignedDecimal(s[1..])
      case Some(v) => Some(if s[0] == '-' then -v else v)
      case None => None
    else ParseUnsignedDecimal(s)
  }

  /** The texts Rust's `f64` parse accepts in decimal notation: an optional
      sign, then an unsigned number. */
  predicate IsDecimalText(s: string) {
    if s != [] && (s[0] == '+' || s[0] == '-') then IsUnsignedDecimalText(s[1..])
    else IsUnsignedDecimalText(s)
  }

  /** A mantissa, then optionally 'e' or 'E' and a signed integer exponent. */
  predicate IsUnsignedDecimalText(u: string) {
    var k := ExponentIndex(u);
    IsMantissaText(u[..k]) && (k == |u| || IsIntegerText(u[k + 1..], true))
  }

  /** Decimal digits with at most one '.', and at least one digit. */
  predicate IsMantissaText(m: string) {
    && m != [] && m != "."
    && (forall i :: 0 <= i < |m| ==> IsAsciiDigit(m[i]) || m[i] == '.')
    && (forall i, j :: 0 <= i < j < |m| && m[i] == '.' ==> m[j] != '.')
  }

  /** `ParseDecimal` accepts exactly the decimal-notation texts. */
  lemma ParseDecimalMeaning(s: string)
    ensures ParseDecimal(s).Some? <==> IsDecimalText(s)
  {
    if s != [] && (s[0] == '+' || s[0] == '-') {
      ParseUnsignedMeaning(s[1..]);
    } else {
      ParseUnsignedMeaning(s);
    }
  }

  lemma ParseUnsignedMeaning(u: string)
    ensures ParseUnsignedDecimal(u).Some? <==> IsUnsignedDecimalText(u)
  {
    ParseMantissaMeaning(u[..ExponentIndex(u)]);
  }

  /** `ParseMantissa` accepts exactly the mantissa texts. */
  lemma ParseMantissaMeaning(m: string)
    ensures ParseMantissa(m).Some? <==> IsMantissaText(m)
  {
    if '.' !in m {
      SplitWithoutSeparator(m, '.');
      if IsMantissaText(m) {
        assert AllDigits(m);
      }
    } else {
      var p := FirstIndex(m, '.');
      var a, b := m[..p], m[p + 1..];
      assert m == a + ['.'] + b;
      SplitAround(a, '.', b);
      if '.' in b {
        SplitHasTwo(b, '.');
        var q := FirstIndex(b, '.');
        assert m[p + 1 + q] == '.';
      } else {
        SplitWithoutSeparator(b, '.');
        MantissaOnePoint(m, p);
      }
    }
  }

  /** A text with a single '.' is a mantissa exactly when the text around the
      point is digits, and not empty on both sides. */
  lemma MantissaOnePoint(m: string, p: nat)
    requires p < |m| && m[p] == '.' && '.' !in m[..p] && '.' !in m[p + 1..]
    ensures IsMantissaText(m) <==> AllDigits(m[..p]) && AllDigits(m[p + 1..]) && |m| > 1
  {
    var a, b := m[..p], m[p + 1..];
    assert forall i :: 0 <= i < p ==> m[i] == a[i];
    assert forall i :: p < i < |m| ==> m[i] == b[i - p - 1];
    if AllDigits(a) && AllDigits(b) && |m| > 1 {
      assert forall i :: 0 <= i < |m| ==> IsAsciiDigit(m[i]) || m[i] == '.';
      assert forall i :: 0 <= i < |m| && m[i] == '.' ==> i == p;
    }
  }

  /** Index of the first `c` in `s`, or `|s|` when there is none. */
  function FirstIndex(s: string, c: char): (k: nat)
    ensures k <= |s|
    ensures forall i :: 0 <= i < k ==> s[i] != c
    ensures k < |s| <==> c in s
    ensures k < |s| ==> s[k] == c
    decreases |s|
  {
    if s == [] || s[0] == c then 0 else 1 + FirstIndex(s[1..], c)
  }

  /** A text containing the separator splits into at least two pieces. */
  lemma {:induction false} SplitHasTwo(s: string, sep: char)
    requires sep in s
    ensures |Split(s, sep)| >= 2
    decreases |s|
  {
    if s[0] != sep {
      assert sep in s[1..];
      SplitHasTwo(s[1..], sep);
    }
  }

  lemma ParseMantissaNonNegative(m: string)
    ensures ParseMantissa(m).Some? ==> ParseMantissa(m).value >= 0.0
  {
  }

  /** A number in decimal notation starts with a sign, a digit or a '.'; in
      particular a letter can never start one. */
  lemma ParseDecimalFirstChar(s: string)
    requires ParseDecimal(s).Some?
    ensures s != [] && (s[0] == '+' || s[0] == '-' || s[0] == '.' || IsAsciiDigit(s[0]))
  {
    if s != [] && s[0] != '+' && s[0] != '-' && s[0] != '.' && !IsAsciiDigit(s[0]) {
      var k := ExponentIndex(s);
      var m := s[..k];
      assert k > 0 && m[0] == s[0];
      var parts := Split(m, '.');
      SplitFirstPart(m, '.');
      assert parts[0] != [] && parts[0][0] == s[0];
      assert !AllDigits(parts[0]);
      assert ParseMantissa(m).None?;
    }
  }

  /** The first piece of a split starts with the first character of the text,
      unless that character is the separator. */
  lemma {:induction false} SplitFirstPart(s: string, sep: char)
    requires s != [] && s[0] != sep
    ensures Split(s, sep)[0] != [] && Split(s, sep)[0][0] == s[0]
  {
  }

  /** The sign of a parsed number is the sign written in front of it. */
  lemma ParseDecimalSign(s: string)
    requires ParseDecimal(s).Some? && ParseDecimal(s).value < 0.0
    ensures s != [] && s[0] == '-'
  {
    if s != [] && s[0] == '+' {
      ParseUnsignedNonNegative(s[1..]);
    } else if s == [] || s[0] != '-' {
      ParseUnsignedNonNegative(s);
    }
  }

  lemma ParseUnsignedNonNegative(s: string)
    ensures ParseUnsignedDecimal(s).Some? ==> ParseUnsignedDecimal(s).value >= 0.0
  {
    ParseMantissaNonNegative(s[..ExponentIndex(s)]);
  }

  /** Without an 'e' or 'E' the whole text is the mantissa. */
  lemma WithoutExponent(s: string)
    requires forall i :: 0 <= i < |s| ==> s[i] != 'e' && s[i] != 'E'
    ensures ParseUnsignedDecimal(s) == ParseMantissa(s)
  {
    assert ExponentIndex(s) == |s|;
    assert s[..|s|] == s;
  }

  /** A plain string of digits parses to the integer it denotes. */
  lemma ParseDecimalOfDigits(s: string)
    requires s != [] && AllDigits(s)
    ensures ParseDecimal(s) == Some(DigitsValue(s) as real)
  {
    WithoutExponent(s);
    SplitWithoutSeparator(s, '.');
  }

  lemma ParseMantissaOfParts(m: string, a: string, b: string)
    requires Split(m, '.') == [a, b] && AllDigits(a) && AllDigits(b) && |a| + |b| > 0
    ensures ParseMantissa(m) == Some(FractionValue(a, b))
  {
  }

  lemma SplitAtPoint(a: string, b: string)
    requires '.' !in a && '.' !in b
    ensures Split(a + ['.'] + b, '.') == [a, b]
  {
    SplitAround(a, '.', b);
    SplitWithoutSeparator(b, '.');
  }

  /** A digit string, a '.', and another digit string parse to the integer part
      plus the fraction the second one denotes. */
  lemma ParseDecimalOfFraction(a: string, b: string)
    requires a != [] && AllDigits(a) && AllDigits(b)
    ensures ParseDecimal(a + "." + b) == Some(FractionValue(a, b))
  {
    var s := a + "." + b;
    assert s == a + ['.'] + b;
    assert '.' !in a && '.' !in b;
    SplitAtPoint(a, b);
    ParseMantissaOfParts(s, a, b);
    WithoutExponent(s);
    assert s[0] == a[0];
  }

  /** A '-' in front of an unsigned number negates it. */
  lemma ParseDecimalNegated(s: string)
    requires s != [] && (IsAsciiDigit(s[0]) || s[0] == '.')
    ensures ParseDecimal(['-'] + s) == if ParseDecimal(s).Some? then Some(-ParseDecimal(s).value) else None
  {
    assert (['-'] + s)[1..] == s;
  }

  // ---------------------------------------------------------------------------
  // UTF-8 length

  /** Number of bytes UTF-8 uses for `c`. */
  function CharUtf8Len(c: char): (n: nat)
    ensures 1 <= n <= 4
    ensures n == 1 <==> c as int < 0x80
  {
    if c as int < 0x80 then 1
    else if c as int < 0x800 then 2
    else if c as int < 0x10000 then 3
    else 4
  }

  /** Rust's `str::len`: the length of the UTF-8 encoding in bytes. */
  function Utf8Len(s: string): nat
  {
    if s == [] then 0 else CharUtf8Len(s[0]) + Utf8Len(s[1..])
  }

  /** ASCII text has as many bytes as characters. */
  lemma {:induction false} DigitsUtf8Len(s: string)
    requires AllDigits(s)
    ensures Utf8Len(s) == |s|
  {
    if s != [] {
      DigitsUtf8Len(s[1..]);
    }
  }

  // ---------------------------------------------------------------------------
  // lexicographic order (Rust's `Ord` for `str`)

  /** `a <= b` in the lexicographic order on scalar values, which is the order
      Rust's byte-wise comparison of UTF-8 gives. */
  predicate StrLe(a: string, b: string)
    decreases |a|
  {
    a == [] || (b != [] && (a[0] < b[0] || (a[0] == b[0] && StrLe(a[1..], b[1..]))))
  }

  predicate StrLt(a: string, b: string) {
    StrLe(a, b) && a != b
  }

  lemma {:induction false} StrLeReflexive(a: string)
    ensures StrLe(a, a)
    decreases |a|
  {
    if a != [] {
      StrLeReflexive(a[1..]);
    }
  }

  lemma {:induction false} StrLeAntisymmetric(a: string, b: string)
    requires StrLe(a, b) && StrLe(b, a)
    ensures a == b
    decreases |a|
  {
    if a != [] && b != [] {
      StrLeAntisymmetric(a[1..], b[1..]);
      assert a == [a[0]] + a[1..] && b == [b[0]] + b[1..];
    }
  }

  lemma {:induction false} StrLeTransitive(a: string, b: string, c: string)
    requires StrLe(a, b) && StrLe(b, c)
    ensures StrLe(a, c)
    decreases |a|
  {
    if a != [] && b != [] && c != [] && a[0] == b[0] == c[0] {
      StrLeTransitive(a[1..], b[1..], c[1..]);
    }
  }

  /** Strictly before is never also at-or-after. */
  lemma {:induction false} StrLtAsymmetric(a: string, b: string)
    requires StrLt(a, b)
    ensures !StrLe(b, a)
    decreases |a|
  {
    if a != [] && b != [] && a[0] == b[0] {
      assert a[1..] != b[1..] by {
        assert a == [a[0]] + a[1..] && b == [b[0]] + b[1..];
      }
      StrLtAsymmetric(a[1..], b[1..]);
    }
  }

  lemma {:induction false} StrLeTotal(a: string, b: string)
    ensures StrLe(a, b) || StrLe(b, a)
    decreases |a|
  {
    if a != [] && b != [] && a[0] == b[0] {
      StrLeTotal(a[1..], b[1..]);
    }
  }
}
