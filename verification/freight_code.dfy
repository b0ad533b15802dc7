/** `FreightCode` (src/domain/value_objects/freight_code.rs): how a purchase
    names its freight charge, either as the code of a freight-master row ('T'
    and four digits) or as a price per kilogram written directly. */
module FreightCodes {
  import opened Wrappers
  import opened Text

  /** Values built with the constructors directly may hold any code or price;
      only `New` checks them. */
  datatype FreightCode = Code(code: string) | DirectPrice(price: real)

  /** 'T' followed by exactly four ASCII digits. */
  predicate IsCodeText(t: string) {
    |t| == 5 && t[0] == 'T' && AllDigits(t[1..])
  }

  /** The source measures the code in UTF-8 bytes: 'T' followed by four digits
      is the same as a text starting with 'T', five bytes long, whose last four
      characters are digits. */
  lemma ByteLengthCheck(t: string)
    ensures IsCodeText(t) <==> t != [] && t[0] == 'T' && Utf8Len(t) == 5 && AllDigits(t[1..])
  {
    if t != [] {
      assert Utf8Len(t) == CharUtf8Len(t[0]) + Utf8Len(t[1..]);
      if AllDigits(t[1..]) {
        DigitsUtf8Len(t[1..]);
      }
    }
  }

  /** `FreightCode::new`: blank text is rejected; text that reads as a number
      becomes a direct price, unless it is negative; otherwise the text must be
      'T' and four digits, and is kept as a code. The number check comes first. */
  function New(value: string): (r: Result<FreightCode>)
    ensures AllWhitespace(value) ==> r == Failure(Blank("freight code"))
    ensures ParseDecimal(Trim(value)).Some? ==>
              r == if ParseDecimal(Trim(value)).value < 0.0
                   then Failure(Negative("freight price", ParseDecimal(Trim(value)).value))
                   else Success(DirectPrice(ParseDecimal(Trim(value)).value))
    ensures ParseDecimal(Trim(value)).None? ==>
              (r.Success? <==> IsCodeText(Trim(value))) && (r.Success? ==> r.value == Code(Trim(value)))
    ensures r.Success? && r.value.Code? ==> IsCodeText(r.value.code)
    ensures r.Success? && r.value.DirectPrice? ==> r.value.price >= 0.0
  {
    var t := Trim(value);
    if t == [] then Failure(Blank("freight code"))
    else match ParseDecimal(t)
      case Some(price) =>
        if price < 0.0 then Failure(Negative("freight price", price)) else Success(DirectPrice(price))
      case None =>
        ByteLengthCheck(t);
        if t[0] == 'T' && Utf8Len(t) == 5 && AllDigits(t[1..]) then Success(Code(t))
        else Failure(MalformedFreightCode(t))
  }

  predicate IsCode(f: FreightCode) {
    f.Code?
  }

  predicate IsDirectPrice(f: FreightCode) {
    f.DirectPrice?
  }

  /** `FreightCode::as_code`: the code, for the code variant only. */
  function AsCode(f: FreightCode): (r: Option<string>)
    ensures r.Some? <==> IsCode(f)
    ensures r.Some? ==> f == Code(r.value)
  {
    match f
    case Code(c) => Some(c)
    case DirectPrice(_) => None
  }

  /** `FreightCode::as_direct_price`: the price, for the price variant only. */
  function AsDirectPrice(f: FreightCode): (r: Option<real>)
    ensures r.Some? <==> IsDirectPrice(f)
    ensures r.Some? ==> f == DirectPrice(r.value)
  {
    match f
    case DirectPrice(p) => Some(p)
    case Code(_) => None
  }

  /** Every freight code is exactly one of the two kinds. */
  lemma ExactlyOneKind(f: FreightCode)
    ensures IsCode(f) != IsDirectPrice(f)
  {
  }

  /** A code text never reads as a number, so the number check that runs first
      never takes a code away from the code branch. */
  lemma CodeTextIsNotANumber(t: string)
    requires IsCodeText(t)
    ensures ParseDecimal(t).None?
  {
    if ParseDecimal(t).Some? {
      ParseDecimalFirstChar(t);
    }
  }

  /** A code written with whitespace around it is accepted, and kept without
      that whitespace. */
  lemma CodeAccepted(before: string, t: string, after: string)
    requires AllWhitespace(before) && AllWhitespace(after) && IsCodeText(t)
    ensures New(before + t + after) == Success(Code(t))
  {
    assert !IsWhitespace(t[0]) && !IsWhitespace(t[4]) by {
      assert IsAsciiDigit(t[1..][3]);
    }
    TrimSurrounded(before, t, after);
    CodeTextIsNotANumber(t);
  }

  /** Text that is neither a number nor 'T' and four digits is rejected. */
  lemma OtherTextRejected(value: string)
    requires ParseDecimal(Trim(value)).None? && !IsCodeText(Trim(value))
    ensures New(value).Failure?
  {
  }

  // ---------------------------------------------------------------------------
  // examples

  /** "T0001" is the code "T0001". */
  lemma CodeExample()
    ensures New("T0001") == Success(Code("T0001"))
    ensures AsCode(New("T0001").value) == Some("T0001")
  {
    assert IsCodeText("T0001");
    CodeAccepted([], "T0001", []);
    assert [] + "T0001" + [] == "T0001";
  }

  /** Blanks around "T0001" are dropped. */
  lemma PaddedCodeExample()
    ensures New("  " + "T0001" + "  ") == Success(Code("T0001"))
  {
    assert IsCodeText("T0001");
    CodeAccepted("  ", "T0001", "  ");
  }

  /** "150.5" is the direct price 150.5. */
  lemma FractionPriceExample()
    ensures New("150.5") == Success(DirectPrice(150.5))
    ensures AsDirectPrice(New("150.5").value) == Some(150.5)
  {
    ParseFractionExample();
    TrimOfTrimmed("150.5");
  }

  lemma ParseFractionExample()
    ensures ParseDecimal("150.5") == Some(150.5)
  {
    ParseDecimalOfFraction("150", "5");
    assert "150" + "." + "5" == "150.5";
    assert DigitsValue("150") == 150 && DigitsValue("5") == 5;
    assert FractionValue("150", "5") == 150.5;
  }

  /** "0" is the direct price zero. */
  lemma ZeroPriceExample()
    ensures New("0") == Success(DirectPrice(0.0))
  {
    ParseDecimalOfDigits("0");
    TrimOfTrimmed("0");
  }

  /** "-10" reads as a negative price and is rejected. */
  lemma NegativePriceExample()
    ensures New("-10") == Failure(Negative("freight price", -10.0))
  {
    ParseDecimalOfDigits("10");
    assert DigitsValue("10") == 10;
    ParseDecimalNegated("10");
    assert ['-'] + "10" == "-10";
    TrimOfTrimmed("-10");
  }

  /** A wrong prefix, a wrong length, or no text at all is rejected. */
  lemma RejectedExamples()
    ensures New("ABC123").Failure?
    ensures New("T001").Failure?
    ensures New("A0001").Failure?
    ensures New("") == Failure(Blank("freight code"))
  {
    TrimOfTrimmed("ABC123");
    TrimOfTrimmed("T001");
    TrimOfTrimmed("A0001");
    if ParseDecimal("ABC123").Some? { ParseDecimalFirstChar("ABC123"); }
    if ParseDecimal("T001").Some? { ParseDecimalFirstChar("T001"); }
    if ParseDecimal("A0001").Some? { ParseDecimalFirstChar("A0001"); }
  }
}
