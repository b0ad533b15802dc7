/** `FreightMaster` (src/domain/entities/freight_master.rs): one row of the
    freight tariff, a code of the form 'T' and four digits with a price per
    kilogram and a validity window. */
module FreightMasters {
  import opened Wrappers
  import opened Text
  import FreightCodes
  import PatternNames
  import Amounts
  import TransactionDates

  datatype FreightMaster = FreightMaster(
    freightCode: string,
    patternName: PatternNames.PatternName,
    kgUnitPrice: Amounts.Amount,
    validFrom: TransactionDates.TransactionDate,
    validTo: Option<TransactionDates.TransactionDate>)

  /** `FreightMaster::new`: the code must start with 'T' and be five bytes long,
      and its last four characters must be digits; the other fields are taken
      as they are, and the validity window is not checked against itself. */
  function New(
    freightCode: string,
    patternName: PatternNames.PatternName,
    kgUnitPrice: Amounts.Amount,
    validFrom: TransactionDates.TransactionDate,
    validTo: Option<TransactionDates.TransactionDate>): (r: Result<FreightMaster>)
    ensures r.Success? <==> FreightCodes.IsCodeText(freightCode)
    ensures r.Failure? ==> r.error == MalformedFreightCode(freightCode)
    ensures r.Success? ==>
              && r.value.freightCode == freightCode
              && r.value.patternName == patternName
              && r.value.kgUnitPrice == kgUnitPrice
              && r.value.validFrom == validFrom
              && r.value.validTo == validTo
  {
    FreightCodes.ByteLengthCheck(freightCode);
    if freightCode == [] || freightCode[0] != 'T' || Utf8Len(freightCode) != 5 then
      Failure(MalformedFreightCode(freightCode))
    else if !AllDigits(freightCode[1..]) then Failure(MalformedFreightCode(freightCode))
    else Success(FreightMaster(freightCode, patternName, kgUnitPrice, validFrom, validTo))
  }

  /** Every code that `FreightCode::new` accepts is one a freight-master row can
      carry. */
  lemma ParsedCodesAreMasterCodes(
    value: string,
    patternName: PatternNames.PatternName,
    kgUnitPrice: Amounts.Amount,
    validFrom: TransactionDates.TransactionDate,
    validTo: Option<TransactionDates.TransactionDate>)
    requires FreightCodes.New(value).Success? && FreightCodes.New(value).value.Code?
    ensures New(FreightCodes.New(value).value.code, patternName, kgUnitPrice, validFrom, validTo).Success?
  {
  }

  /** The codes the module's tests use: "T0001" and "T0002" are accepted;
      "A0001", "T001" and "T00A1" are rejected, and so is "T01", the code the
      material-cost service's tests register as a freight master. */
  lemma CodeExamples(
    patternName: PatternNames.PatternName,
    kgUnitPrice: Amounts.Amount,
    validFrom: TransactionDates.TransactionDate,
    validTo: Option<TransactionDates.TransactionDate>)
    ensures New("T0001", patternName, kgUnitPrice, validFrom, validTo).Success?
    ensures New("T0002", patternName, kgUnitPrice, validFrom, validTo).Success?
    ensures New("A0001", patternName, kgUnitPrice, validFrom, validTo).Failure?
    ensures New("T001", patternName, kgUnitPrice, validFrom, validTo).Failure?
    ensures New("T00A1", patternName, kgUnitPrice, validFrom, validTo).Failure?
    ensures New("T01", patternName, kgUnitPrice, validFrom, validTo).Failure?
    ensures New("T02", patternName, kgUnitPrice, validFrom, validTo).Failure?
  {
    assert FreightCodes.IsCodeText("T0001") && FreightCodes.IsCodeText("T0002");
    assert !IsAsciiDigit("T00A1"[1..][2]);
  }
}
