/** `ProductCode` (src/domain/value_objects/product_code.rs): a product or
    material code, stored trimmed and never empty. */
module ProductCodes {
  import opened Wrappers
  import opened Text

  type ProductCode = s: string | IsTrimmed(s) witness "0"

  /** `ProductCode::new`: blank input is rejected, anything else is kept trimmed. */
  function New(code: string): (r: Result<ProductCode>)
    ensures r.Failure? <==> AllWhitespace(code)
    ensures r.Failure? ==> r.error == Blank("product code")
    ensures r.Success? ==> r.value == Trim(code)
  {
    var t := Trim(code);
    if t == [] then Failure(Blank("product code")) else Success(t)
  }

  function Value(c: ProductCode): string {
    c
  }

  /** Whitespace around a code does not change the code that is built, so two
      inputs that differ only there give equal codes. */
  lemma SurroundingWhitespaceIgnored(before: string, c: ProductCode, after: string)
    requires AllWhitespace(before) && AllWhitespace(after)
    ensures New(before + c + after) == Success(c)
  {
    TrimSurrounded(before, c, after);
  }

  /** Building a code from the text of an existing code gives that code back. */
  lemma NewOfValue(c: ProductCode)
    ensures New(Value(c)) == Success(c)
  {
    TrimOfTrimmed(c);
  }
}
