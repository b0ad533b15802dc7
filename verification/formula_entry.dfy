/** `FormulaEntry` (src/domain/entities/formula_entry.rs): one line of a
    recipe, the material used and how much of it one unit of product consumes. */
module FormulaEntries {
  import opened Text
  import ProductCodes
  import ConsumptionRatios

  datatype FormulaEntry = FormulaEntry(
    materialCode: ProductCodes.ProductCode,
    consumptionRatio: ConsumptionRatios.ConsumptionRatio)

  /** `FormulaEntry::new`: total; both fields are kept, and keep the invariants
      of their types (a trimmed, non-empty code and a ratio of at least zero). */
  function New(materialCode: ProductCodes.ProductCode, consumptionRatio: ConsumptionRatios.ConsumptionRatio): (r: FormulaEntry)
    ensures r.materialCode == materialCode && r.consumptionRatio == consumptionRatio
    ensures IsTrimmed(ProductCodes.Value(r.materialCode)) && ConsumptionRatios.Value(r.consumptionRatio) >= 0.0
  {
    FormulaEntry(materialCode, consumptionRatio)
  }
}
