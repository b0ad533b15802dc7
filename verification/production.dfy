/** `Production` (src/domain/entities/production.rs): one production batch,
    with its yield rate and the coagulant and clay-treatment costs it carries. */
module Productions {
  import ProductCodes
  import Quantities
  import YieldRates
  import Amounts

  datatype Production = Production(
    productCode: ProductCodes.ProductCode,
    quantity: Quantities.Quantity,
    yieldRate: YieldRates.YieldRate,
    coagulantCost: Amounts.Amount,
    clayTreatmentCost: Amounts.Amount)

  /** `Production::new`: total; every field is kept as given, and the quantity
      and yield rate keep their ranges. */
  function New(
    productCode: ProductCodes.ProductCode,
    quantity: Quantities.Quantity,
    yieldRate: YieldRates.YieldRate,
    coagulantCost: Amounts.Amount,
    clayTreatmentCost: Amounts.Amount): (r: Production)
    ensures r.productCode == productCode && r.quantity == quantity && r.yieldRate == yieldRate
    ensures r.coagulantCost == coagulantCost && r.clayTreatmentCost == clayTreatmentCost
    ensures Quantities.Value(r.quantity) >= 0.0 && 0.0 <= YieldRates.Value(r.yieldRate) <= 1.0
  {
    Production(productCode, quantity, yieldRate, coagulantCost, clayTreatmentCost)
  }
}
