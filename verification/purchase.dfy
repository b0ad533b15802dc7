/** `Purchase` (src/domain/entities/purchase.rs): the latest purchase of a
    material, giving its name, unit price, quantity and freight terms. */
module Purchases {
  import Amounts
  import Quantities
  import FreightCodes

  datatype Purchase = Purchase(
    productName: string,
    unitPrice: Amounts.Amount,
    quantity: Quantities.Quantity,
    freightCode: FreightCodes.FreightCode)

  /** `Purchase::new`: total; every field is kept as given, including which
      kind of freight code it is and the price a direct one carries. */
  function New(
    productName: string,
    unitPrice: Amounts.Amount,
    quantity: Quantities.Quantity,
    freightCode: FreightCodes.FreightCode): (r: Purchase)
    ensures r.productName == productName && r.unitPrice == unitPrice && r.quantity == quantity
    ensures FreightCodes.IsCode(r.freightCode) <==> FreightCodes.IsCode(freightCode)
    ensures FreightCodes.AsCode(r.freightCode) == FreightCodes.AsCode(freightCode)
    ensures FreightCodes.AsDirectPrice(r.freightCode) == FreightCodes.AsDirectPrice(freightCode)
  {
    Purchase(productName, unitPrice, quantity, freightCode)
  }
}
