/** `InventoryTransaction` (src/domain/entities/inventory_transaction.rs): one
    stock movement, an inflow (production, purchase) or an outflow (sale). */
module InventoryTransactions {
  import TransactionDates
  import InventoryTypes
  import ProductCodes
  import Quantities

  datatype InventoryTransaction = InventoryTransaction(
    date: TransactionDates.TransactionDate,
    inventoryType: InventoryTypes.InventoryType,
    productCode: ProductCodes.ProductCode,
    productName: string,
    quantity: Quantities.Quantity)

  /** `InventoryTransaction::new`: total; every field is kept as given, for each
      of the three kinds, and the quantity stays at least zero. */
  function New(
    date: TransactionDates.TransactionDate,
    inventoryType: InventoryTypes.InventoryType,
    productCode: ProductCodes.ProductCode,
    productName: string,
    quantity: Quantities.Quantity): (r: InventoryTransaction)
    ensures r.date == date && r.inventoryType == inventoryType && r.productCode == productCode
    ensures r.productName == productName && r.quantity == quantity
    ensures Quantities.Value(r.quantity) >= 0.0
  {
    InventoryTransaction(date, inventoryType, productCode, productName, quantity)
  }
}
