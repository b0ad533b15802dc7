/** `InventoryBalance` (src/domain/value_objects/inventory_balance.rs): a stock
    level. It may be negative: a shortage is a meaningful balance. */
module InventoryBalances {
  import opened Wrappers

  newtype InventoryBalance = real

  /** `InventoryBalance::new`: never fails and keeps the value as given. */
  function New(value: real): (r: Result<InventoryBalance>)
    ensures r.Success? && r.value as real == value
  {
    Success(value as InventoryBalance)
  }

  function Value(b: InventoryBalance): real {
    b as real
  }

  /** Any number, negative and zero included, reads back unchanged. */
  lemma ValueRoundTrip(v: real)
    ensures Value(New(v).value) == v
  {
  }
}
