/** `Quantity` (src/domain/value_objects/quantity.rs): a non-negative amount of
    material in kilograms. `f64` is modelled as a mathematical real. */
module Quantities {
  import opened Wrappers

  newtype Quantity = r: real | r >= 0.0

  /** `Quantity::new`: negative values are rejected, zero and above are kept. */
  function New(value: real): (r: Result<Quantity>)
    ensures r.Success? <==> value >= 0.0
    ensures r.Success? ==> r.value as real == value
    ensures r.Failure? ==> r.error == Negative("quantity", value)
  {
    if value < 0.0 then Failure(Negative("quantity", value)) else Success(value as Quantity)
  }

  /** `Quantity::value`: every constructed quantity reads back as non-negative. */
  function Value(q: Quantity): (r: real)
    ensures r >= 0.0
  {
    q as real
  }

  /** `value` returns exactly the number a quantity was built from. */
  lemma ValueRoundTrip(v: real)
    requires v >= 0.0
    ensures New(v).Success? && Value(New(v).value) == v
  {
  }
}
