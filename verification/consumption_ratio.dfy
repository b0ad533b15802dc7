/** `ConsumptionRatio` (src/domain/value_objects/consumption_ratio.rs): the
    kilograms of a material consumed per kilogram produced. It may exceed 1. */
module ConsumptionRatios {
  import opened Wrappers

  newtype ConsumptionRatio = r: real | r >= 0.0

  /** `ConsumptionRatio::new`: negative values are rejected, zero and above
      (including values above 1) are kept. */
  function New(value: real): (r: Result<ConsumptionRatio>)
    ensures r.Success? <==> value >= 0.0
    ensures r.Success? ==> r.value as real == value
    ensures r.Failure? ==> r.error == Negative("consumption ratio", value)
  {
    if value < 0.0 then Failure(Negative("consumption ratio", value)) else Success(value as ConsumptionRatio)
  }

  function Value(c: ConsumptionRatio): (r: real)
    ensures r >= 0.0
  {
    c as real
  }

  /** `value` returns exactly the number a ratio was built from. */
  lemma ValueRoundTrip(v: real)
    requires v >= 0.0
    ensures New(v).Success? && Value(New(v).value) == v
  {
  }
}
