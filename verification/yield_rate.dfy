/** `YieldRate` (src/domain/value_objects/yield_rate.rs): the fraction of the
    raw-material cost retained after process loss, between 0 and 1. */
module YieldRates {
  import opened Wrappers

  newtype YieldRate = r: real | 0.0 <= r <= 1.0

  /** `YieldRate::new`: accepts exactly the closed interval [0, 1]. */
  function New(value: real): (r: Result<YieldRate>)
    ensures r.Success? <==> 0.0 <= value <= 1.0
    ensures r.Success? ==> r.value as real == value
    ensures r.Failure? ==> r.error == OutOfRange("yield rate", value)
  {
    if !(0.0 <= value <= 1.0) then Failure(OutOfRange("yield rate", value)) else Success(value as YieldRate)
  }

  function Value(y: YieldRate): (r: real)
    ensures 0.0 <= r <= 1.0
  {
    y as real
  }

  /** `value` returns exactly the number a rate was built from. */
  lemma ValueRoundTrip(v: real)
    requires 0.0 <= v <= 1.0
    ensures New(v).Success? && Value(New(v).value) == v
  {
  }

  /** Both ends of the interval are accepted; values just outside are not. */
  lemma Boundaries()
    ensures New(0.0).Success? && New(1.0).Success?
    ensures New(-0.1).Failure? && New(1.5).Failure?
  {
  }
}
