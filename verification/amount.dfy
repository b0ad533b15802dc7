/** `Amount` (src/domain/value_objects/amount.rs): a sum of money in yen.

    `new` rejects negative values, but `add`, `multiply` and `divide_by` build
    their result directly, without going through `new`; so the type itself does
    not carry a sign constraint, and the lemmas below say which operations keep
    amounts non-negative. */
module Amounts {
  import opened Wrappers

  newtype Amount = real

  /** `Amount::new`: negative values are rejected, zero and above are kept. */
  function New(value: real): (r: Result<Amount>)
    ensures r.Success? <==> value >= 0.0
    ensures r.Success? ==> r.value as real == value
    ensures r.Failure? ==> r.error == Negative("amount", value)
  {
    if value < 0.0 then Failure(Negative("amount", value)) else Success(value as Amount)
  }

  /** `Amount::zero`: the neutral element of `Add`. */
  function Zero(): (r: Amount)
    ensures forall a: Amount :: Add(r, a) == a
  {
    0.0 as Amount
  }

  function Value(a: Amount): real {
    a as real
  }

  /** `Amount::add`: the sum; non-negative when both operands are. */
  function Add(a: Amount, b: Amount): (r: Amount)
    ensures r as real - b as real == a as real
    ensures a >= 0.0 && b >= 0.0 ==> r >= a && r >= b
  {
    a + b
  }

  /** `Amount::multiply`: the product; non-negative only when the factor is,
      since the result does not pass through `New`. */
  function Multiply(a: Amount, ratio: real): (r: Amount)
    ensures r as real == a as real * ratio
    ensures ratio == 0.0 ==> r == 0.0
    ensures a >= 0.0 && ratio >= 0.0 ==> r >= 0.0
    ensures a >= 0.0 && 0.0 <= ratio <= 1.0 ==> r <= a
    ensures ratio != 0.0 ==> r as real / ratio == a as real
  {
    ScaleFacts(a as real, ratio);
    (a as real * ratio) as Amount
  }

  /** The facts about a product that `Multiply` promises. */
  lemma ScaleFacts(x: real, k: real)
    ensures x >= 0.0 && k >= 0.0 ==> x * k >= 0.0
    ensures x >= 0.0 && 0.0 <= k <= 1.0 ==> x * k <= x
    ensures k != 0.0 ==> (x * k) / k == x
  {
    if x >= 0.0 && 0.0 <= k <= 1.0 {
      assert x - x * k == x * (1.0 - k);
      assert x * (1.0 - k) >= 0.0;
    }
  }

  /** `Amount::divide_by`: the quotient, without validation. */
  function DivideBy(a: Amount, divisor: real): (r: Amount)
    requires divisor != 0.0
    ensures r as real * divisor == a as real
  {
    (a as real / divisor) as Amount
  }

  /** `value` returns exactly the number an amount was built from, and `zero`
      reads back as 0. */
  lemma ValueRoundTrip(v: real)
    requires v >= 0.0
    ensures New(v).Success? && Value(New(v).value) == v
    ensures Value(Zero()) == 0.0
  {
  }

  /** Dividing by the factor undoes a multiplication. */
  lemma DivideUndoesMultiply(a: Amount, k: real)
    requires k != 0.0
    ensures DivideBy(Multiply(a, k), k) == a
  {
  }

  /** `multiply` can leave the range `new` guards: a valid amount times a
      negative factor is an amount `new` would have rejected. */
  lemma MultiplyBypassesValidation()
    ensures New(100.0).Success?
    ensures Multiply(100.0 as Amount, -2.5) < 0.0
    ensures New(Value(Multiply(100.0 as Amount, -2.5))).Failure?
  {
  }
}
