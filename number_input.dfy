/**
 * The digits-only text input: a change is handed to the `onChange` callback
 * only when the new value is empty or made of ASCII digits, and only when a
 * callback was given.
 */
module NumberInput {
  import opened Wrappers
  import opened Numbers
  import AsideFilter

  /** The value handed to `onChange`, or `None` when nothing is called. */
  function ForwardedValue(value: string, hasOnChange: bool): (forwarded: Option<string>)
    ensures forwarded.Some? <==> hasOnChange && AllDigits(value)
    ensures forwarded.Some? ==> forwarded.value == value
  {
    if hasOnChange && (IsDigitString(value) || value == "") then Some(value) else None
  }

  /** A value with a character outside the digits is never forwarded. */
  lemma NonDigitRejected(value: string, i: nat, hasOnChange: bool)
    requires i < |value| && !IsDigit(value[i])
    ensures ForwardedValue(value, hasOnChange).None?
  {
  }

  /**
   * The input accepts exactly the values the price inputs' change handler
   * leaves as they are: both guards are the same test.
   */
  lemma AgreesWithPriceGuard(value: string)
    ensures ForwardedValue(value, true).Some? <==> AsideFilter.SanitizePrice(value) == value
  {
  }
}
