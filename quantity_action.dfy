/**
 * What the quantity controller reports: which control changed the quantity,
 * and the value it hands over. The plus and minus buttons hand over the
 * quantity as it is held; the text input hands over the typed text itself,
 * which the controller only casts to a number type without converting it.
 */
module QuantityActions {
  import opened Wrappers
  import opened Numbers

  /** The three ways the quantity controller reports a change: its minus and plus buttons and typing. */
  datatype QuantityAction = Decrease | Increase | Change

  /** A quantity as JavaScript holds it: a number, or the text typed into the input. */
  datatype Quantity = Count(n: int) | Typed(text: string)

  /** Typed text as the digits-only input lets it through: empty or ASCII digits. */
  predicate WellTyped(q: Quantity) {
    q.Typed? ==> AllDigits(q.text)
  }

  /**
   * The number `<`, `>`, `-` and `++` read from a quantity: a number is
   * itself, typed text is `Number(text)`, so "" reads as 0.
   */
  function NumericValue(q: Quantity): (n: int)
    requires WellTyped(q)
    ensures q.Count? ==> n == q.n
    ensures q.Typed? ==> NumberOf(q.text) == Some(n) && n >= 0
  {
    match q
    case Count(n) => n
    case Typed(t) => DecimalValue(t)
  }

  /**
   * `q + 1`: addition on a number but concatenation on text, so typed "5"
   * becomes "51", ten times its value plus one.
   */
  function PlusOne(q: Quantity): (r: Quantity)
    ensures WellTyped(q) ==> WellTyped(r)
    ensures q.Count? ==> r.Count? && NumericValue(r) == q.n + 1
    ensures q.Typed? && WellTyped(q) ==> r.Typed? && NumericValue(r) == 10 * NumericValue(q) + 1
  {
    match q
    case Count(n) => Count(n + 1)
    case Typed(t) =>
      var r := Typed(t + "1");
      assert (t + "1")[..|t|] == t;
      r
  }

  /** `q === n`: typed text never equals a number, whatever its digits. */
  predicate StrictEquals(q: Quantity, n: int) {
    q.Count? && q.n == n
  }
}
