/**
 * The refinement of the price-range form schema: a check over the two text
 * fields `price_min` and `price_max` that reports at most one issue, always
 * attached to `price_min`.
 */
module Schema {
  import opened Wrappers
  import opened Numbers

  /** A validation issue: the field path it is attached to and its message. */
  datatype Issue = Issue(path: seq<string>, message: string)

  const PriceRangeMessage: string := "Vui lòng nhập khoảng giá phù hợp"

  const PriceRangeIssue: Issue := Issue(["price_min"], PriceRangeMessage)

  /**
   * The issues raised for a pair of price fields. The first branch needs both
   * fields non-empty and the minimum greater than the maximum as numbers
   * (NaN compares false); the second fires when either field is empty.
   */
  function PriceIssues(priceMin: string, priceMax: string): (issues: seq<Issue>)
    ensures |issues| <= 1
    ensures forall k :: 0 <= k < |issues| ==> issues[k] == PriceRangeIssue
    ensures issues != [] <==>
      priceMin == "" || priceMax == "" || Greater(NumberOf(priceMin), NumberOf(priceMax))
  {
    if priceMin != "" && priceMax != "" && Greater(NumberOf(priceMin), NumberOf(priceMax)) then
      [PriceRangeIssue]
    else if priceMin == "" || priceMax == "" then
      [PriceRangeIssue]
    else
      []
  }

  /** The range is accepted exactly when no issue is raised. */
  predicate PriceRangeValid(priceMin: string, priceMax: string) {
    PriceIssues(priceMin, priceMax) == []
  }

  /** An empty field raises exactly one issue. */
  lemma EmptyFieldRejected(priceMin: string, priceMax: string)
    requires priceMin == "" || priceMax == ""
    ensures PriceIssues(priceMin, priceMax) == [PriceRangeIssue]
  {
  }

  /** Two digit strings are accepted exactly when the minimum is at most the maximum. */
  lemma DigitRangeAccepted(priceMin: string, priceMax: string)
    requires IsDigitString(priceMin) && IsDigitString(priceMax)
    ensures PriceRangeValid(priceMin, priceMax) <==>
      DecimalValue(priceMin) <= DecimalValue(priceMax)
  {
  }

  /** Equal bounds are a valid range. */
  lemma EqualBoundsAccepted(price: string)
    requires IsDigitString(price)
    ensures PriceRangeValid(price, price)
  {
    DigitRangeAccepted(price, price);
  }

  /**
   * A non-empty field that `Number` cannot read makes the comparison false,
   * so the pair passes whatever the other non-empty field holds.
   */
  lemma UnreadableBoundPasses(priceMin: string, priceMax: string)
    requires priceMin != "" && priceMax != ""
    requires NumberOf(priceMin).None? || NumberOf(priceMax).None?
    ensures PriceRangeValid(priceMin, priceMax)
  {
  }

  lemma PriceIssuesExamples()
    ensures PriceIssues("10", "2") == [PriceRangeIssue]
    ensures PriceIssues("2", "10") == []
    ensures PriceIssues("", "10") == [PriceRangeIssue]
  {
    assert NumberOf("10") == Some(10) by { assert DecimalValue("10") == DecimalValue("1") * 10 + 0; }
    assert NumberOf("2") == Some(2);
  }
}
