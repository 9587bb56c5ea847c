/**
 * The filter column beside the product list: category links, a price-range
 * form, rating links and a button that clears the filters.
 */
module AsideFilter {
  import opened Wrappers
  import opened Numbers
  import opened QueryOptions
  import opened Schema

  // ---------------------------------------------------------------- price form

  /**
   * The price inputs' change handler: an empty or all-digit value stays,
   * anything else loses its last character. The result is the value or the
   * value without its last character, and it equals the value exactly when
   * the value is all digits.
   */
  function SanitizePrice(value: string): (r: string)
    ensures |value| - 1 <= |r| <= |value| && r == value[..|r|]
    ensures r == value <==> AllDigits(value)
  {
    if IsDigitString(value) || value == "" then value else value[..|value| - 1]
  }

  /** Typing one character after an all-digit value leaves an all-digit value. */
  lemma TypedCharKeepsDigits(previous: string, c: char)
    requires AllDigits(previous)
    ensures AllDigits(SanitizePrice(previous + [c]))
    ensures IsDigit(c) ==> SanitizePrice(previous + [c]) == previous + [c]
    ensures !IsDigit(c) ==> SanitizePrice(previous + [c]) == previous
  {
    var typed := previous + [c];
    if !IsDigit(c) {
      assert !IsDigit(typed[|typed| - 1]);
      assert typed[..|typed| - 1] == previous;
    }
  }

  /**
   * The handler only ever drops the last character, so a non-digit typed in
   * front of digits survives: typing `a` before "12" leaves "a1".
   */
  lemma MidInsertKeepsNonDigit()
    ensures SanitizePrice("a12") == "a1"
    ensures !AllDigits(SanitizePrice("a12"))
  {
    assert !IsDigit("a12"[0]);
    assert !IsDigit("a1"[0]);
  }

  /** The options after a valid price range is submitted: both bounds set, all else kept. */
  function SubmitParams(q: Params, priceMin: string, priceMax: string): (r: Params)
    ensures "price_min" in r && r["price_min"] == priceMin
    ensures "price_max" in r && r["price_max"] == priceMax
    ensures forall k :: k in q ==> k in r
    ensures forall k :: k in r && k != "price_min" && k != "price_max" ==> k in q && r[k] == q[k]
  {
    q["price_min" := priceMin]["price_max" := priceMax]
  }

  /** The options after clearing: no price or rating filter, page 1, all else kept. */
  function ClearedParams(q: Params): (r: Params)
    ensures "price_min" !in r && "price_max" !in r && "rating_filter" !in r
    ensures "page" in r && r["page"] == "1"
    ensures forall k :: k in q && k !in {"price_min", "price_max", "rating_filter"} ==> k in r
    ensures forall k :: k in r && k != "page" ==> k in q && r[k] == q[k]
  {
    q["page" := "1"] - {"price_min", "price_max", "rating_filter"}
  }

  /** Clearing twice is clearing once. */
  lemma ClearedParamsIdempotent(q: Params)
    ensures ClearedParams(ClearedParams(q)) == ClearedParams(q)
  {
  }

  datatype PriceField = MinField | MaxField

  /** The price-range form: the two input values and the message shown under them. */
  class PriceFilterForm {
    var priceMin: string
    var priceMax: string
    var error: Option<Issue>

    /** An untouched form: both inputs empty, no message. */
    constructor ()
      ensures priceMin == "" && priceMax == "" && error.None?
    {
      priceMin := "";
      priceMax := "";
      error := None;
    }

    /** Typing into an input: its message is cleared and its value sanitised. */
    method HandlePriceChange(field: PriceField, value: string)
      modifies this
      ensures error.None?
      ensures field == MinField ==> priceMin == SanitizePrice(value) && priceMax == old(priceMax)
      ensures field == MaxField ==> priceMax == SanitizePrice(value) && priceMin == old(priceMin)
    {
      error := None;
      var sanitized := SanitizePrice(value);
      match field
      case MinField => priceMin := sanitized;
      case MaxField => priceMax := sanitized;
    }

    /**
     * Submitting: a valid range navigates to the options with both bounds
     * set; otherwise nothing happens but the message under the minimum.
     */
    method Submit(q: Params) returns (target: Option<Params>)
      modifies this
      ensures priceMin == old(priceMin) && priceMax == old(priceMax)
      ensures target.Some? <==> PriceRangeValid(priceMin, priceMax)
      ensures target.Some? ==> target.value == SubmitParams(q, priceMin, priceMax) && error.None?
      ensures target.None? ==> error == Some(PriceRangeIssue)
    {
      var issues := PriceIssues(priceMin, priceMax);
      if issues == [] {
        error := None;
        target := Some(SubmitParams(q, priceMin, priceMax));
      } else {
        error := Some(issues[0]);
        target := None;
      }
    }

    /** `reset()`: both inputs back to empty and no message. */
    method Reset()
      modifies this
      ensures priceMin == "" && priceMax == "" && error.None?
    {
      priceMin := "";
      priceMax := "";
      error := None;
    }

    /** The clear-all button: reset the form and navigate to the cleared options. */
    method ClearAllFilters(q: Params) returns (target: Params)
      modifies this
      ensures priceMin == "" && priceMax == "" && error.None?
      ensures target == ClearedParams(q)
    {
      Reset();
      target := ClearedParams(q);
    }

    /**
     * Following the "all categories" link (`id` is `None`) or a category
     * link: the form is reset and the listing opens with no option but
     * the category, or with no option at all.
     */
    method FollowCategoryLink(id: Option<string>) returns (target: Params)
      modifies this
      ensures priceMin == "" && priceMax == "" && error.None?
      ensures id.None? ==> target == map[]
      ensures id.Some? ==> target == CategoryLinkParams(id.value) && CategoryOf(target) == id.value
    {
      Reset();
      target := if id.Some? then CategoryLinkParams(id.value) else map[];
    }
  }

  // ---------------------------------------------------------------- categories

  /** The category in effect, the empty string when none is given. */
  function CategoryOf(q: Params): (category: string)
    ensures "category" !in q ==> category == ""
  {
    if "category" in q then q["category"] else ""
  }

  /** A category link carries the category alone: every other filter is dropped. */
  function CategoryLinkParams(id: string): (r: Params)
    ensures r.Keys == {"category"} && r["category"] == id
  {
    map["category" := id]
  }

  /** The highlight of each entry: "all" first, then one per category id, in order. */
  function CategoryFlags(q: Params, ids: seq<string>): (flags: seq<bool>)
    ensures |flags| == |ids| + 1
    ensures flags[0] <==> CategoryOf(q) == ""
    ensures forall i :: 0 <= i < |ids| ==> (flags[i + 1] <==> ids[i] == CategoryOf(q))
  {
    [CategoryOf(q) == ""] + seq(|ids|, i requires 0 <= i < |ids| => ids[i] == CategoryOf(q))
  }

  /** The number of true entries. */
  function CountTrue(s: seq<bool>): (n: nat)
    ensures n <= |s|
  {
    if s == [] then 0 else CountTrue(s[..|s| - 1]) + (if s[|s| - 1] then 1 else 0)
  }

  lemma {:induction false} CountNone(s: seq<bool>)
    requires forall i :: 0 <= i < |s| ==> !s[i]
    ensures CountTrue(s) == 0
  {
    if s != [] {
      CountNone(s[..|s| - 1]);
    }
  }

  lemma {:induction false} CountExactlyOne(s: seq<bool>, j: nat)
    requires j < |s| && s[j]
    requires forall i :: 0 <= i < |s| && i != j ==> !s[i]
    ensures CountTrue(s) == 1
  {
    if j == |s| - 1 {
      CountNone(s[..|s| - 1]);
    } else {
      CountExactlyOne(s[..|s| - 1], j);
    }
  }

  predicate DistinctIds(ids: seq<string>) {
    forall i, j :: 0 <= i < j < |ids| ==> ids[i] != ids[j]
  }

  /**
   * With distinct, non-empty category ids, exactly one entry is highlighted
   * when the category in effect is empty or one of the ids.
   */
  lemma ExactlyOneCategoryActive(q: Params, ids: seq<string>)
    requires DistinctIds(ids)
    requires forall i :: 0 <= i < |ids| ==> ids[i] != ""
    requires CategoryOf(q) == "" || CategoryOf(q) in ids
    ensures CountTrue(CategoryFlags(q, ids)) == 1
  {
    var flags := CategoryFlags(q, ids);
    var c := CategoryOf(q);
    if c == "" {
      forall i | 0 <= i < |flags| && i != 0 ensures !flags[i] {
        assert flags[i] <==> ids[i - 1] == c;
      }
      CountExactlyOne(flags, 0);
    } else {
      var j :| 0 <= j < |ids| && ids[j] == c;
      forall i | 0 <= i < |flags| && i != j + 1 ensures !flags[i] {
        if i > 0 {
          assert flags[i] <==> ids[i - 1] == c;
          assert ids[i - 1] != ids[j] by {
            if i - 1 < j {
              assert ids[i - 1] != ids[j];
            } else {
              assert ids[j] != ids[i - 1];
            }
          }
        }
      }
      CountExactlyOne(flags, j + 1);
    }
  }

  /** Following the link of a category highlights that category and nothing else. */
  lemma CategoryLinkActivates(ids: seq<string>, j: nat)
    requires DistinctIds(ids)
    requires forall i :: 0 <= i < |ids| ==> ids[i] != ""
    requires j < |ids|
    ensures var flags := CategoryFlags(CategoryLinkParams(ids[j]), ids);
      flags[j + 1] && CountTrue(flags) == 1
  {
    ExactlyOneCategoryActive(CategoryLinkParams(ids[j]), ids);
  }

  // ---------------------------------------------------------------- ratings

  /** The rating rows, best first. */
  const RatingOptions: seq<int> := [5, 4, 3, 2, 1]

  /** The number of stars drawn in every row: the first option. */
  const MaxStars: int := RatingOptions[0]

  /** The rating link of an option: every option kept, the rating filter set. */
  function RatingLinkParams(q: Params, option: int): (r: Params)
    ensures "rating_filter" in r && NumberOf(r["rating_filter"]) == Some(option)
    ensures forall k :: k in q ==> k in r
    ensures forall k :: k in r && k != "rating_filter" ==> k in q && r[k] == q[k]
  {
    NumberOfIntToString(option);
    q["rating_filter" := IntToString(option)]
  }

  /** A row is highlighted when `Number(rating_filter)` equals its option. */
  predicate RatingActive(q: Params, option: int)
    ensures "rating_filter" !in q ==> !RatingActive(q, option)
    ensures "rating_filter" in q && q["rating_filter"] == "" ==> (RatingActive(q, option) <==> option == 0)
    ensures RatingActive(q, option) ==> NumberOf(q["rating_filter"]) == Some(option)
  {
    NumberOfOptional(if "rating_filter" in q then Some(q["rating_filter"]) else None) == Some(option)
  }

  /** Following the link of row i highlights row i and no other row. */
  lemma RatingLinkActivates(q: Params, i: nat, j: nat)
    requires i < |RatingOptions| && j < |RatingOptions|
    ensures RatingActive(RatingLinkParams(q, RatingOptions[i]), RatingOptions[j]) <==> i == j
  {
  }

  /** The stars of one row: star s is lit when MaxStars - index > s. */
  function StarRow(index: int): (stars: seq<bool>)
    ensures |stars| == MaxStars
  {
    seq(MaxStars, s requires 0 <= s < MaxStars => MaxStars - index > s)
  }

  lemma {:induction false} LitPrefixCount(n: nat, lit: int)
    ensures CountTrue(seq(n, s requires 0 <= s < n => lit > s)) == if lit <= 0 then 0 else if lit >= n then n else lit
  {
    var row := seq(n, s requires 0 <= s < n => lit > s);
    if n > 0 {
      LitPrefixCount(n - 1, lit);
      assert row[..n - 1] == seq(n - 1, s requires 0 <= s < n - 1 => lit > s);
    }
  }

  /** Row i lights exactly as many stars as its option. */
  lemma StarCountMatchesOption(i: nat)
    requires i < |RatingOptions|
    ensures CountTrue(StarRow(i)) == RatingOptions[i]
  {
    LitPrefixCount(MaxStars, MaxStars - i);
  }
}
