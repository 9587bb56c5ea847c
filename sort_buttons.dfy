/**
 * The sort bar above the product list: three sort buttons, a price-order
 * select and a small page controller. Sorting navigates to the current
 * options with the sort keys rewritten.
 */
module SortButtons {
  import opened Wrappers
  import opened QueryOptions
  import opened Pagination

  /** The sort key in effect: the given one, or newest first when none is given. */
  function SortByOf(q: Params): (sortBy: string)
    ensures "sort_by" !in q ==> sortBy == "createdAt"
  {
    if "sort_by" in q then q["sort_by"] else "createdAt"
  }

  /**
   * Sorting by a button's key: the key is set, the price order is dropped
   * and every other option, the page included, is kept.
   */
  function ChangeSortValue(q: Params, value: string): (r: Params)
    ensures "sort_by" in r && r["sort_by"] == value && "order" !in r
    ensures forall k :: k != "sort_by" && k != "order" ==> (k in r <==> k in q)
    ensures forall k :: k in r && k != "sort_by" ==> r[k] == q[k]
  {
    q["sort_by" := value] - {"order"}
  }

  /** Sorting by price: key `price`, the chosen order, back to page 1, all else kept. */
  function SortByPrice(q: Params, priceOrder: string): (r: Params)
    ensures "sort_by" in r && r["sort_by"] == "price"
    ensures "order" in r && r["order"] == priceOrder
    ensures "page" in r && r["page"] == "1"
    ensures forall k :: k in q ==> k in r
    ensures forall k :: k in r && k !in {"sort_by", "order", "page"} ==> k in q && r[k] == q[k]
  {
    q["sort_by" := "price"]["order" := priceOrder]["page" := "1"]
  }

  /** The three sort buttons and the key each one selects. */
  datatype SortButton = ViewButton | CreatedAtButton | SoldButton

  function KeyOf(b: SortButton): (key: string)
    ensures key != "price"
  {
    match b
    case ViewButton => "view"
    case CreatedAtButton => "createdAt"
    case SoldButton => "sold"
  }

  /** A button is highlighted when its key is the sort key in effect. */
  predicate ButtonActive(q: Params, b: SortButton)
    ensures "sort_by" !in q ==> (ButtonActive(q, b) <==> b == CreatedAtButton)
    ensures "sort_by" in q && q["sort_by"] == "price" ==> !ButtonActive(q, b)
  {
    SortByOf(q) == KeyOf(b)
  }

  /** The price select is highlighted when an order is given (`!!order`). */
  predicate PriceSelectActive(q: Params)
    ensures "order" !in q ==> !PriceSelectActive(q)
    ensures "order" in q && q["order"] == "" ==> !PriceSelectActive(q)
  {
    "order" in q && q["order"] != ""
  }

  /** At most one button is highlighted, and with no sort key it is the newest-first one. */
  lemma AtMostOneButtonActive(q: Params, b: SortButton, c: SortButton)
    ensures ButtonActive(q, b) && ButtonActive(q, c) ==> b == c
    ensures "sort_by" !in q ==> (ButtonActive(q, b) <==> b == CreatedAtButton)
  {
  }

  /** After clicking a button, exactly that button is highlighted and the price select is not. */
  lemma ClickedButtonActive(q: Params, b: SortButton, c: SortButton)
    ensures ButtonActive(ChangeSortValue(q, KeyOf(b)), c) <==> c == b
    ensures !PriceSelectActive(ChangeSortValue(q, KeyOf(b)))
  {
  }

  /** After choosing a price order, no button is highlighted, the select is, and the page is 1. */
  lemma PriceSortClearsButtons(q: Params, priceOrder: string, b: SortButton)
    requires priceOrder != ""
    ensures !ButtonActive(SortByPrice(q, priceOrder), b)
    ensures PriceSelectActive(SortByPrice(q, priceOrder))
    ensures PageOf(SortByPrice(q, priceOrder)) == Some(1)
  {
    assert SortByPrice(q, priceOrder)["page"] == "1";
  }

  /** The small page controller: the page shown, the page count and its two arrows. */
  datatype MiniControls = MiniControls(page: Option<int>, pageSize: nat, prev: Option<Params>, next: Option<Params>)

  /**
   * The small page controller uses the same arrow rules as the pagination
   * bar: back unless on page 1, forward unless on the last page, each
   * keeping every other option.
   */
  function MiniPageController(q: Params, pageSize: nat): (c: MiniControls)
    ensures c.page == PageOf(q) && c.pageSize == pageSize
    ensures c.prev.None? <==> PageOf(q) == Some(1)
    ensures c.prev.Some? ==> PageOf(c.prev.value) == Shifted(PageOf(q), -1) && SameExceptPage(c.prev.value, q)
    ensures c.next.None? <==> PageOf(q) == Some(pageSize)
    ensures c.next.Some? ==> PageOf(c.next.value) == Shifted(PageOf(q), 1) && SameExceptPage(c.next.value, q)
  {
    MiniControls(PageOf(q), pageSize, PrevLink(q), NextLink(q, pageSize))
  }
}
