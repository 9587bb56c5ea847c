/**
 * The pagination bar under the product list: a previous-page arrow, one link
 * per page and a next-page arrow. Each link keeps the current options and
 * rewrites only the page.
 */
module Pagination {
  import opened Wrappers
  import opened Numbers
  import opened QueryOptions

  /** `Number(options.page)`: the current page, NaN when missing or unreadable. */
  function PageOf(q: Params): (page: Option<int>)
    ensures "page" !in q ==> page.None?
    ensures "page" in q && q["page"] == "" ==> page == Some(0)
    ensures "page" in q && AllDigits(q["page"]) ==> page.Some? && page.value >= 0
    ensures "page" in q && page.Some? ==> NumberOf(q["page"]) == page
  {
    NumberOfOptional(if "page" in q then Some(q["page"]) else None)
  }

  /** Adding to a number that may be NaN: NaN stays NaN. */
  function Shifted(x: Option<int>, d: int): (r: Option<int>)
    ensures r.None? <==> x.None?
    ensures r.Some? ==> r.value - d == x.value
  {
    match x
    case None => None
    case Some(v) => Some(v + d)
  }

  /** The two records agree on every name other than the page. */
  predicate SameExceptPage(a: Params, b: Params) {
    (forall k :: k in a && k != "page" ==> k in b && a[k] == b[k])
    && (forall k :: k in b && k != "page" ==> k in a)
  }

  /** The options with the page set to the text of a number. */
  function WithPage(q: Params, page: Option<int>): (r: Params)
    ensures PageOf(r) == page
    ensures SameExceptPage(r, q)
  {
    NumberOfNumberText(page);
    q["page" := NumberText(page)]
  }

  /** The previous-page arrow: plain on page 1, otherwise a link to the page before. */
  function PrevLink(q: Params): (link: Option<Params>)
    ensures link.None? <==> PageOf(q) == Some(1)
    ensures link.Some? ==> PageOf(link.value) == Shifted(PageOf(q), -1)
    ensures link.Some? ==> SameExceptPage(link.value, q)
  {
    if PageOf(q) == Some(1) then None else Some(WithPage(q, Shifted(PageOf(q), -1)))
  }

  /** The next-page arrow: plain on the last page, otherwise a link to the page after. */
  function NextLink(q: Params, pageSize: nat): (link: Option<Params>)
    ensures link.None? <==> PageOf(q) == Some(pageSize)
    ensures link.Some? ==> PageOf(link.value) == Shifted(PageOf(q), 1)
    ensures link.Some? ==> SameExceptPage(link.value, q)
  {
    if PageOf(q) == Some(pageSize) then None else Some(WithPage(q, Shifted(PageOf(q), 1)))
  }

  /** One numbered link: its number, where it leads and whether it is highlighted. */
  datatype PageLink = PageLink(number: nat, target: Params, active: bool)

  /** The numbered links, one per page. */
  function PageLinks(q: Params, pageSize: nat): (links: seq<PageLink>)
    ensures |links| == pageSize
  {
    seq(pageSize, i requires 0 <= i < pageSize =>
      PageLink(i + 1, WithPage(q, Some(i + 1)), PageOf(q) == Some(i + 1)))
  }

  /** The links are numbered 1 to pageSize in ascending order. */
  lemma PageLinksAscending(q: Params, pageSize: nat)
    ensures var links := PageLinks(q, pageSize);
      (pageSize > 0 ==> links[0].number == 1 && links[pageSize - 1].number == pageSize)
      && forall i, j :: 0 <= i < j < pageSize ==> links[i].number < links[j].number
  {
  }

  /** Every link leads to its own page and keeps every other option. */
  lemma PageLinkLandsOnItsPage(q: Params, pageSize: nat, i: nat)
    requires i < pageSize
    ensures var link := PageLinks(q, pageSize)[i];
      PageOf(link.target) == Some(link.number) && SameExceptPage(link.target, q)
  {
  }

  /**
   * At most one link is highlighted, the one numbered with the current page;
   * one is highlighted exactly when the page lies between 1 and pageSize.
   */
  lemma AtMostOneActive(q: Params, pageSize: nat)
    ensures var links := PageLinks(q, pageSize);
      (forall i, j :: 0 <= i < pageSize && 0 <= j < pageSize && links[i].active && links[j].active ==> i == j)
      && (forall i :: 0 <= i < pageSize ==> (links[i].active <==> PageOf(q) == Some(links[i].number)))
      && ((exists i :: 0 <= i < pageSize && links[i].active) <==>
          PageOf(q).Some? && 1 <= PageOf(q).value <= pageSize)
  {
    var links := PageLinks(q, pageSize);
    if PageOf(q).Some? && 1 <= PageOf(q).value <= pageSize {
      assert links[PageOf(q).value - 1].active;
    }
  }

  /** Stepping back and then forward returns to the same page, NaN included. */
  lemma PrevThenNext(q: Params, pageSize: nat)
    requires PrevLink(q).Some?
    requires NextLink(PrevLink(q).value, pageSize).Some?
    ensures PageOf(NextLink(PrevLink(q).value, pageSize).value) == PageOf(q)
  {
  }

  /** From a page p of at least 2 the previous arrow leads to page p - 1, still a valid page. */
  lemma PrevFromLaterPage(q: Params, p: int)
    requires PageOf(q) == Some(p) && p >= 2
    ensures PrevLink(q).Some? && PageOf(PrevLink(q).value) == Some(p - 1) && p - 1 >= 1
  {
  }
}
