/**
 * The product-list query options read from the address bar's search
 * parameters. Every listing component builds its links and navigations from
 * this record, written here as a map from parameter name to text.
 */
module QueryOptions {
  /** A search-parameter record: each name holds one text value. */
  type Params = map<string, string>

  /** The ten option names the listing understands. */
  const OptionKeys: set<string> :=
    {"page", "limit", "order", "sort_by", "category", "exclude",
     "rating_filter", "price_max", "price_min", "name"}

  /** The page a listing shows: the given page unless it is missing or empty, then the first. */
  function PageParam(search: Params): (page: string)
    ensures page != ""
    ensures "page" in search && search["page"] != "" ==> page == search["page"]
  {
    if "page" in search && search["page"] != "" then search["page"] else "1"
  }

  /**
   * The options record: the ten listed names taken from the search
   * parameters, with undefined ones omitted and the page always present.
   */
  function QueryProductsOptions(search: Params): (options: Params)
    ensures "page" in options && options["page"] == PageParam(search)
    ensures forall k :: k in options <==> k in OptionKeys && (k == "page" || k in search)
    ensures forall k :: k in options && k != "page" ==> options[k] == search[k]
  {
    map k | k in OptionKeys && (k == "page" || k in search) ::
      if k == "page" then PageParam(search) else search[k]
  }

  /** A missing page and an empty page both become page 1. */
  lemma MissingPageIsFirst(search: Params)
    requires "page" !in search || search["page"] == ""
    ensures QueryProductsOptions(search)["page"] == "1"
  {
  }

  /** A parameter the listing does not know never reaches the options. */
  lemma UnknownKeyDropped(search: Params, k: string)
    requires k !in OptionKeys
    ensures k !in QueryProductsOptions(search)
  {
  }

  /** An empty value of a name other than the page is carried over, not omitted. */
  lemma EmptyValueKept(search: Params, k: string)
    requires k in OptionKeys && k != "page" && k in search && search[k] == ""
    ensures k in QueryProductsOptions(search) && QueryProductsOptions(search)[k] == ""
  {
  }

  /** Reading the options of an options record changes nothing. */
  lemma QueryProductsOptionsIdempotent(search: Params)
    ensures QueryProductsOptions(QueryProductsOptions(search)) == QueryProductsOptions(search)
  {
    var once := QueryProductsOptions(search);
    var twice := QueryProductsOptions(once);
    assert forall k :: k in twice <==> k in once;
    forall k | k in twice
      ensures twice[k] == once[k]
    {
    }
  }
}
