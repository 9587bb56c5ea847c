# Shopee-clone storefront rules in Dafny

This project models the client-side business rules of a React storefront and proves properties about them:

- **The cart page.** The cart page holds a store of purchase records keyed by `_id`, each with two client-only flags, "checked" and "disabled". The model covers:
  - reconciling the store with each fetched purchase list;
  - toggling one row, or all rows;
  - changing a quantity within bounds;
  - a single debounce slot shared by every row;
  - committing a quantity on blur;
  - the totals of the checked rows;
  - the checkout and delete requests.

  The page is a class (`Cart.CartPage`) with four fields:
  - `store`: the extended purchases;
  - `fetched`: the last fetched list;
  - `pending`: the timer slot;
  - `outbox`: the requests and notices the page has issued.

  Each handler is a method whose postcondition ties the new state to a pure function. The properties are proved about those functions.
- **The product page.** It has three state updaters: the quantity clamp, the five-wide image-slider window, and the "you may also like" list.
- **The string helpers.** `removeSpecialCharacter` and `generateNameId` build the `name-i-id` slug, `getIdFromNameId` reads the id back, and `hideText` masks part of a text.
- **The price-range check.** The schema reports at most one issue for the two price fields.
- **The product-list controls.** These are the sort bar, the filter column, the pagination bar, the options record read from the search parameters, and the digits-only input. Each one rewrites a search-parameter record, modelled as `map<string, string>`.

Every component that reads or writes a number in a query parameter uses two JavaScript conversions, `Number(s)` and `n.toString()`. Both are modelled in `Numbers`, with NaN written as `None`. `Numbers.NumberOfNumberText` proves that writing a number and reading it back gives the same number, NaN included.

## Model

| member | source | states |
|---|---|---|
| Numbers.NumberOf | src/pages/Products/components/Pagination/Pagination.tsx:15 | `Number(s)` is defined exactly for digit strings, optionally signed; "" reads as 0; an unsigned digit string reads as non-negative |
| Numbers.NumberOfOptional | src/pages/Products/components/SortButtons/SortButtons.tsx:18 | `Number(undefined)` is NaN; a present string reads as `Number(s)` |
| Numbers.NatToString | src/pages/Products/components/Pagination/Pagination.tsx:47 | a page number's text is a non-empty digit string, one digit exactly below ten |
| Numbers.IntToString | src/pages/Products/components/Pagination/Pagination.tsx:28 | a negative number is written as a minus sign followed by the digits of its magnitude |
| Numbers.NumberOfNatToString | src/pages/Products/components/Pagination/Pagination.tsx:43-49 | reading back a written page number gives the number |
| Numbers.NumberOfIntToString | src/pages/Products/components/Pagination/Pagination.tsx:20-34 | reading back any written whole number, negative included, gives the number |
| Numbers.NumberOfNumberText | src/pages/Products/components/Pagination/Pagination.tsx:20-34 | `Number(String(x)) == x` for every page value, NaN included |
| Numbers.Greater | src/utils/schema.ts:18 | a comparison involving NaN is false, and no value is greater than itself |
| Numbers.NumberText | src/pages/Products/components/Pagination/Pagination.tsx:28 | NaN is written "NaN", which does not start with a digit; a non-negative number is written as digits; a negative one as `-` followed by digits |
| QuantityActions.NumericValue | src/components/QuantityController/QuantityController.tsx:38 | a number reads as itself; typed digits read as `Number(text)`, a non-negative value, "" as 0 |
| QuantityActions.PlusOne | src/pages/Cart/Cart.tsx:166 | `value + 1` adds one to a number but appends "1" to typed text, giving ten times its value plus one |
| Cart.KeyedIndex | src/pages/Cart/Cart.tsx:96 | `keyBy` keeps the last row with the id; no row has the id when none is kept |
| Cart.PriorChecked | src/pages/Cart/Cart.tsx:101 | an id absent from the old store gives false; true only when some old row with the id is checked; with unique ids it is exactly that row's flag |
| Cart.Reconciled | src/pages/Cart/Cart.tsx:93-107 | one row per fetched purchase, in fetch order, carrying that purchase unchanged and not disabled; a row is checked iff the old row with its id was checked or it is the buy-now purchase |
| Cart.ReconcileKeepsCheckedById | src/pages/Cart/Cart.tsx:96-101 | with unique ids, a checked old row stays checked after the fetch |
| Cart.ReconcileNewRowUnchecked | src/pages/Cart/Cart.tsx:98-101 | a fetched row with an id not in the old store starts unchecked unless it is the buy-now purchase |
| Cart.ReconcileIdempotent | src/pages/Cart/Cart.tsx:93-107 | reconciling the reconciled store against the same fetch changes nothing |
| Cart.ToggleOne | src/pages/Cart/Cart.tsx:115-127 | only rows with the id flip their check; every other row and field is unchanged; length and order are kept |
| Cart.ToggleOneTwice | src/pages/Cart/Cart.tsx:115-127 | clicking a row's checkbox twice restores the store |
| Cart.AllChecked | src/pages/Cart/Cart.tsx:67-69 | `every` holds of the empty store, and a fully checked store has its first row checked |
| Cart.SetAllChecked | src/pages/Cart/Cart.tsx:129-138 | every row gets the same check value, and nothing else changes |
| Cart.ToggleAll | src/pages/Cart/Cart.tsx:129-138 | select-all clears every row when all are checked and checks every row otherwise; purchases and disabled flags are kept |
| Cart.ToggleAllTwiceFromAllChecked | src/pages/Cart/Cart.tsx:129-138 | from a fully checked store, two clicks on select-all restore it |
| Cart.ToggleAllTwiceFromPartial | src/pages/Cart/Cart.tsx:129-138 | from a store that is not fully checked, two clicks on select-all clear every row |
| Cart.CartQuantityStep | src/pages/Cart/Cart.tsx:159-176 | decrease below min or increase above max is refused; otherwise the step is ±1; change clamps: below min gives min, above max gives max, in range keeps the value; an in-bounds value stays in bounds |
| Cart.SetBuyCount | src/pages/Cart/Cart.tsx:177-187 | only the row at the index gets the new count; every other row is unchanged |
| Cart.StoreAfterQuantity | src/pages/Cart/Cart.tsx:148-188 | a refused step leaves the store unchanged; an accepted step gives the row at the index the new count, keeping its flags and the rest of its purchase; rows at other indices are never touched |
| Cart.ScheduledBy | src/pages/Cart/Cart.tsx:155-169 | change never schedules a commit; an accepted plus/minus step schedules (index, new count) |
| Cart.SlotAfter | src/pages/Cart/Cart.tsx:26-34 | typing never touches the shared timer slot; the slot only changes to what the call schedules; an accepted plus/minus step overwrites it with (index, new count) |
| Cart.SlotAfterAll | src/pages/Cart/Cart.tsx:26-34 | after a burst of calls the slot holds the old pending pair or a pair scheduled by one of the calls |
| Cart.DebounceLastWriteWins | src/pages/Cart/Cart.tsx:26-34 | after a burst of calls, the single slot holds what the last scheduling call scheduled, for any row |
| Cart.ThreeIncreasesCommitOnce | src/pages/Cart/Cart.tsx:26-34 | three quick increases leave one pending commit carrying the final count |
| Cart.BlurOutcomeOf | src/pages/Cart/Cart.tsx:140-146 | no request exactly when a fetch exists, the index lies inside it, and the value equals the fetched count there; otherwise an update of that row's product with the value; an index past the lists throws |
| Cart.TypedQuantityStep | src/pages/Cart/Cart.tsx:159-176 | on a number it agrees with `CartQuantityStep`; with n the value read as a number: decrease is refused iff n − 1 < min and otherwise gives the number n − 1; plus is refused iff the value with "1" appended exceeds max and otherwise gives the number n + 1; change gives min below min, max above max, and keeps an in-range typed value as text |
| Cart.TypedIncreaseTestsConcatenation | src/pages/Cart/Cart.tsx:166 | after typing digits t, plus is refused iff 10 × t + 1 > max |
| Cart.TypedFiveCannotIncrease | src/pages/Cart/Cart.tsx:166 | typed "5" with a stock of 10 cannot be increased, where the numeric step gives 6 |
| Cart.BlurSkips | src/pages/Cart/Cart.tsx:141 | typed text is never skipped; a number is skipped iff it equals the fetched count at the index |
| Cart.RetypedCountStillSent | src/pages/Cart/Cart.tsx:140-146 | retyping the fetched count c gives text that reads as c, `BlurOutcomeOf` sends nothing, yet the test as written sends an update |
| Cart.Checked | src/pages/Cart/Cart.tsx:72-75 | the checked subset holds exactly the checked rows of the store |
| Cart.CheckedAppend | src/pages/Cart/Cart.tsx:72-75 | the filter keeps store order: it distributes over concatenation |
| Cart.Amount | src/pages/Cart/Cart.tsx:80 | one unit costs its price, and zero units cost nothing |
| Cart.Saving | src/pages/Cart/Cart.tsx:88 | a row's amount plus its saving is its amount at the list price |
| Cart.Reduce | src/pages/Cart/Cart.tsx:79-81 | the empty list reduces to 0, and non-negative terms give a non-negative total |
| Cart.TotalAmount | src/pages/Cart/Cart.tsx:77-83 | the total is 0 when nothing is checked |
| Cart.SavedMoney | src/pages/Cart/Cart.tsx:85-91 | the saving is 0 when nothing is checked |
| Cart.NoCheckedRows | src/pages/Cart/Cart.tsx:72-75 | with nothing checked, the checked subset is empty |
| Cart.ReduceAppend | src/pages/Cart/Cart.tsx:77-91 | the reduce adds up over concatenated lists |
| Cart.ReduceCheckedIsSumOverChecked | src/pages/Cart/Cart.tsx:77-91 | reducing the filtered list equals summing the checked rows of the whole store |
| Cart.TotalsAreSumsOverCheckedRows | src/pages/Cart/Cart.tsx:77-91 | the total is the sum of price × count over the checked rows; the saving is the sum of (list price − price) × count |
| Cart.SumOverCheckedAdds | src/pages/Cart/Cart.tsx:77-91 | the per-row amounts and savings add up to the per-row list amount |
| Cart.TotalPlusSavedIsListPrice | src/pages/Cart/Cart.tsx:77-91 | the total plus the saving is what the checked rows cost before discount |
| Cart.TotalsExample | src/pages/Cart/Cart.tsx:77-91 | two checked rows (100 listed at 150, twice; 50 at 50, once) total 250 and save 100 |
| Cart.BuyItems | src/pages/Cart/Cart.tsx:202-204 | one checkout line per row, carrying the row's product id and count, in order |
| Cart.BuyPayload | src/pages/Cart/Cart.tsx:200-212 | no request iff nothing is checked; otherwise the checked rows' product ids and counts, in store order |
| Cart.BuyAfterSelectAll | src/pages/Cart/Cart.tsx:200-212 | after select-all on a partly checked store, checkout sends every row in order |
| Cart.AllCheckedFilter | src/pages/Cart/Cart.tsx:67-75 | when every row is checked, the checked subset is the whole store |
| Cart.DeletePayload | src/pages/Cart/Cart.tsx:190-198 | a single id is sent as a one-element list; rows are sent as their ids, in order |
| Cart.RowIds | src/pages/Cart/Cart.tsx:193-195 | the ids of the rows, one per row, in order |
| Cart.EndToEndScenario | src/pages/Cart/Cart.tsx:93-138 | starting with A checked, a fetch of A and B keeps A checked and B unchecked; select-all checks both; unchecking A leaves B's amount as the total |
| Cart.CartPage.constructor | src/context/appContext.tsx:21 | the page starts with an empty store, nothing fetched, no pending commit and no request issued |
| Cart.CartPage.Reset | src/context/appContext.tsx:33-37 | the context reset empties the store and leaves the rest |
| Cart.CartPage.ReceivePurchases | src/pages/Cart/Cart.tsx:93-107 | the new store is the reconciled one, and the fetch is remembered |
| Cart.CartPage.CheckPurchase | src/pages/Cart/Cart.tsx:115-127 | the store becomes `ToggleOne` of the old store, and nothing else changes |
| Cart.CartPage.CheckAllPurchases | src/pages/Cart/Cart.tsx:129-138 | the store becomes `ToggleAll` of the old store, and nothing else changes |
| Cart.CartPage.ChangeQuantity | src/pages/Cart/Cart.tsx:148-188 | the store is updated per the step; the shared slot is overwritten only by an accepted plus/minus step |
| Cart.CartPage.HandleBlur | src/pages/Cart/Cart.tsx:140-146 | the outcome is `BlurOutcomeOf` the old state, and a sent update is appended to the outbox |
| Cart.CartPage.FireTimer | src/pages/Cart/Cart.tsx:26-34 | the pending (index, value), if any, goes through the blur handler once and the slot is emptied |
| Cart.CartPage.HandleDeletePurchases | src/pages/Cart/Cart.tsx:190-198 | one delete request with the payload is appended; the store is unchanged |
| Cart.CartPage.HandleBuyNow | src/pages/Cart/Cart.tsx:200-212 | checkout of the checked rows is appended, or the nothing-selected notice when none is checked |
| ProductDetail.NextQuantity | src/pages/ProductDetail/ProductDetail.tsx:74-93 | decrease saturates at min, increase at max; change clamps: below min gives min, above max gives max, an in-range value is kept |
| ProductDetail.QuantityStaysInBounds | src/pages/ProductDetail/ProductDetail.tsx:80-92 | from a value in [min, max], every action stays in [min, max] |
| ProductDetail.CartRefusesWherePageSaturates | src/pages/ProductDetail/ProductDetail.tsx:81-86 | where the cart accepts a step, both pages agree; where the cart refuses, the product page lands on the bound |
| ProductDetail.TypedNextQuantity | src/pages/ProductDetail/ProductDetail.tsx:74-93 | on a number it agrees with `NextQuantity`; with n the value read as a number: decrease gives min when n − 1 < min and otherwise n − 1; plus appends "1" to typed text when that stays within max and otherwise jumps to max; change gives min below min, max above max, and keeps an in-range value; a value in [min, max] stays there |
| ProductDetail.TypedIncreaseAppendsOne | src/pages/ProductDetail/ProductDetail.tsx:85-86 | after typing digits t with 10 × t + 1 <= max, plus gives the text t followed by "1", which reads as 10 × t + 1 |
| ProductDetail.TypedFiveJumpsToFiftyOne | src/pages/ProductDetail/ProductDetail.tsx:85-86 | typed "5" becomes "51" under a stock of 100 and jumps to the stock of 10, where the numeric rule gives 6 in both |
| ProductDetail.NextWindow | src/pages/ProductDetail/ProductDetail.tsx:58-68 | the window keeps its width; decrease at first = 0 and increase past the image count do nothing; first never goes negative |
| ProductDetail.WindowAfter | src/pages/ProductDetail/ProductDetail.tsx:20-68 | every window reached by clicking the arrows is five wide and starts at or above 0; before the product loads it never moves right |
| ProductDetail.ReachableWindowsValid | src/pages/ProductDetail/ProductDetail.tsx:20-28 | every window reachable from {0, 5} is five wide, starts at or above 0, and ends at or below max(5, image count) |
| ProductDetail.SkipCurrent | src/pages/ProductDetail/ProductDetail.tsx:248 | skipping the current product never lengthens the list |
| ProductDetail.SkipCurrentMembers | src/pages/ProductDetail/ProductDetail.tsx:248 | the list keeps exactly the products whose id is not the current one |
| ProductDetail.SkipCurrentAppend | src/pages/ProductDetail/ProductDetail.tsx:247-248 | skipping keeps order: it distributes over concatenation |
| ProductDetail.FirstOf | src/pages/ProductDetail/ProductDetail.tsx:247 | `slice(0, k)` is a prefix of the list, of length min(length, k) |
| ProductDetail.RelatedProducts | src/pages/ProductDetail/ProductDetail.tsx:247-248 | at most 17 products, namely those among the first 17 that are not the current product |
| ProductDetail.RelatedWithoutCurrent | src/pages/ProductDetail/ProductDetail.tsx:247-248 | when the current product is not among the first 17, they are shown as they are |
| ProductDetail.NothingSkipped | src/pages/ProductDetail/ProductDetail.tsx:248 | a list without the current product passes through unchanged |
| Helper.FindFrom | src/utils/helper.ts:22 | finds the leftmost `-i-` at or after a position, or reports that there is none |
| Helper.FindBefore | src/utils/helper.ts:22 | finds the rightmost `-i-` starting before a position, or reports that there is none |
| Helper.Split | src/utils/helper.ts:22 | `split('-i-')` gives at least one piece, and no piece contains the separator |
| Helper.SplitTakesLeftmost | src/utils/helper.ts:22 | a string without `-i-` is one piece; otherwise the first piece is the prefix before the leftmost `-i-`, and the rest is the split of what follows it |
| Helper.SplitJoin | src/utils/helper.ts:22 | joining the pieces with `-i-` gives the original string back |
| Helper.GetIdFromNameId | src/utils/helper.ts:21-24 | the id holds no separator; a string without a separator is returned whole |
| Helper.LastPieceStep | src/utils/helper.ts:21-24 | the last piece is unchanged by cutting off everything up to the first separator |
| Helper.RemoveSpecialCharacter | src/utils/helper.ts:26-28 | the output is no longer than the input and contains none of the listed characters |
| Helper.RemoveSpecialAppend | src/utils/helper.ts:26-28 | removal distributes over concatenation, so kept characters stay in order |
| Helper.RemoveSpecialKeepsPlain | src/utils/helper.ts:26-28 | a string without listed characters is unchanged, so removal is idempotent |
| Helper.RemoveSpecialOneChar | src/utils/helper.ts:26-28 | a listed character is deleted (replaced by nothing) and any other character is kept; with `RemoveSpecialAppend` this fixes the result of every string |
| Helper.DashWhitespace | src/utils/helper.ts:31 | each whitespace character becomes `-`, and every other character is kept in place |
| Helper.GenerateNameId | src/utils/helper.ts:30-32 | the slug is the cleaned name with whitespace turned into `-`, then `-i-`, then the id; that name part has no whitespace, and its only listed character is `-` |
| Helper.LastPieceAfterSeparator | src/utils/helper.ts:21-32 | splitting `t + "-i-" + id` ends in `id` when `t` does not end in `-i` and the id has no separator |
| Helper.DashIComesFromSpaceI | src/utils/helper.ts:30-32 | the name part ends in `-i` exactly when the cleaned name ends in whitespace followed by `i` |
| Helper.NameIdRoundTrip | src/utils/helper.ts:21-32 | the product page reads back the id when the id has no dash and the cleaned name does not end in whitespace + `i` |
| Helper.NameEndingInSpaceIBreaksRoundTrip | src/utils/helper.ts:21-32 | name "Ao i" with id "abc" gives slug "Ao-i-i-abc", which reads back as "i-abc" |
| Helper.GetIdFromNameIdLast | src/utils/helper.ts:21-24 | the corrected reading returns a suffix of the slug, and a string without a separator whole |
| Helper.NameIdRoundTripLast | src/utils/helper.ts:21-32 | with the corrected reading, every name round-trips whenever the id has no dash |
| Helper.ClampIndex | src/utils/helper.ts:37-39 | a `substring` index is clamped into [0, length], and an in-range index is kept |
| Helper.Substring | src/utils/helper.ts:37-39 | `substring(a, b)` over an in-range, ordered pair is the slice `[a, b)` |
| Helper.MaskChars | src/utils/helper.ts:38 | `/./g` replaces every character except line terminators; with a one-character mask the length is kept |
| Helper.HideText | src/utils/helper.ts:34-42 | the result is "" when end <= start; otherwise the prefix before start and the suffix from end are kept, and the middle is masked |
| Helper.HideTextKeepsLength | src/utils/helper.ts:37-41 | with a one-character mask, the masked text keeps its length |
| Helper.HideTextPastEnd | src/utils/helper.ts:34-42 | a range starting at or past the end masks nothing |
| Helper.HideTextDefaults | src/utils/helper.ts:34 | with default arguments, a one-line text becomes all stars |
| Schema.PriceIssues | src/utils/schema.ts:17-31 | at most one issue, always on `price_min` with the fixed message; raised iff a field is empty or min > max as numbers |
| Schema.EmptyFieldRejected | src/utils/schema.ts:24-29 | an empty field raises exactly one issue |
| Schema.DigitRangeAccepted | src/utils/schema.ts:17-31 | two digit strings are accepted iff min <= max |
| Schema.EqualBoundsAccepted | src/utils/schema.ts:18 | equal bounds are accepted |
| Schema.UnreadableBoundPasses | src/utils/schema.ts:18 | a non-empty field that `Number` cannot read passes the check |
| Schema.PriceIssuesExamples | src/utils/schema.ts:17-31 | ("10", "2") is rejected, ("2", "10") accepted, ("", "10") rejected |
| QueryOptions.PageParam | src/hooks/useQueryProductsOptions.ts:10 | the page is never empty, and a non-empty given page is kept |
| QueryOptions.QueryProductsOptions | src/hooks/useQueryProductsOptions.ts:8-22 | only the ten listed names appear; the page is always present; other present values are carried over unchanged |
| QueryOptions.MissingPageIsFirst | src/hooks/useQueryProductsOptions.ts:10 | a missing or empty page becomes "1" |
| QueryOptions.UnknownKeyDropped | src/hooks/useQueryProductsOptions.ts:9-20 | any unlisted search parameter is dropped |
| QueryOptions.EmptyValueKept | src/hooks/useQueryProductsOptions.ts:11-22 | an empty value of a name other than the page is kept |
| QueryOptions.QueryProductsOptionsIdempotent | src/hooks/useQueryProductsOptions.ts:8-22 | reading the options of an options record changes nothing |
| Pagination.Shifted | src/pages/Products/components/Pagination/Pagination.tsx:28 | NaN stays NaN under ±1; a number is shifted by exactly the amount |
| Pagination.PageOf | src/pages/Products/components/Pagination/Pagination.tsx:15 | a missing page is NaN; "" reads as 0; digits read as a non-negative number; a read page is `Number(page)` |
| Pagination.WithPage | src/pages/Products/components/Pagination/Pagination.tsx:43-49 | the link's page reads as the given number, and every other parameter is kept |
| Pagination.PrevLink | src/pages/Products/components/Pagination/Pagination.tsx:20-34 | no link iff page is 1; otherwise the link targets page − 1 and keeps every other parameter |
| Pagination.NextLink | src/pages/Products/components/Pagination/Pagination.tsx:62-76 | no link iff page equals the page count; otherwise the link targets page + 1 and keeps every other parameter |
| Pagination.PageLinks | src/pages/Products/components/Pagination/Pagination.tsx:37-59 | exactly pageSize numbered links |
| Pagination.PageLinksAscending | src/pages/Products/components/Pagination/Pagination.tsx:37-41 | links are numbered from 1 to pageSize, ascending |
| Pagination.PageLinkLandsOnItsPage | src/pages/Products/components/Pagination/Pagination.tsx:43-49 | each link leads to its own page number and keeps every other parameter |
| Pagination.AtMostOneActive | src/pages/Products/components/Pagination/Pagination.tsx:51-54 | at most one link is highlighted, the one numbered with the page; one is highlighted iff 1 <= page <= pageSize |
| Pagination.PrevThenNext | src/pages/Products/components/Pagination/Pagination.tsx:20-76 | going back and then forward returns to the same page, NaN included |
| Pagination.PrevFromLaterPage | src/pages/Products/components/Pagination/Pagination.tsx:20-34 | from page p >= 2, the previous arrow leads to page p − 1 >= 1 |
| SortButtons.SortByOf | src/pages/Products/components/SortButtons/SortButtons.tsx:17 | a missing sort key means `createdAt` |
| SortButtons.ChangeSortValue | src/pages/Products/components/SortButtons/SortButtons.tsx:21-34 | sets `sort_by`, removes `order`, and keeps every other parameter, including the page |
| SortButtons.SortByPrice | src/pages/Products/components/SortButtons/SortButtons.tsx:36-46 | sets `sort_by=price`, the chosen order and `page=1`, keeping every other parameter |
| SortButtons.KeyOf | src/pages/Products/components/SortButtons/SortButtons.tsx:57-88 | no sort button selects `price` |
| SortButtons.ButtonActive | src/pages/Products/components/SortButtons/SortButtons.tsx:57-88 | with no sort key only the newest-first button is highlighted; sorting by price highlights none |
| SortButtons.PriceSelectActive | src/pages/Products/components/SortButtons/SortButtons.tsx:102-107 | the select is not highlighted when the order is missing or empty |
| SortButtons.AtMostOneButtonActive | src/pages/Products/components/SortButtons/SortButtons.tsx:17-88 | at most one of the three buttons is highlighted; with no sort key it is the newest-first one |
| SortButtons.ClickedButtonActive | src/pages/Products/components/SortButtons/SortButtons.tsx:21-88 | after a button is clicked, exactly that button is highlighted and the price select is not |
| SortButtons.PriceSortClearsButtons | src/pages/Products/components/SortButtons/SortButtons.tsx:36-46 | after a price order is chosen, no button is highlighted, the select is, and the page is 1 |
| SortButtons.MiniPageController | src/pages/Products/components/SortButtons/SortButtons.tsx:144-180 | shows page and count; back arrow iff page ≠ 1, targeting page − 1; forward arrow iff page ≠ count, targeting page + 1; other parameters are kept |
| AsideFilter.SanitizePrice | src/pages/Products/components/AsideFilter/AsideFilter.tsx:39-44 | the result is the value or the value without its last character, and it is the value iff the value is all digits |
| AsideFilter.TypedCharKeepsDigits | src/pages/Products/components/AsideFilter/AsideFilter.tsx:42-43 | a digit-only value plus one typed character stays digit-only: a digit is kept, anything else dropped |
| AsideFilter.MidInsertKeepsNonDigit | src/pages/Products/components/AsideFilter/AsideFilter.tsx:42-43 | "a12" becomes "a1", which is not all digits |
| AsideFilter.SubmitParams | src/pages/Products/components/AsideFilter/AsideFilter.tsx:46-55 | both price bounds are set, and every other parameter is kept |
| AsideFilter.ClearedParams | src/pages/Products/components/AsideFilter/AsideFilter.tsx:57-71 | the price and rating filters are removed, the page becomes 1, and every other parameter is kept |
| AsideFilter.ClearedParamsIdempotent | src/pages/Products/components/AsideFilter/AsideFilter.tsx:57-71 | clearing twice is the same as clearing once |
| AsideFilter.PriceFilterForm.constructor | src/pages/Products/components/AsideFilter/AsideFilter.tsx:28-37 | the form starts with both inputs empty and no message |
| AsideFilter.PriceFilterForm.HandlePriceChange | src/pages/Products/components/AsideFilter/AsideFilter.tsx:39-44 | the message is cleared, the edited input holds the sanitised value, and the other input is unchanged |
| AsideFilter.PriceFilterForm.Submit | src/pages/Products/components/AsideFilter/AsideFilter.tsx:46-55 | navigates iff the range is valid, to the options with both bounds set; otherwise shows the issue |
| AsideFilter.PriceFilterForm.Reset | src/pages/Products/components/AsideFilter/AsideFilter.tsx:33 | both inputs are empty and there is no message |
| AsideFilter.PriceFilterForm.ClearAllFilters | src/pages/Products/components/AsideFilter/AsideFilter.tsx:57-71 | resets the form and navigates to the cleared options |
| AsideFilter.PriceFilterForm.FollowCategoryLink | src/pages/Products/components/AsideFilter/AsideFilter.tsx:84-107 | resets the form; "all" leads to the listing with no parameter, a category link to the options holding that category alone |
| AsideFilter.CategoryOf | src/pages/Products/components/AsideFilter/AsideFilter.tsx:26 | a missing category means "" |
| AsideFilter.CategoryLinkParams | src/pages/Products/components/AsideFilter/AsideFilter.tsx:101-105 | a category link carries `category` alone, so every other filter is dropped |
| AsideFilter.CategoryFlags | src/pages/Products/components/AsideFilter/AsideFilter.tsx:88-111 | "all" is highlighted iff the category is ""; a category is highlighted iff its id is the category |
| AsideFilter.ExactlyOneCategoryActive | src/pages/Products/components/AsideFilter/AsideFilter.tsx:88-111 | with distinct non-empty ids, exactly one entry is highlighted when the category is "" or one of the ids |
| AsideFilter.CategoryLinkActivates | src/pages/Products/components/AsideFilter/AsideFilter.tsx:101-111 | following a category's link highlights it and nothing else |
| AsideFilter.RatingLinkParams | src/pages/Products/components/AsideFilter/AsideFilter.tsx:166-171 | the rating filter reads as the option, and every other parameter is kept |
| AsideFilter.RatingActive | src/pages/Products/components/AsideFilter/AsideFilter.tsx:162 | with no rating filter no row is highlighted; an empty one matches only 0, which is no option; a highlighted row's option is `Number(rating_filter)` |
| AsideFilter.RatingLinkActivates | src/pages/Products/components/AsideFilter/AsideFilter.tsx:161-171 | following row i's link highlights row i and no other row |
| AsideFilter.StarRow | src/pages/Products/components/AsideFilter/AsideFilter.tsx:178-188 | every row draws five stars |
| AsideFilter.StarCountMatchesOption | src/pages/Products/components/AsideFilter/AsideFilter.tsx:21-22 | row i lights exactly as many stars as its option, 5 − i |
| NumberInput.ForwardedValue | src/components/NumberInput/NumberInput.tsx:7-10 | forwarded unchanged iff `onChange` exists and the value is empty or all digits |
| NumberInput.NonDigitRejected | src/components/NumberInput/NumberInput.tsx:9 | a value containing a non-digit is never forwarded |
| NumberInput.AgreesWithPriceGuard | src/components/NumberInput/NumberInput.tsx:9 | the input accepts exactly the values the price handler leaves unchanged |

## Left out

- **Network calls.** The API layer, mutations, refetching and toasts are not modelled. Requests and the nothing-selected toast become `Cart.Event` values in the page's outbox. Their responses are not modelled: a fetch arrives as `Cart.CartPage.ReceivePurchases`.
- **Timers.** `setTimeout`, `clearTimeout` and the 600 ms delay are not modelled. The debounce is the `pending` slot plus an explicit `FireTimer` step.
- **The debounce snapshot.** The debounced callback closes over the render in which it was scheduled. The model's `FireTimer` instead reads the store and fetch current at the moment it fires.
- **`history.replaceState`.** The browser call that makes the buy-now id single-use is not modelled. The buy-now id is an input of `ReceivePurchases`.
- **The `default: throw` branch of the quantity handler.** It is unreachable with the three-valued `QuantityAction`.
- **Ignored record fields.** Purchase and product fields that no modelled rule reads are left out: timestamps, images, rating, sold, view and description.
- **Categories.** A category is reduced to its id and name.
- **Numbers.NumberOf** models `Number(s)` only for "" and digit strings, optionally signed. Other spellings are treated as NaN here, although JavaScript reads them: whitespace, decimals, exponents, hexadecimal and `Infinity`.
- **Number formatting.** Floating point and `Intl` formatting are not modelled: currency and compact-number formatting, the discount percentage, fractional star widths and the rounding of ratings. Prices and counts are unbounded integers.
- **Helper.HideText** takes `replaceWith` literally. `String.replace` would expand `$`-patterns in it. Characters are Dafny characters rather than UTF-16 code units.
- **Helper.RemoveSpecialCharacter** and **Helper.GenerateNameId** perform no Unicode normalisation.
- Cart.CartQuantityStep, Cart.BlurOutcomeOf and ProductDetail.NextQuantity take the quantity as a number, which is the intended behaviour. After typing, the source holds the typed text instead, and only `Cart.TypedQuantityStep`, `Cart.BlurSkips` and `ProductDetail.TypedNextQuantity` model that. As a result, the store of `Cart.CartPage` and the product page's quantity hold numbers only. A typed count is taken to be read as a number before it reaches them.
- **`getAvatarUrl`.** It depends on a build-time environment variable.
- **Forms and the date picker.** The login, register, password and profile form wrappers and the date picker are not modelled. The form library's internals are reduced to the three fields of `AsideFilter.PriceFilterForm`.
- **Rendering.** Markup and class names are not modelled, apart from the highlight flags and star counts stated above. The empty-cart view and the "trở lên" label are not modelled either.
- **Search-parameter encoding.** Parameter order and repeated names in the address bar are not modelled. The options record is a map from name to one value.
- **Parameter types.** Values keep the types the options record declares only as text. For example, a default page of the number 1 is written as "1".

## Findings

| source | as written | input that shows it | evidently intended | confidence | as-written member | corrected member |
|---|---|---|---|---|---|---|
| src/utils/helper.ts:21-24 | the id is the last piece of a left-to-right split on `-i-` | name "Ao i", id "abc": slug "Ao-i-i-abc" splits into "Ao", "i-abc", so the product page asks for "i-abc" | the id is the text after the last `-i-`, so every slug reads back as its id | not executed | Helper.NameEndingInSpaceIBreaksRoundTrip | Helper.NameIdRoundTripLast |
| src/pages/Cart/Cart.tsx:166 | after typing, the quantity is text (src/components/QuantityController/QuantityController.tsx:38 only casts it), so `value + 1 > max` compares the text with "1" appended | typed "5", stock 10: "51" > 10, so plus is refused | plus is refused only when the count plus one exceeds the stock | not executed | Cart.TypedFiveCannotIncrease | Cart.CartQuantityStep |
| src/pages/Cart/Cart.tsx:141 | `value === buy_count` compares typed text with a number, which is never equal | retype the fetched count 2 as "2" and leave the input: an update is sent | no request when the value equals the fetched count | not executed | Cart.RetypedCountStillSent | Cart.BlurOutcomeOf |
| src/pages/ProductDetail/ProductDetail.tsx:85-86 | after typing, `value + 1` appends "1" to the text | typed "5", stock 100: plus gives "51"; with stock 10 it jumps to 10 | plus adds one, saturating at the stock | not executed | ProductDetail.TypedFiveJumpsToFiftyOne | ProductDetail.NextQuantity |
