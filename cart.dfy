/**
 * The cart page: the store of fetched purchases annotated with two UI flags,
 * the selection and quantity handlers that replace it, the single pending
 * debounce slot for quantity commits, the derived totals and the payloads
 * of the update, delete and buy requests. Requests and notices are recorded
 * in an outbox instead of being sent.
 */
module Cart {
  import opened Wrappers
  import opened Types
  import opened QuantityActions
  import Numbers

  /** A purchase with the two client-only flags of the cart page. */
  datatype ExtendedPurchase = ExtendedPurchase(purchase: Purchase, isChecked: bool, isDisabled: bool)

  /** One line of the checkout request. */
  datatype BuyItem = BuyItem(productId: string, buyCount: int)

  /** The delete handler takes one purchase id or a list of rows. */
  datatype DeleteTarget = OnePurchase(id: string) | Rows(rows: seq<ExtendedPurchase>)

  /** What the page hands to the outside world: three requests and the empty-selection notice. */
  datatype Event =
    | UpdatePurchase(productId: string, buyCount: int)
    | DeletePurchases(ids: seq<string>)
    | BuyProducts(items: seq<BuyItem>)
    | NothingSelectedNotice

  /** What a blur (or a fired debounce) does: nothing, one update request, or a thrown TypeError. */
  datatype BlurOutcome = Unchanged | Sent(event: Event) | TypeError

  /** One call of the quantity handler, as the controller reports it. */
  datatype QuantityInput = QuantityInput(index: int, value: int, min: int, max: int, action: QuantityAction)

  predicate UniqueIds(s: seq<ExtendedPurchase>) {
    forall a, b :: 0 <= a < b < |s| ==> s[a].purchase.id != s[b].purchase.id
  }

  // ---------------------------------------------------------------- reconcile

  /** The entry `keyBy(prev, '_id')` keeps for `id`: the last row with that id, if any. */
  function KeyedIndex(prev: seq<ExtendedPurchase>, id: string): (r: Option<nat>)
    ensures r.None? ==> forall k :: 0 <= k < |prev| ==> prev[k].purchase.id != id
    ensures r.Some? ==> r.value < |prev| && prev[r.value].purchase.id == id
    ensures r.Some? ==> forall k :: r.value < k < |prev| ==> prev[k].purchase.id != id
  {
    if prev == [] then None
    else if prev[|prev| - 1].purchase.id == id then Some(|prev| - 1)
    else KeyedIndex(prev[..|prev| - 1], id)
  }

  /** `Boolean(extendedPurchasesObj[id]?.isChecked)`: false when the id was not in the store. */
  function PriorChecked(prev: seq<ExtendedPurchase>, id: string): (checked: bool)
    ensures (forall k :: 0 <= k < |prev| ==> prev[k].purchase.id != id) ==> !checked
    ensures checked ==> exists k :: 0 <= k < |prev| && prev[k].purchase.id == id && prev[k].isChecked
    ensures UniqueIds(prev) ==> forall k :: 0 <= k < |prev| && prev[k].purchase.id == id ==> (checked <==> prev[k].isChecked)
  {
    match KeyedIndex(prev, id)
    case None => false
    case Some(j) => prev[j].isChecked
  }

  function ReconciledRow(prev: seq<ExtendedPurchase>, p: Purchase, buyNowPurchaseId: Option<string>): ExtendedPurchase {
    ExtendedPurchase(p, PriorChecked(prev, p.id) || buyNowPurchaseId == Some(p.id), false)
  }

  /**
   * The store after a fetch: exactly the fetched purchases, in fetch order,
   * each keeping the selection it had under the same id (or forced on when it
   * is the buy-now purchase) and none disabled.
   */
  function Reconciled(prev: seq<ExtendedPurchase>, data: seq<Purchase>, buyNowPurchaseId: Option<string>): (r: seq<ExtendedPurchase>)
    ensures |r| == |data|
    ensures forall i :: 0 <= i < |data| ==> r[i].purchase == data[i] && !r[i].isDisabled
    ensures forall i :: 0 <= i < |data| ==>
      (r[i].isChecked <==> PriorChecked(prev, data[i].id) || buyNowPurchaseId == Some(data[i].id))
  {
    if data == [] then []
    else [ReconciledRow(prev, data[0], buyNowPurchaseId)] + Reconciled(prev, data[1..], buyNowPurchaseId)
  }

  /** With unique ids in the old store, a fetched row keeps the selection of the old row with its id. */
  lemma ReconcileKeepsCheckedById(prev: seq<ExtendedPurchase>, data: seq<Purchase>, buyNowPurchaseId: Option<string>, i: nat, j: nat)
    requires UniqueIds(prev)
    requires i < |data| && j < |prev| && prev[j].purchase.id == data[i].id
    ensures Reconciled(prev, data, buyNowPurchaseId)[i].isChecked
      == (prev[j].isChecked || buyNowPurchaseId == Some(data[i].id))
  {
    var k := KeyedIndex(prev, data[i].id);
    assert k == Some(j);
  }

  /** A fetched row whose id was not in the old store starts unchecked unless it is the buy-now purchase. */
  lemma ReconcileNewRowUnchecked(prev: seq<ExtendedPurchase>, data: seq<Purchase>, buyNowPurchaseId: Option<string>, i: nat)
    requires i < |data|
    requires forall k :: 0 <= k < |prev| ==> prev[k].purchase.id != data[i].id
    requires buyNowPurchaseId != Some(data[i].id)
    ensures !Reconciled(prev, data, buyNowPurchaseId)[i].isChecked
  {
  }

  /** Reconciling the reconciled store against the same fetch changes nothing. */
  lemma ReconcileIdempotent(prev: seq<ExtendedPurchase>, data: seq<Purchase>, buyNowPurchaseId: Option<string>)
    ensures Reconciled(Reconciled(prev, data, buyNowPurchaseId), data, buyNowPurchaseId)
      == Reconciled(prev, data, buyNowPurchaseId)
  {
    var r1 := Reconciled(prev, data, buyNowPurchaseId);
    var r2 := Reconciled(r1, data, buyNowPurchaseId);
    forall i | 0 <= i < |data|
      ensures r2[i] == r1[i]
    {
      var id := data[i].id;
      assert r1[i].purchase.id == id;
      var j := KeyedIndex(r1, id);
      assert j.Some?;
      assert r1[j.value].purchase == data[j.value];
      assert PriorChecked(r1, id) == (PriorChecked(prev, id) || buyNowPurchaseId == Some(id));
    }
  }

  // ---------------------------------------------------------------- selection

  function FlipIfId(e: ExtendedPurchase, id: string): ExtendedPurchase {
    if e.purchase.id == id then e.(isChecked := !e.isChecked) else e
  }

  /** One row's checkbox: the selection flips on the rows with `id`, everything else stays. */
  function ToggleOne(s: seq<ExtendedPurchase>, id: string): (r: seq<ExtendedPurchase>)
    ensures |r| == |s|
    ensures forall i :: 0 <= i < |s| && s[i].purchase.id != id ==> r[i] == s[i]
    ensures forall i :: 0 <= i < |s| && s[i].purchase.id == id ==>
      r[i].purchase == s[i].purchase && r[i].isDisabled == s[i].isDisabled && r[i].isChecked == !s[i].isChecked
  {
    if s == [] then [] else [FlipIfId(s[0], id)] + ToggleOne(s[1..], id)
  }

  /** Clicking the same row twice restores the store. */
  lemma ToggleOneTwice(s: seq<ExtendedPurchase>, id: string)
    ensures ToggleOne(ToggleOne(s, id), id) == s
  {
    var r := ToggleOne(ToggleOne(s, id), id);
    forall i | 0 <= i < |s| ensures r[i] == s[i] {
      if s[i].purchase.id == id {
        assert r[i] == ExtendedPurchase(s[i].purchase, s[i].isChecked, s[i].isDisabled);
      }
    }
  }

  /** `every(p => p.isChecked)`, which holds of the empty store. */
  predicate AllChecked(s: seq<ExtendedPurchase>)
    ensures s == [] ==> AllChecked(s)
    ensures AllChecked(s) && s != [] ==> s[0].isChecked
  {
    forall i :: 0 <= i < |s| ==> s[i].isChecked
  }

  predicate NoneChecked(s: seq<ExtendedPurchase>) {
    forall i :: 0 <= i < |s| ==> !s[i].isChecked
  }

  function SetAllChecked(s: seq<ExtendedPurchase>, b: bool): (r: seq<ExtendedPurchase>)
    ensures |r| == |s|
    ensures forall i :: 0 <= i < |s| ==> r[i] == s[i].(isChecked := b)
  {
    if s == [] then [] else [s[0].(isChecked := b)] + SetAllChecked(s[1..], b)
  }

  /** The select-all checkbox: clear every row when all are selected, otherwise select every row. */
  function ToggleAll(s: seq<ExtendedPurchase>): (r: seq<ExtendedPurchase>)
    ensures |r| == |s|
    ensures forall i :: 0 <= i < |s| ==> r[i].purchase == s[i].purchase && r[i].isDisabled == s[i].isDisabled
    ensures AllChecked(s) ==> NoneChecked(r)
    ensures !AllChecked(s) ==> AllChecked(r)
  {
    SetAllChecked(s, !AllChecked(s))
  }

  /** From a fully selected store, two clicks on select-all give back the same store. */
  lemma ToggleAllTwiceFromAllChecked(s: seq<ExtendedPurchase>)
    requires AllChecked(s)
    ensures ToggleAll(ToggleAll(s)) == s
  {
    var t := ToggleAll(s);
    if s != [] {
      assert !t[0].isChecked;
      var u := ToggleAll(t);
      forall i | 0 <= i < |s| ensures u[i] == s[i] {
        assert u[i] == t[i].(isChecked := true);
      }
    }
  }

  /** From a non-empty, partly selected store, two clicks on select-all clear every row. */
  lemma ToggleAllTwiceFromPartial(s: seq<ExtendedPurchase>)
    requires !AllChecked(s)
    ensures NoneChecked(ToggleAll(ToggleAll(s)))
  {
  }

  // ---------------------------------------------------------------- quantity

  /**
   * The cart's quantity rule: a step past a bound is refused (`None`, an
   * early return); typing is clamped into the bounds.
   */
  function CartQuantityStep(value: int, min: int, max: int, action: QuantityAction): (r: Option<int>)
    ensures action == Decrease ==> (r.None? <==> value - 1 < min) && (r.Some? ==> r.value == value - 1)
    ensures action == Increase ==> (r.None? <==> value + 1 > max) && (r.Some? ==> r.value == value + 1)
    ensures action == Change ==> r.Some?
    ensures action == Change && min <= value <= max ==> r == Some(value)
    ensures action == Change && value < min ==> r == Some(min)
    ensures action == Change && min <= value && value > max ==> r == Some(max)
    ensures action == Change && min <= max ==> min <= r.value <= max
    ensures r.Some? && min <= value <= max ==> min <= r.value <= max
  {
    match action
    case Decrease => if value - 1 < min then None else Some(value - 1)
    case Increase => if value + 1 > max then None else Some(value + 1)
    case Change => Some(if value < min then min else if value > max then max else value)
  }

  /** The new buy count of row `index`; rows at other positions are untouched. */
  function SetBuyCount(s: seq<ExtendedPurchase>, index: int, v: int): (r: seq<ExtendedPurchase>)
    ensures |r| == |s|
    ensures forall i :: 0 <= i < |s| && i != index ==> r[i] == s[i]
    ensures 0 <= index < |s| ==>
      r[index].purchase == s[index].purchase.(buyCount := v)
      && r[index].isChecked == s[index].isChecked && r[index].isDisabled == s[index].isDisabled
  {
    if 0 <= index < |s| then s[index := s[index].(purchase := s[index].purchase.(buyCount := v))] else s
  }

  /** The store after one quantity call: unchanged when the step is refused. */
  function StoreAfterQuantity(s: seq<ExtendedPurchase>, q: QuantityInput): (r: seq<ExtendedPurchase>)
    ensures CartQuantityStep(q.value, q.min, q.max, q.action).None? ==> r == s
    ensures |r| == |s|
    ensures forall i :: 0 <= i < |s| && i != q.index ==> r[i] == s[i]
    ensures CartQuantityStep(q.value, q.min, q.max, q.action).Some? && 0 <= q.index < |s| ==>
      r[q.index] == s[q.index].(purchase := s[q.index].purchase.(buyCount := CartQuantityStep(q.value, q.min, q.max, q.action).value))
  {
    match CartQuantityStep(q.value, q.min, q.max, q.action)
    case None => s
    case Some(v) => SetBuyCount(s, q.index, v)
  }

  // ---------------------------------------------------------------- debounce

  /** The (index, value) a quantity call hands to the debounced commit: only accepted plus/minus steps. */
  function ScheduledBy(q: QuantityInput): (r: Option<(int, int)>)
    ensures q.action == Change ==> r.None?
    ensures r.Some? ==> r.value.0 == q.index && Some(r.value.1) == CartQuantityStep(q.value, q.min, q.max, q.action)
    ensures q.action != Change && CartQuantityStep(q.value, q.min, q.max, q.action).Some? ==> r.Some?
  {
    if q.action == Change then None
    else match CartQuantityStep(q.value, q.min, q.max, q.action)
      case None => None
      case Some(v) => Some((q.index, v))
  }

  /** The one shared timer slot after a call: a new schedule replaces whatever was pending. */
  function SlotAfter(slot: Option<(int, int)>, q: QuantityInput): (r: Option<(int, int)>)
    ensures q.action == Change ==> r == slot
    ensures r != slot ==> r == ScheduledBy(q)
    ensures q.action != Change && CartQuantityStep(q.value, q.min, q.max, q.action).Some? ==>
      r == Some((q.index, CartQuantityStep(q.value, q.min, q.max, q.action).value))
  {
    if ScheduledBy(q).Some? then ScheduledBy(q) else slot
  }

  /** The slot after a burst of calls: it holds the old pending pair or a pair one of the calls scheduled. */
  function SlotAfterAll(slot: Option<(int, int)>, qs: seq<QuantityInput>): (r: Option<(int, int)>)
    ensures r != slot ==> exists k :: 0 <= k < |qs| && r == ScheduledBy(qs[k])
    decreases |qs|
  {
    if qs == [] then slot
    else
      var r := SlotAfterAll(SlotAfter(slot, qs[0]), qs[1..]);
      assert r != SlotAfter(slot, qs[0]) ==> exists k :: 1 <= k < |qs| && r == ScheduledBy(qs[k]) by {
        if r != SlotAfter(slot, qs[0]) {
          var k :| 0 <= k < |qs[1..]| && r == ScheduledBy(qs[1..][k]);
          assert qs[1..][k] == qs[k + 1];
        }
      }
      r
  }

  /**
   * Last write wins: after a burst of quantity calls the slot holds what the
   * last scheduling call scheduled, or what was pending before if none did.
   */
  lemma {:induction false} DebounceLastWriteWins(slot: Option<(int, int)>, qs: seq<QuantityInput>, j: int)
    requires -1 <= j < |qs|
    requires j >= 0 ==> ScheduledBy(qs[j]).Some?
    requires forall k :: j < k < |qs| ==> ScheduledBy(qs[k]).None?
    ensures SlotAfterAll(slot, qs) == if j >= 0 then ScheduledBy(qs[j]) else slot
    decreases |qs|
  {
    if qs != [] {
      var next := SlotAfter(slot, qs[0]);
      if j <= 0 {
        DebounceLastWriteWins(next, qs[1..], -1);
      } else {
        DebounceLastWriteWins(next, qs[1..], j - 1);
      }
    }
  }

  /** Three quick presses of plus on one row leave a single pending commit carrying the final count. */
  lemma ThreeIncreasesCommitOnce(slot: Option<(int, int)>, index: int, v: int, min: int, max: int)
    requires v + 3 <= max
    ensures SlotAfterAll(slot, [QuantityInput(index, v, min, max, Increase),
                                QuantityInput(index, v + 1, min, max, Increase),
                                QuantityInput(index, v + 2, min, max, Increase)]) == Some((index, v + 3))
  {
    var qs := [QuantityInput(index, v, min, max, Increase),
               QuantityInput(index, v + 1, min, max, Increase),
               QuantityInput(index, v + 2, min, max, Increase)];
    DebounceLastWriteWins(slot, qs, 2);
  }

  /**
   * `handleBlur`: nothing when the value equals the fetched count at that
   * index, otherwise an update of that row's product; an index past the
   * fetched list or the store reads `undefined` and throws.
   */
  function BlurOutcomeOf(fetched: Option<seq<Purchase>>, store: seq<ExtendedPurchase>, index: int, value: int): (r: BlurOutcome)
    ensures fetched.Some? && 0 <= index < |fetched.value| && value == fetched.value[index].buyCount ==> r == Unchanged
    ensures r.Sent? <==>
      0 <= index < |store| && (fetched.None? || (0 <= index < |fetched.value| && value != fetched.value[index].buyCount))
    ensures r.Sent? ==> r.event == UpdatePurchase(store[index].purchase.product.id, value)
    ensures r.Unchanged? ==> fetched.Some? && 0 <= index < |fetched.value| && value == fetched.value[index].buyCount
  {
    match fetched
    case Some(data) =>
      if !(0 <= index < |data|) then TypeError
      else if value == data[index].buyCount then Unchanged
      else if !(0 <= index < |store|) then TypeError
      else Sent(UpdatePurchase(store[index].purchase.product.id, value))
    case None =>
      if !(0 <= index < |store|) then TypeError
      else Sent(UpdatePurchase(store[index].purchase.product.id, value))
  }

  function EventsOf(outcome: BlurOutcome): seq<Event> {
    if outcome.Sent? then [outcome.event] else []
  }

  // ---------------------------------------------------------------- totals

  /** `extendedPurchases.filter(p => p.isChecked)`. */
  function Checked(s: seq<ExtendedPurchase>): (c: seq<ExtendedPurchase>)
    ensures |c| <= |s|
    ensures forall e :: e in c <==> e in s && e.isChecked
  {
    if s == [] then []
    else (if s[0].isChecked then [s[0]] else []) + Checked(s[1..])
  }

  /** The checked subset keeps store order: filtering distributes over concatenation. */
  lemma {:induction false} CheckedAppend(a: seq<ExtendedPurchase>, b: seq<ExtendedPurchase>)
    ensures Checked(a + b) == Checked(a) + Checked(b)
    decreases |a|
  {
    if a == [] {
      assert a + b == b;
    } else {
      var ab := a + b;
      assert ab[0] == a[0] && ab[1..] == a[1..] + b;
      CheckedAppend(a[1..], b);
      var head := if a[0].isChecked then [a[0]] else [];
      assert Checked(ab) == head + Checked(a[1..] + b);
      assert Checked(a) == head + Checked(a[1..]);
    }
  }

  /** What one row adds to the total: the purchase's own price times its count. */
  function Amount(e: ExtendedPurchase): (amount: int)
    ensures e.purchase.buyCount == 1 ==> amount == e.purchase.price
    ensures e.purchase.buyCount == 0 ==> amount == 0
  {
    e.purchase.price * e.purchase.buyCount
  }

  /** What one row saves: the purchase's own discount times its count. */
  function Saving(e: ExtendedPurchase): (saving: int)
    ensures Amount(e) + saving == ListAmount(e)
  {
    (e.purchase.priceBeforeDiscount - e.purchase.price) * e.purchase.buyCount
  }

  /** `rows.reduce((total, p) => total + f(p), 0)`: a left fold. */
  function Reduce(rows: seq<ExtendedPurchase>, f: ExtendedPurchase -> int): (total: int)
    ensures rows == [] ==> total == 0
    ensures (forall i :: 0 <= i < |rows| ==> f(rows[i]) >= 0) ==> total >= 0
  {
    if rows == [] then 0 else Reduce(rows[..|rows| - 1], f) + f(rows[|rows| - 1])
  }

  /** Reference sum over the whole store, counting only the checked rows. */
  function SumOverChecked(s: seq<ExtendedPurchase>, f: ExtendedPurchase -> int): int {
    if s == [] then 0 else (if s[0].isChecked then f(s[0]) else 0) + SumOverChecked(s[1..], f)
  }

  function TotalAmount(s: seq<ExtendedPurchase>): (total: int)
    ensures NoneChecked(s) ==> total == 0
  {
    NoCheckedRows(s);
    Reduce(Checked(s), Amount)
  }

  function SavedMoney(s: seq<ExtendedPurchase>): (saved: int)
    ensures NoneChecked(s) ==> saved == 0
  {
    NoCheckedRows(s);
    Reduce(Checked(s), Saving)
  }

  lemma NoCheckedRows(s: seq<ExtendedPurchase>)
    ensures NoneChecked(s) ==> Checked(s) == []
  {
    if Checked(s) != [] {
      assert Checked(s)[0] in s;
    }
  }

  lemma {:induction false} ReduceAppend(a: seq<ExtendedPurchase>, b: seq<ExtendedPurchase>, f: ExtendedPurchase -> int)
    ensures Reduce(a + b, f) == Reduce(a, f) + Reduce(b, f)
    decreases |b|
  {
    if b == [] {
      assert a + b == a;
    } else {
      ReduceAppend(a, b[..|b| - 1], f);
      assert (a + b)[..|a + b| - 1] == a + b[..|b| - 1];
    }
  }

  /** Folding over the filtered subset equals summing the checked rows of the whole store. */
  lemma {:induction false} ReduceCheckedIsSumOverChecked(s: seq<ExtendedPurchase>, f: ExtendedPurchase -> int)
    ensures Reduce(Checked(s), f) == SumOverChecked(s, f)
    decreases |s|
  {
    if s != [] {
      ReduceCheckedIsSumOverChecked(s[1..], f);
      var head := if s[0].isChecked then [s[0]] else [];
      ReduceAppend(head, Checked(s[1..]), f);
      if s[0].isChecked {
        assert Reduce(head, f) == Reduce([], f) + f(s[0]);
      }
    }
  }

  /** Both totals are sums over the checked rows of the store, unchecked rows adding nothing. */
  lemma TotalsAreSumsOverCheckedRows(s: seq<ExtendedPurchase>)
    ensures TotalAmount(s) == SumOverChecked(s, Amount)
    ensures SavedMoney(s) == SumOverChecked(s, Saving)
  {
    ReduceCheckedIsSumOverChecked(s, Amount);
    ReduceCheckedIsSumOverChecked(s, Saving);
  }

  function ListAmount(e: ExtendedPurchase): int {
    e.purchase.priceBeforeDiscount * e.purchase.buyCount
  }

  lemma {:induction false} SumOverCheckedAdds(s: seq<ExtendedPurchase>)
    ensures SumOverChecked(s, Amount) + SumOverChecked(s, Saving) == SumOverChecked(s, ListAmount)
    decreases |s|
  {
    if s != [] {
      SumOverCheckedAdds(s[1..]);
      assert Amount(s[0]) + Saving(s[0]) == ListAmount(s[0]);
    }
  }

  /** The total paid plus the total saved is what the checked rows cost before discount. */
  lemma TotalPlusSavedIsListPrice(s: seq<ExtendedPurchase>)
    ensures TotalAmount(s) + SavedMoney(s) == SumOverChecked(s, ListAmount)
  {
    TotalsAreSumsOverCheckedRows(s);
    SumOverCheckedAdds(s);
  }

  /** Two checked rows (100 before 150, twice; 50 at 50, once) total 250 and save 100. */
  lemma TotalsExample(p1: Purchase, p2: Purchase)
    requires p1.price == 100 && p1.priceBeforeDiscount == 150 && p1.buyCount == 2
    requires p2.price == 50 && p2.priceBeforeDiscount == 50 && p2.buyCount == 1
    ensures TotalAmount([ExtendedPurchase(p1, true, false), ExtendedPurchase(p2, true, false)]) == 250
    ensures SavedMoney([ExtendedPurchase(p1, true, false), ExtendedPurchase(p2, true, false)]) == 100
  {
    var s := [ExtendedPurchase(p1, true, false), ExtendedPurchase(p2, true, false)];
    TotalsAreSumsOverCheckedRows(s);
    assert s[1..] == [s[1]] && s[1..][1..] == [];
    assert SumOverChecked(s[1..], Amount) == 50 && SumOverChecked(s[1..], Saving) == 0;
  }

  // ---------------------------------------------------------------- requests

  function BuyItems(c: seq<ExtendedPurchase>): (items: seq<BuyItem>)
    ensures |items| == |c|
    ensures forall i :: 0 <= i < |c| ==> items[i] == BuyItem(c[i].purchase.product.id, c[i].purchase.buyCount)
  {
    if c == [] then [] else [BuyItem(c[0].purchase.product.id, c[0].purchase.buyCount)] + BuyItems(c[1..])
  }

  /** The checkout payload: nothing when no row is selected, else each selected row's product and count in store order. */
  function BuyPayload(s: seq<ExtendedPurchase>): (r: Option<seq<BuyItem>>)
    ensures r.None? <==> NoneChecked(s)
    ensures r.Some? ==> |r.value| == |Checked(s)| <= |s|
    ensures r.Some? ==> forall i :: 0 <= i < |r.value| ==>
      r.value[i] == BuyItem(Checked(s)[i].purchase.product.id, Checked(s)[i].purchase.buyCount)
  {
    NoCheckedRows(s);
    if |Checked(s)| > 0 then Some(BuyItems(Checked(s)))
    else
      assert forall i :: 0 <= i < |s| ==> !s[i].isChecked by {
        forall i | 0 <= i < |s| ensures !s[i].isChecked {
          assert s[i] in s;
        }
      }
      None
  }

  /** After select-all on a partly selected store, checkout sends every row in store order. */
  lemma {:induction false} BuyAfterSelectAll(s: seq<ExtendedPurchase>)
    requires !AllChecked(s)
    ensures BuyPayload(ToggleAll(s)) == Some(BuyItems(s))
  {
    var t := ToggleAll(s);
    AllCheckedFilter(t);
    assert BuyItems(t) == BuyItems(s);
  }

  lemma {:induction false} AllCheckedFilter(s: seq<ExtendedPurchase>)
    requires AllChecked(s)
    ensures Checked(s) == s
    decreases |s|
  {
    if s != [] {
      AllCheckedFilter(s[1..]);
    }
  }

  /** The delete payload: the one id, or the ids of the given rows in order. */
  function DeletePayload(t: DeleteTarget): (ids: seq<string>)
    ensures t.OnePurchase? ==> ids == [t.id]
    ensures t.Rows? ==> |ids| == |t.rows| && forall i :: 0 <= i < |ids| ==> ids[i] == t.rows[i].purchase.id
  {
    match t
    case OnePurchase(id) => [id]
    case Rows(rows) => RowIds(rows)
  }

  function RowIds(rows: seq<ExtendedPurchase>): (ids: seq<string>)
    ensures |ids| == |rows|
    ensures forall i :: 0 <= i < |ids| ==> ids[i] == rows[i].purchase.id
  {
    if rows == [] then [] else [rows[0].purchase.id] + RowIds(rows[1..])
  }

  /** The fetch step of the scenario below. */
  lemma FetchKeepsFirstChecked(a: Purchase, b: Purchase, oldA: ExtendedPurchase)
    requires a.id != b.id && oldA.purchase.id == a.id && oldA.isChecked
    ensures var s1 := Reconciled([oldA], [a, b], None);
      |s1| == 2 && s1[0].isChecked && !s1[1].isChecked && s1[0].purchase == a && s1[1].purchase == b
  {
    assert KeyedIndex([oldA], a.id) == Some(0);
    assert KeyedIndex([oldA][..0], b.id) == None;
  }

  /** With only the second of two rows checked, the total is that row's amount. */
  lemma TotalOfSecondRow(s: seq<ExtendedPurchase>)
    requires |s| == 2 && !s[0].isChecked && s[1].isChecked
    ensures TotalAmount(s) == Amount(s[1])
  {
    TotalsAreSumsOverCheckedRows(s);
    assert s[1..] == [s[1]] && s[1..][1..] == [];
    assert SumOverChecked(s[1..], Amount) == Amount(s[1]);
  }

  /**
   * The walk-through: the old store has A selected; the fetch returns A and
   * B; select-all selects both; unselecting A leaves only B in the total.
   */
  lemma EndToEndScenario(a: Purchase, b: Purchase, oldA: ExtendedPurchase)
    requires a.id != b.id && oldA.purchase.id == a.id && oldA.isChecked
    ensures var s1 := Reconciled([oldA], [a, b], None);
      s1[0].isChecked && !s1[1].isChecked
      && AllChecked(ToggleAll(s1))
      && var s3 := ToggleOne(ToggleAll(s1), a.id);
         !s3[0].isChecked && s3[1].isChecked
         && TotalAmount(s3) == b.price * b.buyCount
  {
    FetchKeepsFirstChecked(a, b, oldA);
    var s1 := Reconciled([oldA], [a, b], None);
    var s3 := ToggleOne(ToggleAll(s1), a.id);
    TotalOfSecondRow(s3);
  }

  // ---------------------------------------------------------------- typed quantities

  /**
   * The quantity handler on what the controller really passes. After typing,
   * the row holds the typed text: `value + 1 > max` then compares the
   * concatenated text, while `value - 1`, `value--` and `value++` read it as
   * a number.
   */
  function TypedQuantityStep(value: Quantity, min: int, max: int, action: QuantityAction): (r: Option<Quantity>)
    requires WellTyped(value)
    ensures value.Count? ==> (r.None? <==> CartQuantityStep(value.n, min, max, action).None?)
    ensures value.Count? && r.Some? ==> r.value == Count(CartQuantityStep(value.n, min, max, action).value)
    ensures action == Decrease ==> (r.None? <==> NumericValue(value) - 1 < min)
    ensures action == Decrease && r.Some? ==> r.value == Count(NumericValue(value) - 1)
    ensures action == Increase ==> (r.None? <==> NumericValue(PlusOne(value)) > max)
    ensures action == Increase && r.Some? ==> r.value == Count(NumericValue(value) + 1)
    ensures action != Change && r.Some? ==> r.value.Count?
    ensures action == Change && NumericValue(value) < min ==> r == Some(Count(min))
    ensures action == Change && min <= NumericValue(value) && NumericValue(value) > max ==> r == Some(Count(max))
    ensures action == Change && min <= NumericValue(value) <= max ==> r == Some(value)
  {
    var n := NumericValue(value);
    match action
    case Decrease => if n - 1 < min then None else Some(Count(n - 1))
    case Increase => if NumericValue(PlusOne(value)) > max then None else Some(Count(n + 1))
    case Change => Some(if n < min then Count(min) else if n > max then Count(max) else value)
  }

  /** After typing digits, plus is refused as soon as ten times the typed value plus one exceeds the stock. */
  lemma TypedIncreaseTestsConcatenation(text: string, min: int, max: int)
    requires Numbers.IsDigitString(text)
    ensures TypedQuantityStep(Typed(text), min, max, Increase).None? <==> 10 * Numbers.DecimalValue(text) + 1 > max
  {
  }

  /** Typed "5" with a stock of 10: plus is refused as written, where the numeric rule gives 6. */
  lemma TypedFiveCannotIncrease()
    ensures TypedQuantityStep(Typed("5"), 1, 10, Increase).None?
    ensures CartQuantityStep(5, 1, 10, Increase) == Some(6)
  {
    TypedIncreaseTestsConcatenation("5", 1, 10);
  }

  /** `handleBlur`'s test as written: the update is skipped only for a value strictly equal to the fetched count. */
  function BlurSkips(fetched: Option<seq<Purchase>>, index: int, value: Quantity): (skips: bool)
    ensures value.Typed? ==> !skips
    ensures value.Count? ==> (skips <==> fetched.Some? && 0 <= index < |fetched.value| && fetched.value[index].buyCount == value.n)
  {
    fetched.Some? && 0 <= index < |fetched.value| && StrictEquals(value, fetched.value[index].buyCount)
  }

  /**
   * Retyping the fetched count: the text reads as that count, yet the blur
   * handler as written still sends an update, where the numeric rule sends
   * nothing.
   */
  lemma RetypedCountStillSent(fetched: Option<seq<Purchase>>, store: seq<ExtendedPurchase>, index: int, c: nat)
    requires fetched.Some? && 0 <= index < |fetched.value| && fetched.value[index].buyCount == c
    ensures WellTyped(Typed(Numbers.NatToString(c))) && NumericValue(Typed(Numbers.NatToString(c))) == c
    ensures !BlurSkips(fetched, index, Typed(Numbers.NatToString(c)))
    ensures BlurOutcomeOf(fetched, store, index, c) == Unchanged
  {
    Numbers.NumberOfNatToString(c);
  }

  // ---------------------------------------------------------------- the page

  /**
   * The page state: the shared store (kept in the app context), the last
   * fetched purchase list, the single debounce slot and the outbox.
   */
  class CartPage {
    var store: seq<ExtendedPurchase>
    var fetched: Option<seq<Purchase>>
    var pending: Option<(int, int)>
    var outbox: seq<Event>

    constructor ()
      ensures store == [] && fetched == None && pending == None && outbox == []
    {
      store, fetched, pending, outbox := [], None, None, [];
    }

    /** Sign-out reset of the app context: the store is emptied. */
    method Reset()
      modifies this
      ensures store == []
      ensures fetched == old(fetched) && pending == old(pending) && outbox == old(outbox)
    {
      store := [];
    }

    /** The fetch effect: a new purchase list arrives and the store is reconciled against it. */
    method ReceivePurchases(data: seq<Purchase>, buyNowPurchaseId: Option<string>)
      modifies this
      ensures fetched == Some(data)
      ensures store == Reconciled(old(store), data, buyNowPurchaseId)
      ensures pending == old(pending) && outbox == old(outbox)
    {
      fetched := Some(data);
      store := Reconciled(store, data, buyNowPurchaseId);
    }

    method CheckPurchase(id: string)
      modifies this
      ensures store == ToggleOne(old(store), id)
      ensures fetched == old(fetched) && pending == old(pending) && outbox == old(outbox)
    {
      store := ToggleOne(store, id);
    }

    method CheckAllPurchases()
      modifies this
      ensures store == ToggleAll(old(store))
      ensures fetched == old(fetched) && pending == old(pending) && outbox == old(outbox)
    {
      store := ToggleAll(store);
    }

    /**
     * `handleChangeQuantity`: a refused step changes nothing; otherwise the
     * row's count is set and a plus/minus step replaces the pending commit.
     */
    method ChangeQuantity(index: int, value: int, min: int, max: int, action: QuantityAction)
      modifies this
      ensures store == StoreAfterQuantity(old(store), QuantityInput(index, value, min, max, action))
      ensures pending == SlotAfter(old(pending), QuantityInput(index, value, min, max, action))
      ensures fetched == old(fetched) && outbox == old(outbox)
    {
      var q := QuantityInput(index, value, min, max, action);
      var step := CartQuantityStep(value, min, max, action);
      if step.None? {
        return;
      }
      if action != Change {
        pending := Some((index, step.value));
      }
      store := SetBuyCount(store, index, step.value);
    }

    /** `handleBlur`: commit the value unless it equals the fetched count. */
    method HandleBlur(index: int, value: int) returns (outcome: BlurOutcome)
      modifies this
      ensures outcome == BlurOutcomeOf(old(fetched), old(store), index, value)
      ensures outbox == old(outbox) + EventsOf(outcome)
      ensures store == old(store) && fetched == old(fetched) && pending == old(pending)
    {
      outcome := BlurOutcomeOf(fetched, store, index, value);
      outbox := outbox + EventsOf(outcome);
    }

    /** The debounce timer elapses: the one pending (index, value) goes through `handleBlur`. */
    method FireTimer() returns (outcome: Option<BlurOutcome>)
      modifies this
      ensures pending == None
      ensures old(pending).None? ==> outcome.None? && outbox == old(outbox)
      ensures old(pending).Some? ==>
        outcome == Some(BlurOutcomeOf(old(fetched), old(store), old(pending).value.0, old(pending).value.1))
        && outbox == old(outbox) + EventsOf(outcome.value)
      ensures store == old(store) && fetched == old(fetched)
    {
      match pending
      case None =>
        outcome := None;
      case Some((index, value)) =>
        pending := None;
        var r := HandleBlur(index, value);
        outcome := Some(r);
    }

    method HandleDeletePurchases(target: DeleteTarget)
      modifies this
      ensures outbox == old(outbox) + [DeletePurchases(DeletePayload(target))]
      ensures store == old(store) && fetched == old(fetched) && pending == old(pending)
    {
      outbox := outbox + [DeletePurchases(DeletePayload(target))];
    }

    /** `handleBuyNow`: the checkout request, or the notice when nothing is selected. */
    method HandleBuyNow()
      modifies this
      ensures BuyPayload(old(store)).None? ==> outbox == old(outbox) + [NothingSelectedNotice]
      ensures BuyPayload(old(store)).Some? ==> outbox == old(outbox) + [BuyProducts(BuyPayload(old(store)).value)]
      ensures store == old(store) && fetched == old(fetched) && pending == old(pending)
    {
      match BuyPayload(store)
      case None =>
        outbox := outbox + [NothingSelectedNotice];
      case Some(items) =>
        outbox := outbox + [BuyProducts(items)];
    }
  }
}
