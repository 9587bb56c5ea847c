/**
 * The product page's state updaters: the quantity picker, the five-wide
 * image-slider window, and the "you may also like" list.
 */
module ProductDetail {
  import opened Wrappers
  import opened Types
  import opened QuantityActions
  import Cart
  import Numbers

  // ---------------------------------------------------------------- quantity

  /** `handleQuantityChange`: a step past a bound stops at the bound; typing is clamped. */
  function NextQuantity(value: int, min: int, max: int, action: QuantityAction): (r: int)
    ensures action == Decrease ==> r >= min && (value - 1 >= min ==> r == value - 1) && (value - 1 < min ==> r == min)
    ensures action == Increase ==> r <= max && (value + 1 <= max ==> r == value + 1) && (value + 1 > max ==> r == max)
    ensures action == Change && min <= max ==> min <= r <= max
    ensures action == Change && min <= value <= max ==> r == value
    ensures action == Change && value < min ==> r == min
    ensures action == Change && min <= value && value > max ==> r == max
  {
    match action
    case Decrease => if value - 1 < min then min else value - 1
    case Increase => if value + 1 > max then max else value + 1
    case Change => if value < min then min else if value > max then max else value
  }

  /** A quantity inside the bounds stays inside them under every action. */
  lemma QuantityStaysInBounds(value: int, min: int, max: int, action: QuantityAction)
    requires min <= value <= max
    ensures min <= NextQuantity(value, min, max, action) <= max
  {
  }

  /**
   * The cart and the product page agree wherever the cart accepts a step;
   * where the cart refuses a plus/minus step past a bound, the product page
   * instead lands on that bound.
   */
  lemma CartRefusesWherePageSaturates(value: int, min: int, max: int, action: QuantityAction)
    ensures Cart.CartQuantityStep(value, min, max, action).Some? ==>
      Cart.CartQuantityStep(value, min, max, action).value == NextQuantity(value, min, max, action)
    ensures Cart.CartQuantityStep(value, min, max, action).None? ==>
      action != Change && NextQuantity(value, min, max, action) == (if action == Decrease then min else max)
  {
  }

  /**
   * `handleQuantityChange` on what the controller really passes. After
   * typing, the quantity is the typed text: `value + 1` concatenates, so the
   * plus button turns "5" into "51", or into the stock when "51" exceeds it.
   */
  function TypedNextQuantity(value: Quantity, min: int, max: int, action: QuantityAction): (r: Quantity)
    requires WellTyped(value)
    ensures WellTyped(r)
    ensures value.Count? ==> r == Count(NextQuantity(value.n, min, max, action))
    ensures action == Decrease && NumericValue(value) - 1 < min ==> r == Count(min)
    ensures action == Decrease && NumericValue(value) - 1 >= min ==> r == Count(NumericValue(value) - 1)
    ensures action == Increase && NumericValue(PlusOne(value)) <= max ==> r == PlusOne(value)
    ensures action == Increase && NumericValue(PlusOne(value)) > max ==> r == Count(max)
    ensures action == Change && NumericValue(value) < min ==> r == Count(min)
    ensures action == Change && min <= NumericValue(value) && NumericValue(value) > max ==> r == Count(max)
    ensures action == Change && min <= NumericValue(value) <= max ==> r == value
    ensures min <= NumericValue(value) <= max ==> min <= NumericValue(r) <= max
  {
    var n := NumericValue(value);
    match action
    case Decrease => if n - 1 < min then Count(min) else Count(n - 1)
    case Increase => if NumericValue(PlusOne(value)) > max then Count(max) else PlusOne(value)
    case Change => if n < min then Count(min) else if n > max then Count(max) else value
  }

  /** After typing digits, plus multiplies the quantity by ten and adds one whenever the stock allows it. */
  lemma TypedIncreaseAppendsOne(text: string, min: int, max: int)
    requires Numbers.IsDigitString(text) && 10 * Numbers.DecimalValue(text) + 1 <= max
    ensures TypedNextQuantity(Typed(text), min, max, Increase) == Typed(text + "1")
    ensures NumericValue(TypedNextQuantity(Typed(text), min, max, Increase)) == 10 * Numbers.DecimalValue(text) + 1
  {
  }

  /** Typed "5": plus gives "51" under a stock of 100 and jumps to the stock of 10, where the numeric rule gives 6. */
  lemma TypedFiveJumpsToFiftyOne()
    ensures TypedNextQuantity(Typed("5"), 1, 100, Increase) == Typed("51")
    ensures TypedNextQuantity(Typed("5"), 1, 10, Increase) == Count(10)
    ensures NextQuantity(5, 1, 100, Increase) == 6 && NextQuantity(5, 1, 10, Increase) == 6
  {
    TypedIncreaseAppendsOne("5", 1, 100);
  }

  // ---------------------------------------------------------------- slider

  const NumberOfSlides: int := 5

  /** The slider's arrows: 'decrease' moves the window left, 'increase' right. */
  datatype SlideAction = SlideDecrease | SlideIncrease

  /** The visible images are those with index in [first, last). */
  datatype SlideWindow = SlideWindow(first: int, last: int)

  const InitialWindow: SlideWindow := SlideWindow(0, NumberOfSlides)

  predicate ValidWindow(w: SlideWindow) {
    w.first >= 0 && w.last - w.first == NumberOfSlides
  }

  /**
   * `handleSlideIndexChange`: shift by one when the window stays within the
   * images, otherwise keep the window. `slideLength` is `None` while the
   * product has not loaded, and then no right shift happens.
   */
  function NextWindow(w: SlideWindow, action: SlideAction, slideLength: Option<int>): (r: SlideWindow)
    ensures r.last - r.first == w.last - w.first
    ensures w.first >= 0 ==> r.first >= 0
    ensures action == SlideDecrease && w.first - 1 < 0 ==> r == w
    ensures action == SlideIncrease && (slideLength.None? || w.last + 1 > slideLength.value) ==> r == w
    ensures r != w ==>
      (action == SlideDecrease && r.first == w.first - 1 && r.first >= 0)
      || (action == SlideIncrease && slideLength.Some? && r.last == w.last + 1 && r.last <= slideLength.value)
  {
    match action
    case SlideDecrease =>
      if w.first - 1 >= 0 then SlideWindow(w.first - 1, w.last - 1) else w
    case SlideIncrease =>
      if slideLength.Some? && w.last + 1 <= slideLength.value then SlideWindow(w.first + 1, w.last + 1) else w
  }

  /** The window after clicking the arrows in order, starting from the initial window. */
  function WindowAfter(actions: seq<SlideAction>, slideLength: Option<int>): (r: SlideWindow)
    ensures ValidWindow(r)
    ensures slideLength.None? ==> r.last <= NumberOfSlides
    decreases |actions|
  {
    if actions == [] then InitialWindow
    else NextWindow(WindowAfter(actions[..|actions| - 1], slideLength), actions[|actions| - 1], slideLength)
  }

  /**
   * Every window reachable from the initial one shows exactly five slots,
   * starts at a non-negative index and never ends past the last image (or
   * past 5 when there are fewer images than that).
   */
  lemma {:induction false} ReachableWindowsValid(actions: seq<SlideAction>, n: int)
    ensures ValidWindow(WindowAfter(actions, Some(n)))
    ensures WindowAfter(actions, Some(n)).last <= (if n < NumberOfSlides then NumberOfSlides else n)
    decreases |actions|
  {
    if actions != [] {
      ReachableWindowsValid(actions[..|actions| - 1], n);
    }
  }

  // ---------------------------------------------------------------- related products

  const RelatedLimit: int := 17

  /** `list.filter(p => p._id !== currentId)`; with no current product nothing is skipped. */
  function SkipCurrent(ps: seq<Product>, currentId: Option<string>): (r: seq<Product>)
    ensures |r| <= |ps|
  {
    if ps == [] then []
    else (if Some(ps[0].id) != currentId then [ps[0]] else []) + SkipCurrent(ps[1..], currentId)
  }

  /** The kept products are exactly the listed ones other than the product on display. */
  lemma {:induction false} SkipCurrentMembers(ps: seq<Product>, currentId: Option<string>)
    ensures forall p :: p in SkipCurrent(ps, currentId) <==> p in ps && Some(p.id) != currentId
    decreases |ps|
  {
    if ps != [] {
      SkipCurrentMembers(ps[1..], currentId);
      assert ps == [ps[0]] + ps[1..];
    }
  }

  /** Skipping keeps list order: it distributes over concatenation. */
  lemma {:induction false} SkipCurrentAppend(a: seq<Product>, b: seq<Product>, currentId: Option<string>)
    ensures SkipCurrent(a + b, currentId) == SkipCurrent(a, currentId) + SkipCurrent(b, currentId)
    decreases |a|
  {
    if a == [] {
      assert a + b == b;
    } else {
      var ab := a + b;
      assert ab[0] == a[0] && ab[1..] == a[1..] + b;
      SkipCurrentAppend(a[1..], b, currentId);
    }
  }

  function FirstOf(ps: seq<Product>, k: nat): (r: seq<Product>)
    ensures |r| == if |ps| < k then |ps| else k
    ensures r <= ps
  {
    if |ps| < k then ps else ps[..k]
  }

  /** The related list: the first 17 fetched products, minus the one on display, in order. */
  function RelatedProducts(ps: seq<Product>, currentId: Option<string>): (r: seq<Product>)
    ensures |r| <= RelatedLimit
    ensures forall p :: p in r <==> p in FirstOf(ps, RelatedLimit) && Some(p.id) != currentId
  {
    SkipCurrentMembers(FirstOf(ps, RelatedLimit), currentId);
    SkipCurrent(FirstOf(ps, RelatedLimit), currentId)
  }

  /** When the product on display is not among the first 17, the related list is exactly those 17 (or fewer). */
  lemma {:induction false} RelatedWithoutCurrent(ps: seq<Product>, currentId: Option<string>)
    requires forall p :: p in FirstOf(ps, RelatedLimit) ==> Some(p.id) != currentId
    ensures RelatedProducts(ps, currentId) == FirstOf(ps, RelatedLimit)
  {
    NothingSkipped(FirstOf(ps, RelatedLimit), currentId);
  }

  lemma {:induction false} NothingSkipped(ps: seq<Product>, currentId: Option<string>)
    requires forall p :: p in ps ==> Some(p.id) != currentId
    ensures SkipCurrent(ps, currentId) == ps
    decreases |ps|
  {
    if ps != [] {
      assert ps[0] in ps;
      assert forall p :: p in ps[1..] ==> p in ps;
      NothingSkipped(ps[1..], currentId);
    }
  }
}
