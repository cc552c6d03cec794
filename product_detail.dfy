/**
 * The product detail page (src/pages/ProductDetail.tsx): loading one product
 * and mapping a failed load to the message shown, the quantity stepper, and
 * adding the chosen quantity to the cart.
 */
module ProductDetail {
  import opened Wrappers
  import opened Types
  import Js
  import Cart
  import Api
  import CartProvider
  import Seqs

  const MISSING_ID: string := "ID produktu chybí."
  const NOT_FOUND_TEXT: string := "Produkt nenalezen."
  const UNKNOWN_ERROR: string := "Nepodařilo se načíst detail produktu. Neznámá chyba."
  /** The heading when there is no error text, and the text the explanation is compared with. */
  const NOT_FOUND_HEADING: string := "Produkt nenalezen"
  const GONE_EXPLANATION: string := "Omlouváme se, ale hledaný produkt neexistuje nebo byl odstraněn."
  const LOAD_EXPLANATION: string := "Došlo k chybě při načítání informací o produktu."
  /** Where adding to the cart navigates. */
  const CART_PATH: string := "/kosik"

  // ---------------------------------------------------------------------
  // Loading the product

  /** What a rejected `fetchProductById` throws: an `Error` object, or any other value. */
  datatype Thrown = ErrorObject(message: string) | OtherValue

  /** Every rejection of the API client is an `Error` carrying its message. */
  function ThrownBy(o: Api.Outcome<Product>): Thrown
    requires o.Rejected?
  {
    ErrorObject(o.message)
  }

  /** The `catch` block: the message stored in `error`. */
  function LoadErrorMessage(t: Thrown): (msg: string)
    ensures t == ErrorObject(Api.NOT_FOUND) ==> msg == NOT_FOUND_TEXT
    ensures t.ErrorObject? && t.message != Api.NOT_FOUND ==> msg == t.message
    ensures t.OtherValue? ==> msg == UNKNOWN_ERROR
  {
    match t
    case ErrorObject(m) => if m == Api.NOT_FOUND then NOT_FOUND_TEXT else m
    case OtherValue => UNKNOWN_ERROR
  }

  /** The page's state slots for the product (`product`, `isLoading`, `error`). */
  datatype LoadState = LoadState(isLoading: bool, product: Option<Product>, error: Option<string>)

  /** The page mounts loading, with neither a product nor an error. */
  function InitialLoadState(): (s: LoadState)
    ensures s.isLoading && s.product.None? && s.error.None?
  {
    LoadState(true, None, None)
  }

  /**
   * The effect run for a route id: without an id it records the error and
   * stops loading; with one it starts loading and clears the error, and
   * requests `fetchProductById(id)` (`fetches` names the id requested).
   */
  function BeginLoad(s: LoadState, routeId: Option<string>): (r: (LoadState, Option<string>))
    ensures !Js.TruthyOption(routeId) ==> r.1.None? && r.0 == s.(isLoading := false, error := Some(MISSING_ID))
    ensures Js.TruthyOption(routeId) ==> r.1 == routeId && r.0 == s.(isLoading := true, error := None)
  {
    if !Js.TruthyOption(routeId) then (s.(isLoading := false, error := Some(MISSING_ID)), None)
    else (s.(isLoading := true, error := None), routeId)
  }

  /** The awaited call settles: the product is stored, or the error message; loading ends either way. */
  function SettleLoad(s: LoadState, o: Api.Outcome<Product>): (r: LoadState)
    ensures !r.isLoading
    ensures o.Resolved? ==> r.product == Some(o.value) && r.error == s.error
    ensures o.Rejected? ==> r.product == s.product && r.error == Some(LoadErrorMessage(ThrownBy(o)))
  {
    match o
    case Resolved(p) => s.(isLoading := false, product := Some(p))
    case Rejected(_) => s.(isLoading := false, error := Some(LoadErrorMessage(ThrownBy(o))))
  }

  /** What the page renders for a load state. */
  datatype DetailView =
    | Loading
    | ErrorView(heading: string, explanation: string)
    | ProductView(product: Product)

  function View(s: LoadState): (v: DetailView)
    ensures s.isLoading <==> v.Loading?
    ensures v.ProductView? <==> !s.isLoading && !Js.TruthyOption(s.error) && s.product.Some?
    ensures v.ProductView? ==> v.product == s.product.value
    ensures v.ErrorView? ==> v.heading == (if Js.TruthyOption(s.error) then s.error.value else NOT_FOUND_HEADING)
    ensures v.ErrorView? ==> (v.explanation == GONE_EXPLANATION <==> s.error == Some(NOT_FOUND_HEADING))
  {
    if s.isLoading then Loading
    else if Js.TruthyOption(s.error) || s.product.None? then
      ErrorView(
        if Js.TruthyOption(s.error) then s.error.value else NOT_FOUND_HEADING,
        if s.error == Some(NOT_FOUND_HEADING) then GONE_EXPLANATION else LOAD_EXPLANATION)
    else ProductView(s.product.value)
  }

  // ---------------------------------------------------------------------
  // The quantity stepper

  /** The minus button: one less, but only above 1. */
  function DecreaseQuantity(q: int): (r: int)
    ensures q > 1 ==> r == q - 1
    ensures q <= 1 ==> r == q
  {
    if q > 1 then q - 1 else q
  }

  /** The plus button. */
  function IncreaseQuantity(q: int): (r: int)
    ensures r == q + 1
  {
    q + 1
  }

  /** The minus button is disabled at 1 or below. */
  predicate DecreaseDisabled(q: int)
  {
    q <= 1
  }

  /**
   * The number input: `Math.max(1, parseInt(value) || 1)`. NaN and 0 are
   * falsy and become 1; anything else below 1 is raised to 1.
   */
  function QuantityFromInput(text: string): (q: int)
    ensures q >= 1
    ensures Js.ParseInt(text).Some? && Js.ParseInt(text).value >= 1 ==> q == Js.ParseInt(text).value
    ensures Js.ParseInt(text).None? || Js.ParseInt(text).value < 1 ==> q == 1
  {
    QuantityFromParsed(Js.ParseInt(text))
  }

  /** `Math.max(1, parsed || 1)` on what `parseInt` returned (`None` for NaN). */
  function QuantityFromParsed(parsed: Option<int>): (q: int)
    ensures q >= 1
    ensures parsed.Some? && parsed.value >= 1 ==> q == parsed.value
    ensures parsed.None? || parsed.value < 1 ==> q == 1
  {
    var v := if parsed.Some? && parsed.value != 0 then parsed.value else 1;
    if v > 1 then v else 1
  }

  /** The user's actions on the stepper. */
  datatype StepperEvent = Decrease | Increase | Typed(text: string)

  /** One event moves a positive quantity to a positive one; the buttons move it by at most 1. */
  function Step(q: int, e: StepperEvent): (r: int)
    ensures q >= 1 ==> r >= 1
    ensures e.Typed? ==> r >= 1
    ensures !e.Typed? ==> q - 1 <= r <= q + 1
  {
    match e
    case Decrease => DecreaseQuantity(q)
    case Increase => IncreaseQuantity(q)
    case Typed(text) => QuantityFromInput(text)
  }

  /**
   * The quantity after a series of stepper events, oldest first. Starting
   * from 1 (the initial `useState(1)`), no series of events takes the
   * quantity below 1, and a series holding a typed value ends positive
   * whatever the start.
   */
  function Run(q: int, events: seq<StepperEvent>): (r: int)
    ensures q >= 1 ==> r >= 1
    ensures (exists i :: 0 <= i < |events| && events[i].Typed?) ==> r >= 1
    ensures events == [] ==> r == q
    decreases |events|
  {
    if events == [] then q
    else
      var r := Run(Step(q, events[0]), events[1..]);
      assert forall i :: 1 <= i < |events| ==> events[1..][i - 1] == events[i];
      r
  }

  /** Running two series one after the other is running their concatenation. */
  lemma {:induction false} RunConcat(q: int, a: seq<StepperEvent>, b: seq<StepperEvent>)
    ensures Run(q, a + b) == Run(Run(q, a), b)
    decreases |a|
  {
    if a == [] {
      assert a + b == b;
    } else {
      assert (a + b)[0] == a[0];
      assert (a + b)[1..] == a[1..] + b;
      RunConcat(Step(q, a[0]), a[1..], b);
    }
  }

  /** The minus button changes the quantity exactly when it is enabled. */
  lemma DecreaseChangesIffEnabled(q: int)
    ensures DecreaseQuantity(q) != q <==> !DecreaseDisabled(q)
  {
  }

  /** Plus then minus returns to the quantity one started from, which gained exactly 1 in between. */
  lemma IncreaseThenDecrease(q: int)
    requires q >= 1
    ensures IncreaseQuantity(q) == q + 1
    ensures DecreaseQuantity(IncreaseQuantity(q)) == q
  {
  }

  /** Typing the decimal form of a positive quantity sets exactly that quantity. */
  lemma TypedQuantityRoundTrip(n: nat)
    requires n >= 1
    ensures QuantityFromInput(Js.DecimalString(n)) == n
  {
    Js.ParseIntRoundTrip(n);
  }

  /** Typing text that is not a number (or clearing the field) sets 1. */
  lemma TypedNonNumberGivesOne(text: string)
    requires text == [] || (!Js.IsDigit(text[0], 10) && !Js.IsWhiteSpace(text[0]) && text[0] != '-' && text[0] != '+')
    ensures QuantityFromInput(text) == 1
  {
    Js.ParseIntOfNonNumeric(text);
  }

  // ---------------------------------------------------------------------
  // Adding the chosen quantity

  /** `addToCart(product)` applied `n` times in a row. */
  function AddTimes(items: seq<CartItem>, p: Product, n: nat): (r: seq<CartItem>)
    ensures n >= 1 ==> Cart.HasLine(r, p.id)
    ensures |r| == if n == 0 || Cart.HasLine(items, p.id) then |items| else |items| + 1
    ensures forall i :: 0 <= i < |items| ==> r[i].product == items[i].product
    ensures forall i :: 0 <= i < |items| && items[i].product.id != p.id ==> r[i] == items[i]
  {
    if n == 0 then items else Cart.AddToCart(AddTimes(items, p, n - 1), p)
  }

  lemma NewQuantityKeepsUniqueIds(items: seq<CartItem>, k: nat, q: int)
    requires Cart.UniqueIds(items) && k < |items|
    ensures Cart.UniqueIds(items[k := items[k].(quantity := q)])
  {
    var r := items[k := items[k].(quantity := q)];
    assert forall i :: 0 <= i < |r| ==> r[i].product == items[i].product;
  }

  /** Once a line exists, each further add leaves the same lines with that line one unit larger. */
  lemma {:induction false} AddTimesExisting(items: seq<CartItem>, p: Product, k: nat, n: nat)
    requires Cart.UniqueIds(items) && k < |items| && items[k].product.id == p.id
    ensures AddTimes(items, p, n) == items[k := items[k].(quantity := items[k].quantity + n)]
  {
    if n > 0 {
      AddTimesExisting(items, p, k, n - 1);
      var q := items[k].quantity;
      var prev := AddTimes(items, p, n - 1);
      var before := items[k].(quantity := q + (n - 1));
      NewQuantityKeepsUniqueIds(items, k, q + (n - 1));
      Cart.AddToExistingLine(prev, p, k);
      Seqs.UpdateTwice(items, k, before, items[k].(quantity := q + n));
    }
  }

  /**
   * Adding `n >= 1` units of a product with no line appends one line with
   * quantity `n`, leaving the earlier lines as they were.
   */
  lemma {:induction false} AddTimesNew(items: seq<CartItem>, p: Product, n: nat)
    requires Cart.UniqueIds(items) && !Cart.HasLine(items, p.id) && n >= 1
    ensures AddTimes(items, p, n) == items + [CartItem(p, n)]
  {
    var once := items + [CartItem(p, 1)];
    assert Cart.AddToCart(items, p) == once;
    if n > 1 {
      AddTimesNew(items, p, n - 1);
      var prev := AddTimes(items, p, n - 1);
      assert prev == items + [CartItem(p, n - 1)];
      assert Cart.UniqueIds(prev) by {
        forall i, j | 0 <= i < j < |prev| ensures prev[i].product.id != prev[j].product.id {
          if j == |items| {
            assert prev[i].product.id == items[i].product.id;
          }
        }
      }
      Cart.AddToExistingLine(prev, p, |items|);
      assert prev[|items| := prev[|items|].(quantity := n)] == items + [CartItem(p, n)];
    }
  }

  /** Adding one product any number of times keeps the cart invariant. */
  lemma {:induction false} AddTimesValid(items: seq<CartItem>, p: Product, n: nat)
    requires Cart.Valid(items)
    ensures Cart.Valid(AddTimes(items, p, n))
  {
    if n > 0 {
      var prev := AddTimes(items, p, n - 1);
      AddTimesValid(items, p, n - 1);
      Cart.AddKeepsValid(prev, p);
      assert Cart.Valid(Cart.AddToCart(prev, p));
    }
  }

  /**
   * Adding `n` units of a product that has a line raises the item count by
   * `n` and the price by `n` times the price stored in that line.
   */
  lemma AddTimesTotalsExisting(items: seq<CartItem>, p: Product, k: nat, n: nat)
    requires Cart.UniqueIds(items) && k < |items| && items[k].product.id == p.id
    ensures Cart.TotalItems(AddTimes(items, p, n)) == Cart.TotalItems(items) + n
    ensures Cart.TotalPrice(AddTimes(items, p, n)) == Cart.TotalPrice(items) + items[k].product.price * n
  {
    AddTimesExisting(items, p, k, n);
    Cart.TotalsAfterMoreUnits(items, k, n);
  }

  /** Adding `n` units of a product without a line raises the item count by `n` and the price by `n` times its price. */
  lemma AddTimesTotalsNew(items: seq<CartItem>, p: Product, n: nat)
    requires Cart.UniqueIds(items) && !Cart.HasLine(items, p.id)
    ensures Cart.TotalItems(AddTimes(items, p, n)) == Cart.TotalItems(items) + n
    ensures Cart.TotalPrice(AddTimes(items, p, n)) == Cart.TotalPrice(items) + p.price * n
  {
    if n >= 1 {
      var line := CartItem(p, n);
      AddTimesNew(items, p, n);
      Cart.TotalsOfConcatenation(items, [line]);
      Cart.TotalsOfOneLine(line);
    }
  }

  /**
   * The add button: with a product loaded, `addToCart` is called `quantity`
   * times (none when the quantity is below 1) and the page navigates to the
   * cart; with none it does nothing.
   */
  method HandleAddToCart(product: Option<Product>, quantity: int, cart: CartProvider.CartStore) returns (navigateTo: Option<string>)
    modifies cart
    ensures product.None? ==> navigateTo.None? && cart.cartItems == old(cart.cartItems)
    ensures product.Some? ==> navigateTo == Some(CART_PATH)
    ensures product.Some? ==> cart.cartItems == AddTimes(old(cart.cartItems), product.value, if quantity > 0 then quantity else 0)
    ensures product.Some? && quantity > 0 && Cart.UniqueIds(old(cart.cartItems)) && !Cart.HasLine(old(cart.cartItems), product.value.id) ==>
      cart.cartItems == old(cart.cartItems) + [CartItem(product.value, quantity)]
    ensures product.Some? && quantity > 0 && Cart.UniqueIds(old(cart.cartItems)) ==>
      forall k :: 0 <= k < |old(cart.cartItems)| && old(cart.cartItems)[k].product.id == product.value.id ==>
        cart.cartItems == old(cart.cartItems)[k := old(cart.cartItems)[k].(quantity := old(cart.cartItems)[k].quantity + quantity)]
  {
    navigateTo := None;
    if product.Some? {
      var times: nat := if quantity > 0 then quantity else 0;
      for i := 0 to times
        invariant cart.cartItems == AddTimes(old(cart.cartItems), product.value, i)
      {
        cart.AddToCart(product.value);
      }
      var before := old(cart.cartItems);
      if quantity > 0 && Cart.UniqueIds(before) {
        if !Cart.HasLine(before, product.value.id) {
          AddTimesNew(before, product.value, quantity);
        }
        forall k | 0 <= k < |before| && before[k].product.id == product.value.id
          ensures AddTimes(before, product.value, quantity) == before[k := before[k].(quantity := before[k].quantity + quantity)]
        {
          AddTimesExisting(before, product.value, k, quantity);
        }
      }
      navigateTo := Some(CART_PATH);
    }
  }

  // ---------------------------------------------------------------------
  // Lemmas about loading

  /** A missing route id ends loading with its own error and requests nothing. */
  lemma MissingIdRequestsNothing(s: LoadState)
    ensures BeginLoad(s, None).1.None? && BeginLoad(s, Some("")).1.None?
    ensures View(BeginLoad(s, None).0) == ErrorView(MISSING_ID, LOAD_EXPLANATION)
  {
  }

  /** A 404 from the API ends with the not-found text as the error on screen. */
  lemma NotFoundIsShown(s: LoadState, id: string, body: Api.Body<Product>)
    ensures var r := SettleLoad(s, Api.FetchProductById(id, Api.Delivered(Api.Response(404, body))));
      r.error == Some(NOT_FOUND_TEXT) && View(r) == ErrorView(NOT_FOUND_TEXT, LOAD_EXPLANATION)
  {
  }

  /**
   * As written, the "product does not exist" explanation is compared with
   * the text without the final full stop, so a 404 never selects it: it is
   * chosen only for an error that is exactly that text.
   */
  lemma GoneExplanationNeverAfterNotFound(s: LoadState, id: string, t: Api.Transport<Product>)
    requires Api.FetchProductById(id, t).Rejected?
    requires Api.FetchProductById(id, t).message == Api.NOT_FOUND
    ensures View(SettleLoad(s, Api.FetchProductById(id, t))).explanation == LOAD_EXPLANATION
  {
    assert NOT_FOUND_TEXT != NOT_FOUND_HEADING by {
      assert |NOT_FOUND_TEXT| != |NOT_FOUND_HEADING|;
    }
  }

  /** A successful load shows the product the API returned when no earlier error is kept. */
  lemma LoadedProductIsShown(s: LoadState, id: string, p: Product, status: int, message: Option<string>)
    requires 200 <= status <= 299
    requires s.error.None?
    ensures View(SettleLoad(s, Api.FetchProductById(id, Api.Delivered(Api.Response(status, Api.Json(p, message)))))) == ProductView(p)
  {
  }
}
