/**
 * The checkout page (src/pages/Checkout.tsx): the form record and its change
 * handler, the order summary, the redirect when there is nothing to check
 * out, and the simulated submission whose completion clears the cart.
 */
module Checkout {
  import opened Types
  import Cart
  import CartProvider

  /** Where an empty cart sends the visitor. */
  const PRODUCTS_PATH: string := "/produkty"
  const SUBMITTING_LABEL: string := "Zpracovávám..."
  const SUBMIT_LABEL: string := "Dokončit objednávku"
  /** The delay of the simulated submission, in milliseconds. */
  const COMPLETION_DELAY_MS: nat := 1500

  // ---------------------------------------------------------------------
  // The form record

  /** The `name` attributes of the form's inputs. */
  datatype Field = FirstName | LastName | Email | Phone | Street | City | Zip | PaymentMethod | Note

  datatype FormState = FormState(
    firstName: string,
    lastName: string,
    email: string,
    phone: string,
    street: string,
    city: string,
    zip: string,
    paymentMethod: string,
    note: string)

  /** `formState[name]` */
  function Get(form: FormState, f: Field): string
  {
    match f
    case FirstName => form.firstName
    case LastName => form.lastName
    case Email => form.email
    case Phone => form.phone
    case Street => form.street
    case City => form.city
    case Zip => form.zip
    case PaymentMethod => form.paymentMethod
    case Note => form.note
  }

  /** `{ ...prev, [name]: value }`: the named field takes the value and every other field is kept. */
  function WithField(form: FormState, f: Field, value: string): (r: FormState)
    ensures Get(r, f) == value
    ensures forall g :: g != f ==> Get(r, g) == Get(form, g)
  {
    match f
    case FirstName => form.(firstName := value)
    case LastName => form.(lastName := value)
    case Email => form.(email := value)
    case Phone => form.(phone := value)
    case Street => form.(street := value)
    case City => form.(city := value)
    case Zip => form.(zip := value)
    case PaymentMethod => form.(paymentMethod := value)
    case Note => form.(note := value)
  }

  /** Every field starts empty except the payment method, which starts as card payment. */
  function InitialForm(): (form: FormState)
    ensures forall f :: Get(form, f) == if f == PaymentMethod then "card" else ""
  {
    FormState("", "", "", "", "", "", "", "card", "")
  }

  /** A form is determined by its fields. */
  lemma FormExtensionality(a: FormState, b: FormState)
    requires forall f :: Get(a, f) == Get(b, f)
    ensures a == b
  {
    assert Get(a, FirstName) == Get(b, FirstName) && Get(a, LastName) == Get(b, LastName);
    assert Get(a, Email) == Get(b, Email) && Get(a, Phone) == Get(b, Phone);
    assert Get(a, Street) == Get(b, Street) && Get(a, City) == Get(b, City);
    assert Get(a, Zip) == Get(b, Zip) && Get(a, PaymentMethod) == Get(b, PaymentMethod);
    assert Get(a, Note) == Get(b, Note);
  }

  /** Of two changes to the same field, the later one wins. */
  lemma LastChangeWins(form: FormState, f: Field, first: string, second: string)
    ensures WithField(WithField(form, f, first), f, second) == WithField(form, f, second)
  {
    FormExtensionality(WithField(WithField(form, f, first), f, second), WithField(form, f, second));
  }

  /** Changes to different fields do not interfere. */
  lemma ChangesCommute(form: FormState, f: Field, g: Field, x: string, y: string)
    requires f != g
    ensures WithField(WithField(form, f, x), g, y) == WithField(WithField(form, g, y), f, x)
  {
    FormExtensionality(WithField(WithField(form, f, x), g, y), WithField(WithField(form, g, y), f, x));
  }

  // ---------------------------------------------------------------------
  // The order summary

  /** One row of the summary: keyed by product id, with name, quantity and `price * quantity`. */
  datatype SummaryLine = SummaryLine(key: string, name: string, quantity: int, amount: int)

  function SummaryLines(items: seq<CartItem>): (lines: seq<SummaryLine>)
    ensures |lines| == |items|
    ensures forall i :: 0 <= i < |items| ==> lines[i].key == items[i].product.id && lines[i].name == items[i].product.name
    ensures forall i :: 0 <= i < |items| ==> lines[i].quantity == items[i].quantity
    ensures forall i :: 0 <= i < |items| ==> lines[i].amount == items[i].product.price * items[i].quantity
  {
    seq(|items|, i requires 0 <= i < |items| =>
      SummaryLine(items[i].product.id, items[i].product.name, items[i].quantity, Cart.Amount(items[i])))
  }

  /** The amounts of the rows added up. */
  function SumAmounts(lines: seq<SummaryLine>): int
  {
    if lines == [] then 0 else SumAmounts(lines[..|lines| - 1]) + lines[|lines| - 1].amount
  }

  /** The rows of the summary add up to the grand total shown below them. */
  lemma {:induction false} SummaryAddsUpToTotal(items: seq<CartItem>)
    ensures SumAmounts(SummaryLines(items)) == Cart.TotalPrice(items)
  {
    if items != [] {
      var front := items[..|items| - 1];
      SummaryAddsUpToTotal(front);
      assert SummaryLines(items)[..|items| - 1] == SummaryLines(front);
    }
  }

  /** The row keys are distinct exactly when the cart has one line per product. */
  lemma SummaryKeysUnique(items: seq<CartItem>)
    ensures Cart.UniqueIds(items) <==> forall i, j :: 0 <= i < j < |items| ==> SummaryLines(items)[i].key != SummaryLines(items)[j].key
  {
    var lines := SummaryLines(items);
    assert forall i :: 0 <= i < |items| ==> lines[i].key == items[i].product.id;
  }

  // ---------------------------------------------------------------------
  // The page

  datatype CheckoutView =
    | Redirect(path: string)
    | Confirmation
    | FormView(form: FormState, lines: seq<SummaryLine>, total: int, submitDisabled: bool, submitLabel: string)

  class CheckoutPage {
    /** The cart provider the page reads and clears. */
    const cart: CartProvider.CartStore
    var formState: FormState
    var isSubmitting: bool
    var isComplete: bool
    /** Completion callbacks scheduled with `setTimeout` that have not fired yet. */
    var pendingCompletions: nat
    /** Whether the page is still on screen; a scheduled callback outlives it. */
    var mounted: bool

    /**
     * While the page is shown, a completion is pending exactly while the
     * submission runs; a completed order is no longer submitting.
     */
    predicate Valid()
      reads this
    {
      pendingCompletions <= 1 &&
      (mounted ==> pendingCompletions == (if isSubmitting then 1 else 0)) &&
      (isComplete ==> !isSubmitting)
    }

    constructor (cart: CartProvider.CartStore)
      ensures this.cart == cart
      ensures formState == InitialForm() && !isSubmitting && !isComplete
      ensures pendingCompletions == 0 && mounted && Valid()
    {
      this.cart := cart;
      formState := InitialForm();
      isSubmitting := false;
      isComplete := false;
      pendingCompletions := 0;
      mounted := true;
    }

    /**
     * What the page renders: a redirect to the product list for an empty
     * cart unless the order is complete, the confirmation once it is, and
     * otherwise the form with a summary whose total is the cart's.
     */
    function View(): (v: CheckoutView)
      reads this, cart
      ensures v.Redirect? <==> |cart.cartItems| == 0 && !isComplete
      ensures v.Redirect? ==> v.path == PRODUCTS_PATH
      ensures v.Confirmation? <==> isComplete
      ensures v.FormView? ==> v.form == formState && v.lines == SummaryLines(cart.cartItems)
      ensures v.FormView? ==> v.total == Cart.TotalPrice(cart.cartItems) && SumAmounts(v.lines) == v.total
      ensures v.FormView? ==> (v.submitDisabled <==> isSubmitting)
      ensures v.FormView? ==> v.submitLabel == if isSubmitting then SUBMITTING_LABEL else SUBMIT_LABEL
    {
      if |cart.cartItems| == 0 && !isComplete then Redirect(PRODUCTS_PATH)
      else if isComplete then Confirmation
      else
        SummaryAddsUpToTotal(cart.cartItems);
        FormView(formState, SummaryLines(cart.cartItems), cart.TotalPrice(), isSubmitting,
          if isSubmitting then SUBMITTING_LABEL else SUBMIT_LABEL)
    }

    /** `handleChange`: an input named `f` now holds `value`. */
    method HandleChange(f: Field, value: string)
      modifies this
      ensures formState == WithField(old(formState), f, value)
      ensures isSubmitting == old(isSubmitting) && isComplete == old(isComplete)
      ensures pendingCompletions == old(pendingCompletions) && mounted == old(mounted)
      ensures Valid() == old(Valid())
    {
      formState := WithField(formState, f, value);
    }

    /**
     * A click on the submit button of the form view. While a submission runs
     * the button is disabled and the click does nothing; otherwise the page
     * starts submitting and schedules the completion. The cart is untouched.
     */
    method SubmitClicked()
      requires mounted && View().FormView?
      requires Valid()
      modifies this
      ensures old(isSubmitting) ==> isSubmitting && pendingCompletions == old(pendingCompletions)
      ensures !old(isSubmitting) ==> isSubmitting && pendingCompletions == old(pendingCompletions) + 1
      ensures formState == old(formState) && isComplete == old(isComplete) && mounted == old(mounted)
      ensures Valid() && cart.cartItems == old(cart.cartItems)
    {
      if !isSubmitting {
        isSubmitting := true;
        pendingCompletions := pendingCompletions + 1;
      }
    }

    /**
     * The scheduled callback fires: on a page still shown it ends the
     * submission and completes the order (a page already left ignores the
     * state updates); in both cases it clears the cart.
     */
    method CompletionFires()
      requires pendingCompletions > 0
      requires Valid()
      modifies this, cart
      ensures pendingCompletions == old(pendingCompletions) - 1
      ensures old(mounted) ==> !isSubmitting && isComplete
      ensures !old(mounted) ==> isSubmitting == old(isSubmitting) && isComplete == old(isComplete)
      ensures cart.cartItems == [] && Cart.TotalPrice(cart.cartItems) == 0
      ensures formState == old(formState) && mounted == old(mounted)
      ensures Valid()
    {
      if mounted {
        isSubmitting := false;
        isComplete := true;
      }
      pendingCompletions := pendingCompletions - 1;
      cart.ClearCart();
    }

    /** Navigating away; callbacks already scheduled stay scheduled. */
    method Leave()
      requires Valid()
      modifies this
      ensures !mounted
      ensures formState == old(formState) && isSubmitting == old(isSubmitting) && isComplete == old(isComplete)
      ensures pendingCompletions == old(pendingCompletions)
      ensures Valid()
    {
      mounted := false;
    }
  }

  /**
   * A whole order from a filled cart: submitting keeps the cart and shows
   * the disabled button, and the completion then shows the confirmation
   * over an empty cart, with no redirect.
   */
  method PlaceOrder(page: CheckoutPage)
    requires page.Valid() && page.mounted && !page.isSubmitting && !page.isComplete
    requires |page.cart.cartItems| > 0
    modifies page, page.cart
    ensures page.View() == Confirmation
    ensures page.cart.cartItems == [] && page.Valid()
  {
    var items := page.cart.cartItems;
    page.SubmitClicked();
    assert page.cart.cartItems == items;
    assert page.View().FormView? && page.View().submitDisabled;
    page.CompletionFires();
  }

  /** Leaving the page while the order is submitted still clears the cart when the callback fires. */
  method LeaveWhileSubmitting(page: CheckoutPage)
    requires page.Valid() && page.mounted && page.isSubmitting
    modifies page, page.cart
    ensures !page.mounted && !page.isComplete
    ensures page.cart.cartItems == [] && page.pendingCompletions == 0
  {
    page.Leave();
    page.CompletionFires();
  }
}
