# Storefront client logic in Dafny

A model of the client-side state handling of a small React storefront (a
Czech shop for services), with proofs of what each piece promises:

- **Cart** (`cart.dfy`, modules `Cart` and `CartProvider`): the functional
  updaters behind `addToCart`, `removeFromCart`, `updateQuantity` and
  `clearCart`, and the two `reduce` folds `totalItems` and `totalPrice`. The
  provider's single `useState` slot is the `cartItems` field of the class
  `CartStore`; each method replaces it with the updater's result.
- **Toasts** (`toast.dfy`, module `Toasts`): the pure `reducer` over the list
  of toasts, and the module-level state around it (the id counter, the
  stored state, the `toastTimeouts` map and the listeners) as the class
  `ToastStore`, whose methods are `genId`, `addToRemoveQueue`, `dispatch` and
  `toast`. The removal timer firing is an explicit method.
- **Catalog** (`catalog.dfy`, module `Catalog`): the category list of the
  product page, the category filter, and the price sort. The sort is
  modelled as a stable sort by key (as `Array.prototype.sort` is). A lemma
  shows that a stable sort's result is unique, so the model's order is the
  one any engine produces.
- **Product detail** (`product_detail.dfy`, module `ProductDetail`): loading
  one product and mapping a failure to the text shown, the quantity stepper
  and its number input, and the add button, which calls `addToCart`
  `quantity` times in a loop over a `CartStore`.
- **Checkout** (`checkout.dfy`, module `Checkout`): the form record and
  `handleChange`, the order summary, the empty-cart redirect, and the
  simulated submission. The page is the class `CheckoutPage` with the flags
  `isSubmitting` and `isComplete`, and the 1500 ms completion callback is an
  explicit method that clears the cart.
- **API client** (`api.dfy`, module `Api`): how a settled `fetch` becomes
  either the parsed body or a thrown `Error` with a message.
- **JavaScript built-ins** (`js.dfy`, module `Js`): truthiness,
  `Number.prototype.toString` on safe non-negative integers, `parseInt`
  without a radix, `toUpperCase` on one character and `Number.MAX_SAFE_INTEGER`, as
  the ECMAScript language specification defines them.

`types.dfy` holds the records of `src/types/index.ts`. `wrappers.dfy` holds
`Option`, which stands for `undefined` and `null`. `seqs.dfy` holds generic
sequence facts.

Timers, the network and React's scheduling are inputs or events:

- A settled `fetch` is a `Transport` value.
- A timer firing is a method call (`CheckoutPage.CompletionFires`,
  `ToastStore.RemoveTimerFires`).
- Leaving the checkout page is `CheckoutPage.Leave`.
- React composes the functional updaters that one handler queues, so the
  add button's `quantity` calls of `addToCart` are `quantity` updates in a
  row (`ProductDetail.AddTimes`).

The product detail page compares its error with `'Produkt nenalezen'` (no
full stop) to choose the "product does not exist" explanation. The message
it stores after a 404 is `'Produkt nenalezen.'`, so that explanation never
follows a 404. The model keeps this as written, and
`ProductDetail.GoneExplanationNeverAfterNotFound` states it.

## Model

| member | source | states |
|---|---|---|
| Cart.AddToCart | src/context/CartContext.tsx:47-61 | with a line for the id, the length stays and only lines with that id change, keeping their product; without one, the old lines are kept and `{product, quantity: 1}` is appended at the end |
| Cart.AddToExistingLine | src/context/CartContext.tsx:49-56 | adding a product whose id has a line (ids unique) gives the same cart with just that line's quantity one higher |
| Cart.AddKeepsValid | src/context/CartContext.tsx:47-61 | adding keeps one line per id and every quantity at least 1 |
| Cart.RemoveFromCart | src/context/CartContext.tsx:67-69 | no line with the id remains, the remaining lines are exactly the old lines with another id, and an absent id changes nothing |
| Cart.RemoveLineAt | src/context/CartContext.tsx:67-69 | removing the id of line `k` (ids unique) gives the cart without line `k`, the others in order |
| Cart.RemoveCreatesNoLine | src/context/CartContext.tsx:68 | after removing, every id that has a line had one before |
| Cart.RemoveKeepsUniqueIds | src/context/CartContext.tsx:68 | removing keeps one line per id |
| Cart.RemoveKeepsValid | src/context/CartContext.tsx:67-69 | removing keeps one line per id and every quantity at least 1 |
| Cart.UpdateQuantity | src/context/CartContext.tsx:77-90 | a quantity of 0 or less is exactly `removeFromCart`; a positive one keeps the length and the products and sets the quantity of the lines with that id only; no line is ever created |
| Cart.UpdateExistingLine | src/context/CartContext.tsx:83-89 | a positive quantity for line `k` (ids unique) replaces that line's quantity and nothing else |
| Cart.UpdateAbsentLine | src/context/CartContext.tsx:83-89 | a positive quantity for an id without a line leaves the cart as it was |
| Cart.UpdateKeepsValid | src/context/CartContext.tsx:77-90 | changing a quantity keeps one line per id and every quantity at least 1 |
| Cart.ClearCart | src/context/CartContext.tsx:95-97 | the cleared cart is valid and has no line for any id |
| Cart.TotalItems | src/context/CartContext.tsx:99 | the sum of the quantities; with positive quantities it is at least the number of lines |
| Cart.Amount | src/context/CartContext.tsx:102 | `price * quantity` is non-negative when both are |
| Cart.TotalPrice | src/context/CartContext.tsx:101-104 | the sum of the lines' amounts; non-negative when prices and quantities are |
| Cart.TotalsAfterReplacingLine | src/context/CartContext.tsx:99-104 | replacing one line changes the totals by exactly the difference of its quantity and of its amount |
| Cart.TotalsOfConcatenation | src/context/CartContext.tsx:99-104 | both totals of two carts laid end to end are the sums of their totals |
| Cart.TotalsAfterMoreUnits | src/context/CartContext.tsx:99-104 | `n` more units on one line add `n` to the item count and `n` times that line's price to the total |
| Cart.TotalsAfterAddToExisting | src/context/CartContext.tsx:49-56 | adding to an existing line adds 1 item and the price stored in that line |
| Cart.TotalsAfterAddNew | src/context/CartContext.tsx:57-58 | adding a new product adds 1 item and that product's price |
| Cart.TotalsAfterRemove | src/context/CartContext.tsx:67-69 | removing line `k` takes its quantity and its amount out of the totals |
| Cart.TotalsWithoutLine | src/context/CartContext.tsx:99-104 | the totals of a cart with one line taken out |
| Cart.NoItemsIffEmpty | src/context/CartContext.tsx:99 | in a valid cart the item count is zero exactly when the cart is empty |
| CartProvider.CartStore.constructor | src/context/CartContext.tsx:41 | the cart starts empty, which is valid |
| CartProvider.CartStore.AddToCart | src/context/CartContext.tsx:47-61 | the slot becomes the add updater's result, and the invariant is kept |
| CartProvider.CartStore.RemoveFromCart | src/context/CartContext.tsx:67-69 | the slot becomes the remove updater's result, and the invariant is kept |
| CartProvider.CartStore.UpdateQuantity | src/context/CartContext.tsx:77-90 | the slot becomes the update's result (the removal for a quantity of 0 or less), and the invariant is kept |
| CartProvider.CartStore.ClearCart | src/context/CartContext.tsx:95-104 | after clearing, the cart is empty and both totals are 0 |
| Toasts.Merge | src/hooks/use-toast.ts:91 | each field the patch carries replaces the toast's field, and every other field is kept |
| Toasts.WithoutToast | src/hooks/use-toast.ts:127 | the kept toasts are exactly those with another id, and nothing changes when no toast has the id |
| Toasts.Reduce | src/hooks/use-toast.ts:79-132 | ADD puts the toast at index 0 and keeps at most `TOAST_LIMIT` toasts; UPDATE keeps length, order and ids and merges into the matching toasts only; DISMISS keeps everything but `open`, which becomes false exactly on the matching toasts (all of them without an id); REMOVE without an id empties the list, with one keeps exactly the toasts with another id |
| Toasts.RemoveQueueIds | src/hooks/use-toast.ts:96-104 | only DISMISS queues removals: the id when it is truthy, otherwise the id of every toast, in order |
| Toasts.AddKeepsOnlyNewToast | src/hooks/use-toast.ts:81-85 | with the limit of 1, ADD leaves exactly the new toast |
| Toasts.ReducePreservesUniqueIds | src/hooks/use-toast.ts:79-132 | every action keeps toast ids unique |
| Toasts.RemoveKeepsUniqueIds | src/hooks/use-toast.ts:127 | removing by id keeps the ids unique |
| Toasts.RemoveAt | src/hooks/use-toast.ts:125-128 | removing the id of the toast at `k` (ids unique) gives the list without that toast, the rest in order |
| Toasts.WithoutToastConcat | src/hooks/use-toast.ts:125-128 | for any ids, the REMOVE filter over a concatenation is the filter of each part, joined, so the kept toasts keep their order and repeats |
| Toasts.RemoveKeepsOrder | src/hooks/use-toast.ts:118-128 | REMOVE with an id (ids unique) drops the toast with that id, keeps the others in their order and keeps ids unique |
| Toasts.UpdateIdempotent | src/hooks/use-toast.ts:87-93 | the same UPDATE twice is the same as once |
| Toasts.DismissIdempotent | src/hooks/use-toast.ts:95-117 | the same DISMISS twice is the same as once |
| Toasts.RemoveAfterDismiss | src/hooks/use-toast.ts:95-128 | REMOVE after DISMISS of the same id is the same as REMOVE alone |
| Toasts.WithoutAfterDismiss | src/hooks/use-toast.ts:95-128 | filtering out an id after dismissing it gives the same list as filtering it out right away |
| Toasts.CallsFor | src/hooks/use-toast.ts:144-146 | one call per listener, in order, each with the same state |
| Toasts.ToastStore.constructor | src/hooks/use-toast.ts:134-136 | the counter is 0, with no toasts, no timers and no calls; the store invariant (counter in range, toast ids unique, timer handles issued) holds |
| Toasts.ToastStore.GenId | src/hooks/use-toast.ts:24-27 | the counter advances by 1 modulo `MAX_SAFE_INTEGER` and stays below it; the id is its decimal string, which `parseInt` reads back as the counter |
| Toasts.ToastStore.AddToRemoveQueue | src/hooks/use-toast.ts:57-71 | an id already queued changes nothing; a new id gets a fresh timer handle and no other entry changes |
| Toasts.AddToRemoveQueueTwice | src/hooks/use-toast.ts:57-71 | queuing an id twice has exactly the effect of queuing it once |
| Toasts.ToastStore.QueueRemovals | src/hooks/use-toast.ts:98-104 | after queuing a list of ids, the timer map has the old keys plus those ids, and the old entries are unchanged |
| Toasts.ToastStore.NotifyListeners | src/hooks/use-toast.ts:144-146 | every listener is called once, in order, with the stored state |
| Toasts.ToastStore.Dispatch | src/hooks/use-toast.ts:142-147 | the stored state becomes `reducer(old, action)`; the removal timers gain the ids DISMISS queues, and nothing changes for other actions; then every listener is called with the new state; the counter is kept, and the toast ids stay unique |
| Toasts.ToastStore.Toast | src/hooks/use-toast.ts:156-183 | takes a fresh id and leaves exactly one toast, open, with that id and the given title and description; no timer is started and no handle is used, the counter is the only other change, and every listener is called once with the new state |
| Toasts.ToastStore.RemoveTimerFires | src/hooks/use-toast.ts:62-68 | exactly the timer's entry goes and no handle is used, the state becomes REMOVE of that id, no toast with the id is left and the others keep their order, the counter stays, and every listener is called once with the new state |
| Api.ProductsPath | src/services/api.ts:6 | the list is requested from `/api/products` |
| Api.ProductPath | src/services/api.ts:15 | a product is requested from `/api/products/` followed by its id |
| Api.ProductPathInjective | src/services/api.ts:15 | distinct ids are requested from distinct paths |
| Api.ProductFallback | src/services/api.ts:21 | the fallback text for one product is the fixed text followed by exactly its id |
| Api.ProductFallbackInjective | src/services/api.ts:21 | different ids give different fallback texts |
| Api.ParsedBody | src/services/api.ts:11 | a successful response resolves exactly when its body parses, with the parsed value; otherwise the parse error is the rejection |
| Api.ErrorMessage | src/services/api.ts:8-9 | a body that is not JSON gives `Network response was not ok`; a JSON body gives its truthy `message`, or else the fallback |
| Api.FetchProducts | src/services/api.ts:5-12 | a network error rejects with its message; a non-ok response rejects with the error message and the list fallback; an ok response gives the parsed body |
| Api.FetchProductById | src/services/api.ts:14-24 | as for the list, except that a 404 rejects with `Product not found` whatever the body, and the fallback names the id |
| Api.ResolvesIffOkJson | src/services/api.ts:14-24 | loading a product resolves exactly when a 2xx response with a JSON body arrived, and then with that body |
| Api.ListResolvesIffOkJson | src/services/api.ts:5-12 | loading the list resolves exactly when a 2xx response with a JSON body arrived |
| Api.SameRuleForBothCalls | src/services/api.ts:5-24 | apart from 404 and the fallback wording, both calls reject a failed response alike and with the same message |
| Api.RejectionMessageTruthy | src/services/api.ts:14-24 | a rejection for one product never carries an empty message when the transport's own messages are not empty |
| Js.DecimalString | src/hooks/use-toast.ts:26 | `toString` of a non-negative integer is non-empty, made of digits, with no leading zero |
| Js.DigitsValueOfDecimalString | src/hooks/use-toast.ts:26 | the digits of `n.toString()` have the value `n` |
| Js.DecimalStringInjective | src/hooks/use-toast.ts:24-27 | distinct counter values give distinct toast ids |
| Js.TrimStart | src/pages/ProductDetail.tsx:143 | `parseInt` skips exactly the longest prefix of white space: every dropped character is white space and the first kept one is not |
| Js.ParseInt | src/pages/ProductDetail.tsx:143 | a number is read only when the text after the white space starts with a digit or a sign, and a negative one only after a minus |
| Js.ParseIntOfDecimalString | src/pages/ProductDetail.tsx:143 | `parseInt` reads back `n.toString()`, also when text that cannot continue a number follows |
| Js.ParseIntRoundTrip | src/pages/ProductDetail.tsx:143 | `parseInt(n.toString())` is `n` |
| Js.ParseIntOfNegativeDecimalString | src/pages/ProductDetail.tsx:143 | a leading minus sign negates the number read |
| Js.ParseIntSkipsWhiteSpace | src/pages/ProductDetail.tsx:143 | leading white space does not change what `parseInt` reads |
| Js.ParseIntOfNonNumeric | src/pages/ProductDetail.tsx:143 | text that starts with no digit, sign or white space, and the empty text, give NaN |
| Js.ToUpperChar | src/pages/Products.tsx:115 | lower-case `a`-`z` become their capitals, other Basic Latin characters stay, and no result is a lower-case Basic Latin letter |
| Js.ToUpperCharIdempotent | src/pages/Products.tsx:115 | upper-casing a character twice is the same as once |
| Catalog.CategoryValues | src/pages/Products.tsx:34 | the `category` values kept by `filter(Boolean)` are exactly the truthy categories of the products |
| Catalog.CategoryValuesConcat | src/pages/Products.tsx:34 | `map` then `filter` keep the products' order and repeats: the values of a concatenation are the concatenation of the values |
| Catalog.CategoryValuesOfOne | src/pages/Products.tsx:34 | one product contributes its category exactly when it is truthy |
| Catalog.Distinct | src/pages/Products.tsx:34 | the `Set` round trip keeps exactly the values of its input, each once |
| Catalog.DistinctOrder | src/pages/Products.tsx:34 | the `Set` round trip keeps the values in the order of their first occurrences |
| Catalog.Categories | src/pages/Products.tsx:34 | the category buttons are exactly the products' truthy categories, each once, in order of first appearance |
| Catalog.WithCategory | src/pages/Products.tsx:38 | the kept products are exactly those whose category is the selected one |
| Catalog.WithCategoryConcat | src/pages/Products.tsx:38 | `filter` keeps order and repeats: it works over a concatenation part by part, and keeps one product exactly when its category is the selected one |
| Catalog.FilterByCategory | src/pages/Products.tsx:37-39 | with no selection (or a falsy one) every product, in order; otherwise exactly the products of that category |
| Catalog.FilterByCategoryConcat | src/pages/Products.tsx:37-39 | the shown list keeps the fetched order and repeats: over a concatenation it is the two parts' lists joined, and each product is kept or dropped on its own |
| Catalog.Compare | src/pages/Products.tsx:41-45 | each order's comparator is the difference of the sort keys: price, negated price, or the constant 0 |
| Catalog.Insert | src/pages/Products.tsx:41-45 | inserting adds exactly the new product to the multiset of products |
| Catalog.InsertSorted | src/pages/Products.tsx:41-45 | inserting into a list sorted by key keeps it sorted |
| Catalog.InsertWithKey | src/pages/Products.tsx:41-45 | the inserted product goes to the front of its key's subsequence, and every other key's subsequence stays |
| Catalog.SortProducts | src/pages/Products.tsx:41-45 | the sort of a copy is a permutation of its input, sorted by the comparator's key, and keeps the input order among equal keys |
| Catalog.StableSortUnique | src/pages/Products.tsx:41-45 | two lists that are both sorted by the key and keep the same order among equal keys are equal |
| Catalog.VisibleProducts | src/pages/Products.tsx:37-46 | the shown list is a permutation of the filtered list, with prices non-decreasing for `price-asc` and non-increasing for `price-desc` |
| Catalog.VisibleIsTheStableSort | src/pages/Products.tsx:37-46 | any stable sort of the filtered list is the list shown |
| Catalog.DefaultKeepsOrder | src/pages/Products.tsx:44 | the default order (comparator 0) leaves the filtered list exactly as it is |
| Catalog.CategoryLabel | src/pages/Products.tsx:115 | the label has the category's length, with the first character upper-cased and the rest unchanged |
| Catalog.CategoryLabelIdempotent | src/pages/Products.tsx:115 | labelling a label again changes nothing |
| ProductDetail.InitialLoadState | src/pages/ProductDetail.tsx:13-15 | the page mounts loading, with no product and no error |
| ProductDetail.BeginLoad | src/pages/ProductDetail.tsx:17-25 | a falsy route id sets the missing-id error, ends loading and requests nothing; a truthy one starts loading, clears the error and requests that id |
| ProductDetail.LoadErrorMessage | src/pages/ProductDetail.tsx:29-38 | `Product not found` becomes `Produkt nenalezen.`, other `Error` messages pass through, and other thrown values give the generic message |
| ProductDetail.SettleLoad | src/pages/ProductDetail.tsx:26-42 | loading ends either way; a resolved load stores the product, a rejected one stores the mapped message |
| ProductDetail.View | src/pages/ProductDetail.tsx:47-74 | the spinner exactly while loading; the product exactly when it is there with no truthy error; otherwise the error (or `Produkt nenalezen`) as heading, with the "does not exist" explanation exactly when the error is `Produkt nenalezen` |
| ProductDetail.MissingIdRequestsNothing | src/pages/ProductDetail.tsx:18-22 | without a route id no product is requested and the missing-id error is shown |
| ProductDetail.NotFoundIsShown | src/pages/ProductDetail.tsx:29-64 | after a 404 the error is `Produkt nenalezen.` and it is the heading, with the generic explanation |
| ProductDetail.GoneExplanationNeverAfterNotFound | src/pages/ProductDetail.tsx:62-64 | after a `Product not found` rejection the explanation is never the "does not exist" one |
| ProductDetail.LoadedProductIsShown | src/pages/ProductDetail.tsx:27-28 | a 2xx JSON response shows the product it carries |
| ProductDetail.DecreaseQuantity | src/pages/ProductDetail.tsx:85-89 | the minus button lowers the quantity by 1 above 1 and leaves it otherwise |
| ProductDetail.DecreaseChangesIffEnabled | src/pages/ProductDetail.tsx:85-89 | the minus button changes the quantity exactly when it is not disabled (`quantity <= 1`) |
| ProductDetail.IncreaseQuantity | src/pages/ProductDetail.tsx:91-93 | the plus button adds exactly 1 |
| ProductDetail.IncreaseThenDecrease | src/pages/ProductDetail.tsx:85-93 | the plus button adds exactly 1, and minus then undoes it |
| ProductDetail.QuantityFromParsed | src/pages/ProductDetail.tsx:143 | `Math.max(1, parsed \|\| 1)` is at least 1: the parsed value when it is 1 or more, and 1 for NaN, 0 and below |
| ProductDetail.QuantityFromInput | src/pages/ProductDetail.tsx:143 | the typed text sets `parseInt` of it when that is 1 or more, and 1 otherwise |
| ProductDetail.TypedQuantityRoundTrip | src/pages/ProductDetail.tsx:143 | typing the decimal form of a positive quantity sets that quantity |
| ProductDetail.TypedNonNumberGivesOne | src/pages/ProductDetail.tsx:143 | typing text that is not a number, or clearing the field, sets 1 |
| ProductDetail.Step | src/pages/ProductDetail.tsx:85-143 | one stepper event keeps a positive quantity positive, a typed value is always positive, and a button moves the quantity by at most 1 |
| ProductDetail.Run | src/pages/ProductDetail.tsx:12-143 | from the initial 1, no series of stepper events takes the quantity below 1, and a series with a typed value ends positive from any start |
| ProductDetail.RunConcat | src/pages/ProductDetail.tsx:85-143 | two series of events in a row act as their concatenation |
| ProductDetail.AddTimes | src/pages/ProductDetail.tsx:78-80 | `n >= 1` adds leave a line for the product, add a line only when there was none, keep every line's product and leave other products' lines as they were |
| ProductDetail.AddTimesExisting | src/pages/ProductDetail.tsx:78-80 | `n` adds of a product that has a line (ids unique) raise that line's quantity by `n` and change nothing else |
| ProductDetail.AddTimesNew | src/pages/ProductDetail.tsx:78-80 | `n >= 1` adds of a product without a line append one line with quantity `n` |
| ProductDetail.AddTimesValid | src/pages/ProductDetail.tsx:78-80 | any number of adds keeps the cart invariant |
| ProductDetail.AddTimesTotalsExisting | src/pages/ProductDetail.tsx:78-80 | `n` adds to an existing line add `n` items and `n` times the line's stored price |
| ProductDetail.AddTimesTotalsNew | src/pages/ProductDetail.tsx:78-80 | `n` adds of a new product add `n` items and `n` times its price |
| ProductDetail.HandleAddToCart | src/pages/ProductDetail.tsx:76-83 | with a product, `addToCart` runs `quantity` times (none below 1) and the page goes to `/kosik`: a new line with that quantity, or the existing line grown by exactly `quantity`; with none, nothing happens |
| Checkout.InitialForm | src/pages/Checkout.tsx:9-19 | every field starts empty except the payment method, which is `card` |
| Checkout.WithField | src/pages/Checkout.tsx:28-31 | the named field takes the value and every other field is kept |
| Checkout.FormExtensionality | src/pages/Checkout.tsx:9-19 | a form is determined by its nine fields |
| Checkout.LastChangeWins | src/pages/Checkout.tsx:30 | of two changes to one field, the later one wins |
| Checkout.ChangesCommute | src/pages/Checkout.tsx:30 | changes to different fields can be applied in either order |
| Checkout.SummaryLines | src/pages/Checkout.tsx:258-265 | one row per cart line, in order, with its id as key, its name, its quantity and `price * quantity` |
| Checkout.SummaryAddsUpToTotal | src/pages/Checkout.tsx:258-271 | the rows' amounts add up to the cart's `totalPrice` shown below them |
| Checkout.SummaryKeysUnique | src/pages/Checkout.tsx:259 | the row keys are distinct exactly when the cart has one line per product |
| Checkout.CheckoutPage.constructor | src/pages/Checkout.tsx:9-21 | the page starts with the initial form, not submitting and not complete |
| Checkout.CheckoutPage.View | src/pages/Checkout.tsx:23-69 | a redirect to `/produkty` exactly when the cart is empty and the order is not complete; the confirmation exactly when it is complete; otherwise the form with the summary, the cart's total, and a button that is disabled and labelled `Zpracovávám...` exactly while submitting |
| Checkout.CheckoutPage.HandleChange | src/pages/Checkout.tsx:28-31 | only the named field of the form changes |
| Checkout.CheckoutPage.SubmitClicked | src/pages/Checkout.tsx:33-38 | a click on the enabled button sets `isSubmitting` and schedules one completion; the cart and the form are untouched |
| Checkout.CheckoutPage.CompletionFires | src/pages/Checkout.tsx:38-42 | on a page still shown the submission ends and the order is complete; the cart is cleared in any case |
| Checkout.CheckoutPage.Leave | src/pages/Checkout.tsx:38-42 | leaving the page keeps a scheduled completion pending |
| Checkout.PlaceOrder | src/pages/Checkout.tsx:33-69 | submit then completion on a filled cart shows the confirmation over an empty cart, with no redirect |
| Checkout.LeaveWhileSubmitting | src/pages/Checkout.tsx:38-42 | leaving while submitting still clears the cart when the completion fires |

## Left out

- Network, `fetch` and `Response.json` are not modelled: a settled request is an input (`Api.Transport`). The base URL's proxying is configuration.
- Api.FetchProductById: does not model a 2xx body that is JSON but not a product, such as `null`. `Body.Json` always carries a `Product`, so the page's `setProduct(null)` followed by the "Produkt nenalezen" heading cannot arise in the model.
- Api.ErrorMessage: does not model a JSON body of `null` (reading `.message` throws a `TypeError`) or a `message` that is not a string; `message` is an optional string.
- Timers: `setTimeout` delays (`TOAST_REMOVE_DELAY`, the checkout's 1500 ms) are constants only. Firing is an explicit method, and the order in which timers fire is the caller's.
- React: `useState` and `useEffect` plumbing, rendering and routing are not modelled. A `navigate` call is a returned path or a view.
- ProductDetail.BeginLoad: does not model an effect that is still loading when the route id changes. A late answer from the old id is not rejected.
- The list page's own load and error display (Products.tsx lines 16-32, 49-69) are not modelled.
- Toasts.ToasterToast: display-only properties (`action` and the UI component's other `ToastProps`) and the `onOpenChange` callback are left out.
- Toasts.Merge: a patch field that is present but `undefined` overwrites the toast's field in JavaScript. The model treats it as absent.
- The `useToast` hook is not modelled: listener registration and removal, and its `dismiss` helper. Listeners are a fixed list, and calls to them are recorded; a listener that dispatches again is not modelled.
- The `update` and `dismiss` closures that `toast` returns are not modelled. They are `Dispatch` of an UPDATE or a DISMISS with the toast's id.
- Js.DecimalString: gives plain decimal digits for every natural number. JavaScript switches to exponent form from 10^21 and loses precision above 2^53; the toast counter stays below `Number.MAX_SAFE_INTEGER`, where the two agree.
- Js.ParseInt: does not model the loss of precision above 2^53 (`parseInt` returns a double), or `-0`, which is 0 here.
- Js.ToUpperChar: covers Basic Latin, Latin-1 Supplement and Latin Extended-A only. Characters whose upper case has two characters (`ß`, `ŉ`) are left as they are.
- Cart.TotalPrice: uses exact integers; the source adds JavaScript numbers, which agree for whole prices below 2^53.
- Checkout: the inputs' `required` attributes are not modelled. The submit button sits outside the `<form>`, so a click calls `handleSubmit` without form validation. There is no field validation and no order request in the code; submission is only the simulated delay.
- Checkout.CheckoutPage.View: the image, labels and other markup of the form are not modelled.
- src/pages/Cart.tsx, src/components/*, src/pages/OrderSuccess.tsx, src/App.tsx and the static pages are not part of this model. They wire up the operations above or only present data.
- src/data/products.ts (fixture data) is not part of this model.
