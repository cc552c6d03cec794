/**
 * The cart's state updaters and derived totals (src/context/CartContext.tsx).
 * Each operation of the cart provider hands React a functional updater that
 * builds a new list of lines from the previous one; those updaters are the
 * functions below, and the totals are the two `reduce` folds.
 */
module Cart {
  import opened Types
  import Seqs

  /** Some line holds the product with this id (`find` returns an item). */
  predicate HasLine(items: seq<CartItem>, id: string)
  {
    exists i :: 0 <= i < |items| && items[i].product.id == id
  }

  /** At most one line per product id. */
  predicate UniqueIds(items: seq<CartItem>)
  {
    forall i, j :: 0 <= i < j < |items| ==> items[i].product.id != items[j].product.id
  }

  /** Every line holds at least one unit. */
  predicate PositiveQuantities(items: seq<CartItem>)
  {
    forall i :: 0 <= i < |items| ==> items[i].quantity >= 1
  }

  /** The invariant every reachable cart satisfies. */
  predicate Valid(items: seq<CartItem>)
  {
    UniqueIds(items) && PositiveQuantities(items)
  }

  /**
   * `addToCart`: when a line for the product exists, every line with that id
   * gets one more unit (keeping the product stored in the line); otherwise
   * a new line with one unit is appended.
   */
  function AddToCart(items: seq<CartItem>, product: Product): (r: seq<CartItem>)
    ensures |r| == if HasLine(items, product.id) then |items| else |items| + 1
    ensures HasLine(r, product.id)
    ensures forall i :: 0 <= i < |items| ==> r[i].product == items[i].product
    ensures forall i :: 0 <= i < |items| && items[i].product.id != product.id ==> r[i] == items[i]
    ensures !HasLine(items, product.id) ==> r[..|items|] == items && r[|items|] == CartItem(product, 1)
  {
    if HasLine(items, product.id) then
      var r := seq(|items|, i requires 0 <= i < |items| =>
        if items[i].product.id == product.id then items[i].(quantity := items[i].quantity + 1) else items[i]);
      assert forall i :: 0 <= i < |items| ==> r[i].product == items[i].product;
      r
    else
      var r := items + [CartItem(product, 1)];
      assert r[|items|].product.id == product.id;
      r
  }

  /** `removeFromCart`: keeps the lines whose product has another id, in order. */
  function RemoveFromCart(items: seq<CartItem>, id: string): (r: seq<CartItem>)
    ensures !HasLine(r, id)
    ensures forall it :: it in r <==> it in items && it.product.id != id
    ensures !HasLine(items, id) ==> r == items
  {
    if items == [] then []
    else
      var rest := RemoveFromCart(items[1..], id);
      assert forall it :: it in items <==> it == items[0] || it in items[1..];
      if items[0].product.id == id then rest else [items[0]] + rest
  }

  lemma UniqueTail(items: seq<CartItem>)
    requires UniqueIds(items) && items != []
    ensures UniqueIds(items[1..]) && !HasLine(items[1..], items[0].product.id)
  {
    var tail := items[1..];
    forall i, j | 0 <= i < j < |tail| ensures tail[i].product.id != tail[j].product.id {
      assert tail[i] == items[i + 1] && tail[j] == items[j + 1];
    }
    forall i | 0 <= i < |tail| ensures tail[i].product.id != items[0].product.id {
      assert tail[i] == items[i + 1];
    }
  }

  /** A line in front of a cart that does not hold its id keeps the ids unique. */
  lemma UniqueCons(head: CartItem, rest: seq<CartItem>)
    requires UniqueIds(rest) && !HasLine(rest, head.product.id)
    ensures UniqueIds([head] + rest)
  {
    var r := [head] + rest;
    forall i, j | 0 <= i < j < |r| ensures r[i].product.id != r[j].product.id {
      assert r[j] == rest[j - 1];
      if i > 0 {
        assert r[i] == rest[i - 1];
      }
    }
  }

  /** Removing creates no line for any id: every remaining line was already there. */
  lemma RemoveCreatesNoLine(items: seq<CartItem>, id: string, other: string)
    requires HasLine(RemoveFromCart(items, id), other)
    ensures HasLine(items, other)
  {
    var r := RemoveFromCart(items, id);
    var i :| 0 <= i < |r| && r[i].product.id == other;
    assert r[i] in r;
    var j :| 0 <= j < |items| && items[j] == r[i];
  }

  /** Removing keeps one line per id. */
  lemma {:induction false} RemoveKeepsUniqueIds(items: seq<CartItem>, id: string)
    requires UniqueIds(items)
    ensures UniqueIds(RemoveFromCart(items, id))
  {
    if items != [] {
      var tail := items[1..];
      UniqueTail(items);
      RemoveKeepsUniqueIds(tail, id);
      var rest := RemoveFromCart(tail, id);
      if items[0].product.id != id {
        if HasLine(rest, items[0].product.id) {
          RemoveCreatesNoLine(tail, id, items[0].product.id);
          assert false;
        }
        UniqueCons(items[0], rest);
      }
    }
  }

  /** Removing keeps one line per id and positive quantities. */
  lemma RemoveKeepsValid(items: seq<CartItem>, id: string)
    ensures Valid(items) ==> Valid(RemoveFromCart(items, id))
  {
    if Valid(items) {
      RemoveKeepsUniqueIds(items, id);
      var r := RemoveFromCart(items, id);
      forall i | 0 <= i < |r| ensures r[i].quantity >= 1 {
        assert r[i] in r;
      }
    }
  }

  /**
   * `updateQuantity`: a quantity of zero or less removes the line; a positive
   * one replaces the quantity of every line with that id and creates none.
   */
  function UpdateQuantity(items: seq<CartItem>, id: string, quantity: int): (r: seq<CartItem>)
    ensures quantity <= 0 ==> r == RemoveFromCart(items, id)
    ensures quantity > 0 ==> |r| == |items|
    ensures quantity > 0 ==> forall i :: 0 <= i < |items| ==>
      r[i].product == items[i].product &&
      r[i].quantity == if items[i].product.id == id then quantity else items[i].quantity
    ensures HasLine(r, id) ==> HasLine(items, id)
  {
    if quantity <= 0 then RemoveFromCart(items, id)
    else
      seq(|items|, i requires 0 <= i < |items| =>
        if items[i].product.id == id then items[i].(quantity := quantity) else items[i])
  }

  /** `clearCart`: the empty cart. */
  function ClearCart(): (r: seq<CartItem>)
    ensures Valid(r) && !exists id :: HasLine(r, id)
  {
    []
  }

  /** `totalItems`: the quantities summed in list order, as `reduce` folds them. */
  function TotalItems(items: seq<CartItem>): (n: int)
    ensures PositiveQuantities(items) ==> n >= |items|
  {
    if items == [] then 0 else TotalItems(items[..|items| - 1]) + items[|items| - 1].quantity
  }

  /** What one line costs: `price * quantity`. */
  function Amount(item: CartItem): (a: int)
    ensures item.product.price >= 0 && item.quantity >= 0 ==> a >= 0
  {
    item.product.price * item.quantity
  }

  /** `totalPrice`: the lines' amounts summed in list order. */
  function TotalPrice(items: seq<CartItem>): (n: int)
    ensures PositiveQuantities(items) && (forall i :: 0 <= i < |items| ==> items[i].product.price >= 0) ==> n >= 0
  {
    if items == [] then 0
    else TotalPrice(items[..|items| - 1]) + Amount(items[|items| - 1])
  }

  /** Adding keeps one line per id and positive quantities. */
  lemma AddKeepsValid(items: seq<CartItem>, product: Product)
    ensures Valid(items) ==> Valid(AddToCart(items, product))
  {
    if Valid(items) {
      var r := AddToCart(items, product);
      if !HasLine(items, product.id) {
        assert r == items + [CartItem(product, 1)];
        forall i | 0 <= i < |items| ensures items[i].product.id != product.id {
        }
      }
    }
  }

  /** Changing a quantity keeps one line per id and positive quantities. */
  lemma UpdateKeepsValid(items: seq<CartItem>, id: string, quantity: int)
    ensures Valid(items) ==> Valid(UpdateQuantity(items, id, quantity))
  {
    RemoveKeepsValid(items, id);
  }

  // ---------------------------------------------------------------------
  // Lemmas: what each operation does to one line, and to the totals.

  /** A line's id occurs nowhere else in a cart with unique ids. */
  lemma LineIsTheOnlyOne(items: seq<CartItem>, k: nat)
    requires UniqueIds(items) && k < |items|
    ensures forall i :: 0 <= i < |items| && items[i].product.id == items[k].product.id ==> i == k
  {
  }

  /**
   * Adding a product that already has a line adds one unit to that line
   * only: the length, the order and every other line stay as they were.
   */
  lemma AddToExistingLine(items: seq<CartItem>, product: Product, k: nat)
    requires UniqueIds(items) && k < |items| && items[k].product.id == product.id
    ensures AddToCart(items, product) == items[k := items[k].(quantity := items[k].quantity + 1)]
  {
    LineIsTheOnlyOne(items, k);
  }

  /** Removing the line at `k` of a cart with unique ids leaves the others in order. */
  lemma {:induction false} RemoveLineAt(items: seq<CartItem>, k: nat)
    requires UniqueIds(items) && k < |items|
    ensures RemoveFromCart(items, items[k].product.id) == items[..k] + items[k + 1..]
  {
    var tail := items[1..];
    UniqueTail(items);
    if k > 0 {
      assert tail[k - 1] == items[k];
      RemoveLineAt(tail, k - 1);
      Seqs.DropAtAfterHead(items, k);
    } else {
      Seqs.DropAtHead(items);
    }
  }

  /** On an existing line, a positive quantity replaces that line's quantity only. */
  lemma UpdateExistingLine(items: seq<CartItem>, k: nat, quantity: int)
    requires UniqueIds(items) && k < |items| && quantity > 0
    ensures UpdateQuantity(items, items[k].product.id, quantity) == items[k := items[k].(quantity := quantity)]
  {
    LineIsTheOnlyOne(items, k);
  }

  /** A positive quantity for an id without a line changes nothing. */
  lemma UpdateAbsentLine(items: seq<CartItem>, id: string, quantity: int)
    requires !HasLine(items, id) && quantity > 0
    ensures UpdateQuantity(items, id, quantity) == items
  {
  }

  /** The totals of a cart with one line replaced. */
  lemma {:induction false} TotalsAfterReplacingLine(items: seq<CartItem>, k: nat, line: CartItem)
    requires k < |items|
    ensures TotalItems(items[k := line]) == TotalItems(items) - items[k].quantity + line.quantity
    ensures TotalPrice(items[k := line]) == TotalPrice(items) - Amount(items[k]) + Amount(line)
  {
    var r := items[k := line];
    var n := |items|;
    if k < n - 1 {
      assert r[..n - 1] == items[..n - 1][k := line];
      TotalsAfterReplacingLine(items[..n - 1], k, line);
    } else {
      assert r[..n - 1] == items[..n - 1];
    }
  }

  /** The totals of two carts laid end to end. */
  lemma {:induction false} TotalsOfConcatenation(a: seq<CartItem>, b: seq<CartItem>)
    ensures TotalItems(a + b) == TotalItems(a) + TotalItems(b)
    ensures TotalPrice(a + b) == TotalPrice(a) + TotalPrice(b)
  {
    if b == [] {
      assert a + b == a;
    } else {
      assert (a + b)[..|a + b| - 1] == a + b[..|b| - 1];
      TotalsOfConcatenation(a, b[..|b| - 1]);
    }
  }

  lemma UnitsMore(price: int, quantity: int, n: int)
    ensures price * (quantity + n) == price * quantity + price * n
  {
  }

  /** `n` more units on one line add `n` to the item count and `n` times its price to the total. */
  lemma TotalsAfterMoreUnits(items: seq<CartItem>, k: nat, n: int)
    requires k < |items|
    ensures TotalItems(items[k := items[k].(quantity := items[k].quantity + n)]) == TotalItems(items) + n
    ensures TotalPrice(items[k := items[k].(quantity := items[k].quantity + n)]) ==
      TotalPrice(items) + items[k].product.price * n
  {
    var line := items[k];
    var bumped := line.(quantity := line.quantity + n);
    TotalsAfterReplacingLine(items, k, bumped);
    UnitsMore(line.product.price, line.quantity, n);
    assert Amount(bumped) == Amount(line) + line.product.price * n;
  }

  /**
   * Adding to an existing line gives the cart one more unit, priced at the
   * price stored in that line (not the price of the product passed in).
   */
  lemma TotalsAfterAddToExisting(items: seq<CartItem>, product: Product, k: nat)
    requires UniqueIds(items) && k < |items| && items[k].product.id == product.id
    ensures TotalItems(AddToCart(items, product)) == TotalItems(items) + 1
    ensures TotalPrice(AddToCart(items, product)) == TotalPrice(items) + items[k].product.price
  {
    AddToExistingLine(items, product, k);
    TotalsAfterMoreUnits(items, k, 1);
  }

  /** Adding a new product gives the cart one more unit at that product's price. */
  lemma TotalsAfterAddNew(items: seq<CartItem>, product: Product)
    requires !HasLine(items, product.id)
    ensures TotalItems(AddToCart(items, product)) == TotalItems(items) + 1
    ensures TotalPrice(AddToCart(items, product)) == TotalPrice(items) + product.price
  {
    var r := AddToCart(items, product);
    assert r == items + [CartItem(product, 1)];
    assert r[..|r| - 1] == items;
  }

  /** Removing a line takes its units and their price out of the totals. */
  lemma TotalsAfterRemove(items: seq<CartItem>, k: nat)
    requires UniqueIds(items) && k < |items|
    ensures TotalItems(RemoveFromCart(items, items[k].product.id)) == TotalItems(items) - items[k].quantity
    ensures TotalPrice(RemoveFromCart(items, items[k].product.id)) == TotalPrice(items) - Amount(items[k])
  {
    RemoveLineAt(items, k);
    TotalsWithoutLine(items, k);
  }

  lemma SplitAt(items: seq<CartItem>, k: nat)
    requires k < |items|
    ensures items == items[..k] + ([items[k]] + items[k + 1..])
  {
  }

  lemma TotalsOfOneLine(line: CartItem)
    ensures TotalItems([line]) == line.quantity && TotalPrice([line]) == Amount(line)
  {
    assert [line][..0] == [];
  }

  /** The totals of a cart with the line at `k` taken out. */
  lemma TotalsWithoutLine(items: seq<CartItem>, k: nat)
    requires k < |items|
    ensures TotalItems(items[..k] + items[k + 1..]) == TotalItems(items) - items[k].quantity
    ensures TotalPrice(items[..k] + items[k + 1..]) == TotalPrice(items) - Amount(items[k])
  {
    var front, line, back := items[..k], items[k], items[k + 1..];
    SplitAt(items, k);
    TotalsOfConcatenation(front, [line] + back);
    TotalsOfConcatenation([line], back);
    TotalsOfOneLine(line);
    TotalsOfConcatenation(front, back);
  }

  /** In a valid cart the item count is zero exactly when the cart is empty. */
  lemma NoItemsIffEmpty(items: seq<CartItem>)
    requires Valid(items)
    ensures TotalItems(items) == 0 <==> items == []
  {
  }
}

/**
 * The cart provider's single state slot (`useState<CartItem[]>`): each
 * operation replaces the slot with its updater's result, and the totals are
 * derived from the slot on every read.
 */
module CartProvider {
  import opened Types
  import Cart

  class CartStore {
    var cartItems: seq<CartItem>

    /** The provider starts with an empty cart. */
    constructor ()
      ensures cartItems == [] && Cart.Valid(cartItems)
    {
      cartItems := [];
    }

    function TotalItems(): int
      reads this
    {
      Cart.TotalItems(cartItems)
    }

    function TotalPrice(): int
      reads this
    {
      Cart.TotalPrice(cartItems)
    }

    method AddToCart(product: Product)
      modifies this
      ensures cartItems == Cart.AddToCart(old(cartItems), product)
      ensures Cart.Valid(old(cartItems)) ==> Cart.Valid(cartItems)
    {
      Cart.AddKeepsValid(cartItems, product);
      cartItems := Cart.AddToCart(cartItems, product);
    }

    method RemoveFromCart(productId: string)
      modifies this
      ensures cartItems == Cart.RemoveFromCart(old(cartItems), productId)
      ensures Cart.Valid(old(cartItems)) ==> Cart.Valid(cartItems)
    {
      Cart.RemoveKeepsValid(cartItems, productId);
      cartItems := Cart.RemoveFromCart(cartItems, productId);
    }

    method UpdateQuantity(productId: string, quantity: int)
      modifies this
      ensures cartItems == Cart.UpdateQuantity(old(cartItems), productId, quantity)
      ensures Cart.Valid(old(cartItems)) ==> Cart.Valid(cartItems)
    {
      Cart.UpdateKeepsValid(cartItems, productId, quantity);
      if quantity <= 0 {
        RemoveFromCart(productId);
        return;
      }
      cartItems := Cart.UpdateQuantity(cartItems, productId, quantity);
    }

    /** After clearing, the cart is empty and both totals are zero. */
    method ClearCart()
      modifies this
      ensures cartItems == [] && TotalItems() == 0 && TotalPrice() == 0
    {
      cartItems := Cart.ClearCart();
    }
  }
}
