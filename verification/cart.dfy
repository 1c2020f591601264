/**
 The cart page (frontend/src/pages/Cart.tsx): the quantity buttons, the
 total, and where "checkout" leads. The cart reducer itself is not part of
 this model: a quantity change is modelled as the update the page
 dispatches, or none.
 */
module Cart {
  import opened Wrappers
  import opened ProductSchema

  /** A cart line: the product as it was added, with the chosen quantity. */
  datatype CartItem = CartItem(product: Product, quantity: int)

  /** The line total shown for a cart or order line. */
  function LineTotal(price: int, quantity: int): int {
    price * quantity
  }

  /** `items.reduce((total, item) => total + item.price * item.quantity, 0)`. */
  function Total(items: seq<CartItem>): int {
    if |items| == 0 then 0
    else Total(items[..|items| - 1]) + LineTotal(items[|items| - 1].product.price, items[|items| - 1].quantity)
  }

  /** The total of two carts laid end to end is the sum of their totals;
      with `Total([]) == 0` this pins the total down as the sum of the line
      totals. */
  lemma {:induction false} TotalAppend(a: seq<CartItem>, b: seq<CartItem>)
    ensures Total(a + b) == Total(a) + Total(b)
    decreases |b|
  {
    if |b| > 0 {
      assert (a + b)[..|a + b| - 1] == a + b[..|b| - 1];
      TotalAppend(a, b[..|b| - 1]);
    } else {
      assert a + b == a;
    }
  }

  /** Non-negative prices and quantities give a non-negative total. */
  lemma {:induction false} TotalNonNegative(items: seq<CartItem>)
    requires forall i :: 0 <= i < |items| ==> items[i].product.price >= 0 && items[i].quantity >= 0
    ensures Total(items) >= 0
  {
    if |items| > 0 {
      TotalNonNegative(items[..|items| - 1]);
    }
  }

  /** `items.find(item => item._id === productId)`: the first line for the
      product, if any. */
  function FindItem(items: seq<CartItem>, id: string): (r: Option<CartItem>)
    ensures r.None? <==> forall i :: 0 <= i < |items| ==> items[i].product.id != id
    ensures r.Some? ==> exists i :: 0 <= i < |items| && items[i] == r.value && r.value.product.id == id
                                    && forall j :: 0 <= j < i ==> items[j].product.id != id
  {
    if |items| == 0 then None
    else if items[0].product.id == id then Some(items[0])
    else
      var r := FindItem(items[1..], id);
      assert r.Some? ==> exists i :: 0 <= i < |items[1..]| && items[1..][i] == r.value && r.value.product.id == id
                                    && forall j :: 0 <= j < i ==> items[1..][j].product.id != id;
      r
  }

  /** The `updateQuantity` action the page dispatches. */
  datatype QuantityUpdate = QuantityUpdate(productId: string, quantity: int)

  /** `handleQuantityChange`: an update is dispatched only for a product in
      the cart and only when the new quantity lies in [1, stock]; otherwise
      nothing happens. */
  function HandleQuantityChange(items: seq<CartItem>, id: string, change: int): (r: Option<QuantityUpdate>)
    ensures (forall i :: 0 <= i < |items| ==> items[i].product.id != id) ==> r.None?
    ensures r.Some? ==> FindItem(items, id).Some?
    ensures r.Some? ==>
      var it := FindItem(items, id).value;
      r.value == QuantityUpdate(id, it.quantity + change) && 1 <= r.value.quantity <= it.product.stock
    ensures FindItem(items, id).Some? && 1 <= FindItem(items, id).value.quantity + change <= FindItem(items, id).value.product.stock
            ==> r.Some?
  {
    match FindItem(items, id)
    case None => None
    case Some(it) =>
      var q := it.quantity + change;
      if 1 <= q <= it.product.stock then Some(QuantityUpdate(id, q)) else None
  }

  /** The minus button is disabled at quantity 1 or less. */
  predicate MinusDisabled(it: CartItem) {
    it.quantity <= 1
  }

  /** The plus button is disabled once the quantity reaches the stock. */
  predicate PlusDisabled(it: CartItem) {
    it.quantity >= it.product.stock
  }

  /** For a line whose quantity lies in [1, stock], each enabled button
      dispatches an update that keeps the quantity in [1, stock], and the
      guards agree with the handler: a disabled button's click would have
      been refused anyway. */
  lemma ButtonsAgreeWithHandler(items: seq<CartItem>, i: nat)
    requires i < |items|
    requires forall j :: 0 <= j < i ==> items[j].product.id != items[i].product.id
    requires 1 <= items[i].quantity <= items[i].product.stock
    ensures var it := items[i];
      && (!MinusDisabled(it) <==> HandleQuantityChange(items, it.product.id, -1).Some?)
      && (!PlusDisabled(it) <==> HandleQuantityChange(items, it.product.id, 1).Some?)
      && (!MinusDisabled(it) ==> HandleQuantityChange(items, it.product.id, -1) == Some(QuantityUpdate(it.product.id, it.quantity - 1)))
      && (!PlusDisabled(it) ==> HandleQuantityChange(items, it.product.id, 1) == Some(QuantityUpdate(it.product.id, it.quantity + 1)))
  {
    var id := items[i].product.id;
    var f := FindItem(items, id);
    var k :| 0 <= k < |items| && items[k] == f.value && f.value.product.id == id
             && forall j :: 0 <= j < k ==> items[j].product.id != id;
    assert k == i;
  }

  /** `handleCheckout`: the login page for a visitor, the checkout
      otherwise. */
  function CheckoutRoute(isAuthenticated: bool): (route: string)
    ensures route == "/login" <==> !isAuthenticated
    ensures route == "/checkout" <==> isAuthenticated
  {
    if !isAuthenticated then "/login" else "/checkout"
  }
}
