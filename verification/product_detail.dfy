/**
 The product page (frontend/src/pages/ProductDetail.tsx): the quantity
 selector with its clamp, the add-to-cart action and the button guards.
 */
module ProductDetail {
  import opened Wrappers
  import opened ProductSchema
  import opened Cart

  /** The quantity selected when the page opens. */
  const InitialQuantity := 1

  const NotFoundMessage := "Producto no encontrado"

  /** `product?.stock || 1`: the stock of the loaded product, or 1 when no
      product is loaded or its stock is 0 (a falsy number). */
  function UpperBound(p: Option<Product>): (b: int)
    ensures p.None? ==> b == 1
    ensures p.Some? && p.value.stock == 0 ==> b == 1
    ensures p.Some? && p.value.stock != 0 ==> b == p.value.stock
  {
    if p.Some? && p.value.stock != 0 then p.value.stock else 1
  }

  /** `handleQuantityChange`: the new quantity is taken only when it lies in
      [1, UpperBound]; otherwise the quantity stays. */
  function HandleQuantityChange(q: int, p: Option<Product>, amount: int): (r: int)
    ensures r == q || r == q + amount
    ensures r == q + amount && amount != 0 ==> 1 <= r <= UpperBound(p)
    ensures 1 <= q + amount <= UpperBound(p) ==> r == q + amount
  {
    var n := q + amount;
    if 1 <= n && n <= UpperBound(p) then n else q
  }

  /** The quantity after a sequence of clicks. */
  function Clicks(q: int, p: Option<Product>, amounts: seq<int>): int
    decreases |amounts|
  {
    if |amounts| == 0 then q else Clicks(HandleQuantityChange(q, p, amounts[0]), p, amounts[1..])
  }

  /** Whatever the clicks, the selected quantity stays at least 1 and never
      exceeds the bound unless it is still the initial 1: with no product or
      stock 0 it is exactly 1, and with a positive stock it lies in
      [1, stock]. */
  lemma {:induction false} QuantityStaysInRange(p: Option<Product>, amounts: seq<int>)
    ensures var q := Clicks(InitialQuantity, p, amounts);
      q >= 1 && (q == 1 || q <= UpperBound(p))
    ensures p.None? || p.value.stock == 0 ==> Clicks(InitialQuantity, p, amounts) == 1
    ensures p.Some? && p.value.stock >= 1 ==> 1 <= Clicks(InitialQuantity, p, amounts) <= p.value.stock
  {
    ClicksKeepRange(InitialQuantity, p, amounts);
  }

  lemma {:induction false} ClicksKeepRange(q: int, p: Option<Product>, amounts: seq<int>)
    requires q >= 1 && (q == 1 || q <= UpperBound(p))
    ensures var r := Clicks(q, p, amounts);
      r >= 1 && (r == 1 || r <= UpperBound(p))
    decreases |amounts|
  {
    if |amounts| > 0 {
      ClicksKeepRange(HandleQuantityChange(q, p, amounts[0]), p, amounts[1..]);
    }
  }

  /** `handleAddToCart`: the loaded product with the selected quantity, or
      nothing when no product is loaded. */
  function AddToCart(p: Option<Product>, q: int): (r: Option<CartItem>)
    ensures r.Some? <==> p.Some?
    ensures r.Some? ==> r.value.product == p.value && r.value.quantity == q
  {
    match p
    case None => None
    case Some(prod) => Some(CartItem(prod, q))
  }

  /** The add button is disabled for a product with no stock. */
  predicate AddDisabled(prod: Product) {
    prod.stock == 0
  }

  /** Minus is disabled at quantity 1 or less. */
  predicate MinusDisabled(q: int) {
    q <= 1
  }

  /** Plus is disabled once the quantity reaches the stock. */
  predicate PlusDisabled(q: int, prod: Product) {
    q >= prod.stock
  }

  /** For a loaded product with positive stock and a quantity in
      [1, stock], each button is enabled exactly when its click changes
      the quantity, and then by exactly one. */
  lemma ButtonsAgreeWithClamp(prod: Product, q: int)
    requires prod.stock >= 1 && 1 <= q <= prod.stock
    ensures !MinusDisabled(q) <==> HandleQuantityChange(q, Some(prod), -1) == q - 1
    ensures MinusDisabled(q) <==> HandleQuantityChange(q, Some(prod), -1) == q
    ensures !PlusDisabled(q, prod) <==> HandleQuantityChange(q, Some(prod), 1) == q + 1
    ensures PlusDisabled(q, prod) <==> HandleQuantityChange(q, Some(prod), 1) == q
  {
  }

  /** What the page renders. */
  datatype Screen = Spinner | ErrorAlert(message: string) | Details(product: Product)

  /** A spinner while loading; then the error, or "Producto no encontrado"
      when no product is loaded; otherwise the product. */
  function Render(loading: bool, error: Option<string>, p: Option<Product>): (r: Screen)
    ensures r.Spinner? <==> loading
    ensures r.Details? <==> !loading && (error.None? || error.value == "") && p.Some?
    ensures r.Details? ==> r.product == p.value
    ensures r.ErrorAlert? && error.Some? && error.value != "" ==> r.message == error.value
    ensures r.ErrorAlert? && (error.None? || error.value == "") ==> r.message == NotFoundMessage
  {
    if loading then Spinner
    else if (error.Some? && error.value != "") || p.None? then ErrorAlert(OrElse(error, NotFoundMessage))
    else Details(p.value)
  }
}
