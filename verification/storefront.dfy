/**
 Properties that cross the client/server boundary: what the checkout page
 posts is what the order handler stores, and the list page's pagination
 control agrees with the handler's page count.
 */
module Storefront {
  import opened Wrappers
  import opened ProductSchema
  import opened OrderSchema
  import opened Cart
  import opened Checkout
  import OrderController
  import ProductController
  import ProductList
  import OrderViews

  /** The amounts the order detail page lists against lines that copy the
      cart's prices and quantities add up to the cart total. */
  lemma {:induction false} ShownAmountsMatchCart(items: seq<OrderItem>, cart: seq<CartItem>)
    requires |items| == |cart|
    requires forall i :: 0 <= i < |cart| ==>
      items[i].price == cart[i].product.price && items[i].quantity == cart[i].quantity
    ensures OrderViews.Sum(OrderViews.LineAmounts(items)) == Total(cart)
    decreases |cart|
  {
    if |cart| > 0 {
      var n := |items|;
      ShownAmountsMatchCart(items[..n - 1], cart[..n - 1]);
      assert OrderViews.LineAmounts(items)[..n - 1] == OrderViews.LineAmounts(items[..n - 1]);
    }
  }

  /** A cart line the order schema accepts: a product reference and a
      quantity of at least one. */
  predicate OrderableLine(it: CartItem) {
    it.product.id != "" && it.quantity >= 1
  }

  /** A checkout payload built from a non-empty cart of orderable lines,
      with a shipping form that passed the wizard's validation and a
      captured payment, is accepted by the order handler whenever the stock
      covers it. The amounts the detail page lists for the stored order
      then add up to the total it shows: the cart total the page computed. */
  lemma CheckoutPayloadIsPlaced(
    s: Store, user: string, cart: seq<CartItem>, sh: Shipping, paypalId: string, paymentStatus: string)
    requires user != "" && paypalId != "" && paymentStatus != ""
    requires |cart| > 0 && forall i :: 0 <= i < |cart| ==> OrderableLine(cart[i])
    requires ShippingComplete(sh)
    requires var lines := OrderPayload(cart, sh, paypalId, paymentStatus).items.value;
      forall k :: 0 <= k < |lines| ==> OrderController.PassesAt(s, lines, k)
    ensures var r := OrderController.CreateOrder(s, user, OrderPayload(cart, sh, paypalId, paymentStatus));
      && r.response.Success?
      && r.response.value.totalAmount == Total(cart)
      && OrderViews.Sum(OrderViews.LineAmounts(r.response.value.items)) == r.response.value.totalAmount
  {
    var req := OrderPayload(cart, sh, paypalId, paymentStatus);
    var lines := req.items.value;
    OrderController.ReserveCharacterised(s, lines);
    ShippingCompleteIffNoBlankField(sh);
    var o := NewOrder(user, OrderController.Snapshot(lines), sh, req.payment, req.totalAmount);
    assert ValidOrder(o);
    ShownAmountsMatchCart(o.items, cart);
  }

  /** The list page shows its pagination control exactly when the listing
      holds more than one page of products. */
  lemma PaginationShownIffMoreThanOnePage(count: nat)
    ensures ProductList.ShowPagination(ProductController.PageCount(count)) <==> count > ProductController.PageSize
  {
  }
}
