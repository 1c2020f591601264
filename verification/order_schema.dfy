/**
 The persisted order document and the constraints its schema enforces when
 an order is saved (backend/src/models/Order.js).
 */
module OrderSchema {

  /** The order lifecycle enumeration of the schema. */
  const Statuses: seq<string> := ["pending", "processing", "shipped", "delivered", "cancelled"]

  /** The status a new order receives when none is given. */
  const DefaultStatus: string := "processing"

  /** The only payment method the schema admits. */
  const PayPal: string := "PayPal"

  /** A line item: a product reference with the name, quantity and price
      captured when the order was placed. */
  datatype OrderItem = OrderItem(product: string, name: string, quantity: int, price: int)

  /** The seven shipping-address fields. */
  datatype Shipping = Shipping(
    firstName: string,
    lastName: string,
    address: string,
    city: string,
    state: string,
    zipCode: string,
    phone: string)

  datatype PaymentDetails = PaymentDetails(id: string, status: string, paymentMethod: string)

  datatype Order = Order(
    user: string,
    items: seq<OrderItem>,
    shipping: Shipping,
    payment: PaymentDetails,
    totalAmount: int,
    status: string)

  /** The orders collection, keyed by document id. */
  type Orders = map<string, Order>

  /** The shipping fields in declaration order. */
  function ShippingFields(s: Shipping): (r: seq<string>)
    ensures |r| == 7
  {
    [s.firstName, s.lastName, s.address, s.city, s.state, s.zipCode, s.phone]
  }

  predicate IsStatus(s: string) {
    s in Statuses
  }

  /** A line item needs a product reference and a quantity of at least 1. */
  predicate ValidItem(it: OrderItem) {
    it.product != "" && it.quantity >= 1
  }

  /** The order schema: a user reference; valid items; all seven shipping
      fields, the payment id and the payment status present (a string is
      missing when empty); the payment method "PayPal"; a known status. */
  predicate ValidOrder(o: Order) {
    && o.user != ""
    && (forall i :: 0 <= i < |o.items| ==> ValidItem(o.items[i]))
    && (forall i :: 0 <= i < 7 ==> ShippingFields(o.shipping)[i] != "")
    && o.payment.id != ""
    && o.payment.status != ""
    && o.payment.paymentMethod == PayPal
    && IsStatus(o.status)
  }

  /** A new order document: the status takes its default. */
  function NewOrder(user: string, items: seq<OrderItem>, shipping: Shipping,
                    payment: PaymentDetails, totalAmount: int): (o: Order)
    ensures o.status == DefaultStatus && IsStatus(o.status)
    ensures o.items == items && o.totalAmount == totalAmount && o.user == user
  {
    Order(user, items, shipping, payment, totalAmount, DefaultStatus)
  }
}
