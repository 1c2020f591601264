/**
 The client's order state (frontend/src/store/slices/orderSlice.ts): the
 reducer's response to the createOrder, getOrderDetails, getMyOrders and
 createPaymentIntent thunks and to clearOrder and clearPaymentIntent.
 Payloads arrive with the actions; the HTTP calls are not modelled.
 */
module OrderSlice {
  import opened Wrappers
  import opened OrderSchema

  datatype OrderState = OrderState(
    order: Option<Order>,
    orders: seq<Order>,
    loading: bool,
    error: Option<string>,
    paymentIntent: Option<string>)

  const Initial := OrderState(None, [], false, None, None)

  datatype Thunk = CreateOrder | GetOrderDetails | GetMyOrders | CreatePaymentIntent

  function DefaultError(t: Thunk): string {
    match t
    case CreateOrder => "Error al crear la orden"
    case GetOrderDetails => "Error al obtener detalles de la orden"
    case GetMyOrders => "Error al obtener \U{00F3}rdenes"
    case CreatePaymentIntent => "Error al crear intenci\U{00F3}n de pago"
  }

  datatype Action =
    | Pending(thunk: Thunk)
    | CreateOrderFulfilled(order: Order)
    | OrderDetailsFulfilled(order: Order)
    | MyOrdersFulfilled(orders: seq<Order>)
    | PaymentIntentFulfilled(clientSecret: string)
    | Rejected(thunk: Thunk, message: Option<string>)
    | ClearOrder
    | ClearPaymentIntent

  /** The three data fields. */
  function Data(st: OrderState): (Option<Order>, seq<Order>, Option<string>) {
    (st.order, st.orders, st.paymentIntent)
  }

  function Reduce(st: OrderState, a: Action): (r: OrderState)
    ensures a.Pending? ==> r == st.(loading := true, error := None)
    ensures a.Rejected? ==>
      r == st.(loading := false, error := Some(OrElse(a.message, DefaultError(a.thunk))))
    ensures a.CreateOrderFulfilled? || a.OrderDetailsFulfilled? ==> r == st.(loading := false, order := Some(a.order))
    ensures a.MyOrdersFulfilled? ==> r == st.(loading := false, orders := a.orders)
    ensures a.PaymentIntentFulfilled? ==> r == st.(loading := false, paymentIntent := Some(a.clientSecret))
    ensures a.ClearOrder? ==> r == st.(order := None, error := None)
    ensures a.ClearPaymentIntent? ==> r == st.(paymentIntent := None)
  {
    match a
    case Pending(_) => st.(loading := true, error := None)
    case CreateOrderFulfilled(o) => st.(loading := false, order := Some(o))
    case OrderDetailsFulfilled(o) => st.(loading := false, order := Some(o))
    case MyOrdersFulfilled(os) => st.(loading := false, orders := os)
    case PaymentIntentFulfilled(s) => st.(loading := false, paymentIntent := Some(s))
    case Rejected(t, m) => st.(loading := false, error := Some(OrElse(m, DefaultError(t))))
    case ClearOrder => st.(order := None, error := None)
    case ClearPaymentIntent => st.(paymentIntent := None)
  }

  function Replay(st: OrderState, actions: seq<Action>): OrderState
    decreases |actions|
  {
    if |actions| == 0 then st else Replay(Reduce(st, actions[0]), actions[1..])
  }

  /** Pending and rejected actions never touch the data; each fulfilled
      action writes at most its own field. */
  lemma ReduceFrames(st: OrderState, a: Action)
    ensures a.Pending? || a.Rejected? ==> Data(Reduce(st, a)) == Data(st)
    ensures Reduce(st, a).orders != st.orders ==> a.MyOrdersFulfilled?
    ensures Reduce(st, a).order != st.order ==> a.CreateOrderFulfilled? || a.OrderDetailsFulfilled? || a.ClearOrder?
    ensures Reduce(st, a).paymentIntent != st.paymentIntent ==> a.PaymentIntentFulfilled? || a.ClearPaymentIntent?
  {
  }

  /** No error is shown while a request is in flight, in every state
      reachable from one where that holds. */
  lemma {:induction false} ReplayLoadingHasNoError(st: OrderState, actions: seq<Action>)
    requires st.loading ==> st.error.None?
    ensures var r := Replay(st, actions); r.loading ==> r.error.None?
    decreases |actions|
  {
    if |actions| > 0 {
      ReplayLoadingHasNoError(Reduce(st, actions[0]), actions[1..]);
    }
  }

  /** The order history survives everything but a new history: a run with
      no getMyOrders result keeps it. */
  lemma {:induction false} HistoryOnlyFromMyOrders(st: OrderState, actions: seq<Action>)
    requires forall i :: 0 <= i < |actions| ==> !actions[i].MyOrdersFulfilled?
    ensures Replay(st, actions).orders == st.orders
    decreases |actions|
  {
    if |actions| > 0 {
      HistoryOnlyFromMyOrders(Reduce(st, actions[0]), actions[1..]);
    }
  }
}
