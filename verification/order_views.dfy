/**
 The order history and order detail pages (frontend/src/pages/Orders.tsx,
 frontend/src/pages/OrderDetail.tsx): the status chip colour each page
 defines, the line totals, and when each page fetches.
 */
module OrderViews {
  import opened Wrappers
  import opened OrderSchema
  import Cart

  /** `getStatusColor` as the history page defines it. */
  function HistoryStatusColor(status: string): string {
    match status
    case "pending" => "warning"
    case "processing" => "info"
    case "shipped" => "primary"
    case "delivered" => "success"
    case "cancelled" => "error"
    case _ => "default"
  }

  /** `getStatusColor` as the detail page defines it, separately. */
  function DetailStatusColor(status: string): string {
    if status == "pending" then "warning"
    else if status == "processing" then "info"
    else if status == "shipped" then "primary"
    else if status == "delivered" then "success"
    else if status == "cancelled" then "error"
    else "default"
  }

  /** The two pages colour every status alike; the five statuses of the
      order schema get five different colours, none of them "default", and
      every other string gets "default". */
  lemma StatusColours(status: string)
    ensures HistoryStatusColor(status) == DetailStatusColor(status)
    ensures HistoryStatusColor(status) == "default" <==> !IsStatus(status)
    ensures forall i, j :: 0 <= i < j < |Statuses| ==> HistoryStatusColor(Statuses[i]) != HistoryStatusColor(Statuses[j])
  {
  }

  /** The amount shown against each line of an order: price times
      quantity, the same product the cart shows. */
  function LineAmounts(items: seq<OrderItem>): (r: seq<int>)
    ensures |r| == |items|
    ensures forall i :: 0 <= i < |items| ==> r[i] == Cart.LineTotal(items[i].price, items[i].quantity)
  {
    seq(|items|, i requires 0 <= i < |items| => Cart.LineTotal(items[i].price, items[i].quantity))
  }

  /** The sum of a list of amounts. */
  function Sum(xs: seq<int>): int {
    if |xs| == 0 then 0 else Sum(xs[..|xs| - 1]) + xs[|xs| - 1]
  }

  /** What the history page's effect does: a visitor goes to "/login",
      a signed-in user's orders are requested. */
  datatype HistoryEffect = GoToLogin | FetchMyOrders

  function HistoryOnUser(signedIn: bool): (e: HistoryEffect)
    ensures e == GoToLogin <==> !signedIn
  {
    if signedIn then FetchMyOrders else GoToLogin
  }

  /** The detail page requests the order only for a non-empty id. */
  function DetailFetch(id: Option<string>): (r: Option<string>)
    ensures r.Some? <==> id.Some? && id.value != ""
    ensures r.Some? ==> r == id
  {
    if id.Some? && id.value != "" then id else None
  }

  /** What either page shows. */
  datatype Screen = Spinner | ErrorAlert(message: string) | Nothing | Content

  /** The detail page: spinner while loading, then the error, then nothing
      without a loaded order, then the order. */
  function DetailScreen(loading: bool, error: Option<string>, order: Option<Order>): (s: Screen)
    ensures s == Content <==> !loading && (error.None? || error.value == "") && order.Some?
    ensures s == Nothing <==> !loading && (error.None? || error.value == "") && order.None?
    ensures s.ErrorAlert? ==> error.Some? && s.message == error.value != ""
  {
    if loading then Spinner
    else if error.Some? && error.value != "" then ErrorAlert(error.value)
    else if order.None? then Nothing
    else Content
  }
}
