/**
 The order endpoints of the backend (backend/src/controllers/orderController.js):
 placing an order, which checks and takes stock line item by line item before
 saving the order document, reading one order, and changing an order's status.
 The products and orders collections are maps; a reply is a `Response`.
 */
module OrderController {
  import opened Wrappers
  import opened ProductSchema
  import opened OrderSchema

  /** A line item as the client submits it. */
  datatype LineRequest = LineRequest(id: string, name: string, quantity: int, price: int)

  /** The body of `POST /api/orders`; `items` may be missing. */
  datatype OrderRequest = OrderRequest(
    items: Option<seq<LineRequest>>,
    shipping: Shipping,
    payment: PaymentDetails,
    totalAmount: int)

  /** The reply together with the products collection as the handler leaves it. */
  datatype Placement = Placement(response: Response<Order>, store: Store)

  const NoItemsMessage := "No hay items en la orden"
  const CreateFailedMessage := "Error al crear orden"
  const OrderNotFoundMessage := "Orden no encontrada"
  const UpdateFailedMessage := "Error al actualizar orden"

  function MissingProductMessage(id: string): string {
    "Producto " + id + " no encontrado"
  }

  function OutOfStockMessage(name: string): string {
    "Stock insuficiente para " + name
  }

  /** The total quantity the line items ask of product `id`. */
  function Demand(items: seq<LineRequest>, id: string): int {
    if |items| == 0 then 0
    else (if items[0].id == id then items[0].quantity else 0) + Demand(items[1..], id)
  }

  /** Takes `q` from the stock of product `id`, leaving every other field. */
  function TakeStock(s: Store, id: string, q: int): Store
    requires id in s
  {
    s[id := s[id].(stock := s[id].stock - q)]
  }

  /** The store after every line item's quantity has been taken from the
      stock of the product it names. */
  function Debit(s: Store, items: seq<LineRequest>): (r: Store)
    ensures r.Keys == s.Keys
  {
    map id | id in s :: s[id].(stock := s[id].stock - Demand(items, id))
  }

  /** Line item `k` passes the loop's two checks when the loop reaches it:
      its product exists, and the stock left after items `0..k-1` have been
      taken covers its quantity. */
  predicate PassesAt(s: Store, items: seq<LineRequest>, k: nat)
    requires k < |items|
  {
    && items[k].id in s
    && items[k].quantity <= s[items[k].id].stock - Demand(items[..k], items[k].id)
  }

  /** The reply for a line item that fails the checks. */
  function Refusal(s: Store, it: LineRequest): (r: Response<Order>)
    ensures r.Failure?
    ensures r.code == (if it.id in s then BadRequest else NotFound)
  {
    if it.id !in s then Failure(NotFound, MissingProductMessage(it.id))
    else Failure(BadRequest, OutOfStockMessage(s[it.id].name))
  }

  /** The state of the stock loop: it ran to the end, or it returned at
      item `at` with a reply, leaving the stock taken so far in place. */
  datatype Reservation =
    | Reserved(store: Store)
    | Halted(at: nat, response: Response<Order>, store: Store)

  /** The stock loop, item by item in request order: a missing product
      stops it with 404, a stock below the quantity stops it with 400, and
      otherwise the quantity is taken and saved before the next item. */
  function Reserve(s: Store, items: seq<LineRequest>): (r: Reservation)
    ensures r.store.Keys == s.Keys
    ensures r.Halted? ==> r.response.Failure? && r.response.code in {BadRequest, NotFound}
    decreases |items|
  {
    if |items| == 0 then Reserved(s)
    else
      var it := items[0];
      if it.id !in s || s[it.id].stock < it.quantity then Halted(0, Refusal(s, it), s)
      else
        match Reserve(TakeStock(s, it.id, it.quantity), items[1..])
        case Reserved(t) => Reserved(t)
        case Halted(k, resp, t) => Halted(k + 1, resp, t)
  }

  /** The order items: a position-by-position copy of the request's id,
      name, quantity and price. */
  function Snapshot(items: seq<LineRequest>): (r: seq<OrderItem>)
    ensures |r| == |items|
  {
    seq(|items|, i requires 0 <= i < |items| => OrderItem(items[i].id, items[i].name, items[i].quantity, items[i].price))
  }

  /** `createOrder`, as written: a missing or empty item list is refused
      with 400; then the stock loop; then the order document is built and
      saved, which fails with 500 when the document breaks the schema. */
  function CreateOrder(s: Store, user: string, req: OrderRequest): (r: Placement)
    ensures req.items.None? || req.items.value == [] ==>
              r == Placement(Failure(BadRequest, NoItemsMessage), s)
    ensures r.response.Success? ==> r.response.code == Created && ValidOrder(r.response.value)
    ensures r.response.Failure? ==> r.response.code in {BadRequest, NotFound, ServerError}
  {
    if req.items.None? || |req.items.value| == 0 then
      Placement(Failure(BadRequest, NoItemsMessage), s)
    else
      var items := req.items.value;
      match Reserve(s, items)
      case Halted(_, resp, t) => Placement(resp, t)
      case Reserved(t) =>
        var order := NewOrder(user, Snapshot(items), req.shipping, req.payment, req.totalAmount);
        if ValidOrder(order) then Placement(Success(Created, order), t)
        else Placement(Failure(ServerError, CreateFailedMessage), t)
  }

  // ---------------------------------------------------------------------
  // The stock loop, characterised.

  lemma DebitNothing(s: Store, items: seq<LineRequest>)
    requires |items| == 0
    ensures Debit(s, items) == s
  {
    assert forall id :: id in s ==> Debit(s, items)[id] == s[id];
  }

  lemma DemandPrefixCons(items: seq<LineRequest>, k: nat, id: string)
    requires k < |items|
    ensures Demand(items[..k + 1], id)
            == (if items[0].id == id then items[0].quantity else 0) + Demand(items[1..][..k], id)
  {
    assert items[..k + 1][1..] == items[1..][..k];
  }

  /** Taking the first item's quantity and then debiting a prefix of the
      rest is debiting the longer prefix. */
  lemma DebitShift(s: Store, items: seq<LineRequest>, k: nat)
    requires 0 < |items| && items[0].id in s && k < |items|
    ensures Debit(TakeStock(s, items[0].id, items[0].quantity), items[1..][..k]) == Debit(s, items[..k + 1])
  {
    var s' := TakeStock(s, items[0].id, items[0].quantity);
    forall id | id in s
      ensures Debit(s', items[1..][..k])[id] == Debit(s, items[..k + 1])[id]
    {
      DemandPrefixCons(items, k, id);
    }
  }

  /** The stock loop, stated without reference to its recursion: it runs
      to the end exactly when every item passes its checks, in which case
      the stock of every product falls by the sum of the quantities naming
      it; otherwise it returns at the FIRST failing item, with 404 when the
      product is missing and 400 otherwise, and the stock taken for the
      items before it stays taken. */
  lemma {:induction false} ReserveCharacterised(s: Store, items: seq<LineRequest>)
    ensures ReserveMeets(s, items, Reserve(s, items))
    decreases |items|
  {
    if |items| == 0 {
      DebitNothing(s, items);
    } else {
      var it := items[0];
      if it.id !in s || s[it.id].stock < it.quantity {
        DebitNothing(s, items[..0]);
        assert !PassesAt(s, items, 0);
      } else {
        var s' := TakeStock(s, it.id, it.quantity);
        ReserveCharacterised(s', items[1..]);
        assert PassesAt(s, items, 0);
        if Reserve(s', items[1..]).Reserved? {
          StepReserved(s, items);
        } else {
          StepHalted(s, items);
        }
      }
    }
  }

  /** What `ReserveCharacterised` states of one run `r` of the loop. */
  predicate ReserveMeets(s: Store, items: seq<LineRequest>, r: Reservation) {
    && (r.Reserved? <==> forall k :: 0 <= k < |items| ==> PassesAt(s, items, k))
    && (r.Reserved? ==> r.store == Debit(s, items))
    && (r.Halted? ==>
          && r.at < |items|
          && (forall j :: 0 <= j < r.at ==> PassesAt(s, items, j))
          && !PassesAt(s, items, r.at)
          && r.response == Refusal(s, items[r.at])
          && r.store == Debit(s, items[..r.at]))
  }

  /** Once the first item has passed and been taken, the rest of the items
      pass against the new stock exactly where they passed against the old
      one. */
  lemma PassesShift(s: Store, items: seq<LineRequest>, j: nat)
    requires 0 < |items| && j + 1 < |items| && PassesAt(s, items, 0)
    ensures PassesAt(TakeStock(s, items[0].id, items[0].quantity), items[1..], j) <==> PassesAt(s, items, j + 1)
  {
    DemandPrefixCons(items, j, items[j + 1].id);
  }

  /** The inductive step when the rest of the loop runs to the end. */
  lemma StepReserved(s: Store, items: seq<LineRequest>)
    requires 0 < |items| && PassesAt(s, items, 0)
    requires var s' := TakeStock(s, items[0].id, items[0].quantity);
      Reserve(s', items[1..]).Reserved? && ReserveMeets(s', items[1..], Reserve(s', items[1..]))
    ensures ReserveMeets(s, items, Reserve(s, items))
  {
    var s' := TakeStock(s, items[0].id, items[0].quantity);
    var tail := items[1..];
    assert Reserve(s, items) == Reserved(Reserve(s', tail).store);
    DebitShift(s, items, |tail|);
    assert tail[..|tail|] == tail && items[..|tail| + 1] == items;
    forall k | 0 < k < |items| ensures PassesAt(s, items, k) {
      PassesShift(s, items, k - 1);
    }
  }

  /** The inductive step when the rest of the loop stops early. */
  lemma StepHalted(s: Store, items: seq<LineRequest>)
    requires 0 < |items| && PassesAt(s, items, 0)
    requires var s' := TakeStock(s, items[0].id, items[0].quantity);
      Reserve(s', items[1..]).Halted? && ReserveMeets(s', items[1..], Reserve(s', items[1..]))
    ensures ReserveMeets(s, items, Reserve(s, items))
  {
    var s' := TakeStock(s, items[0].id, items[0].quantity);
    var tail := items[1..];
    var r' := Reserve(s', tail);
    var k := r'.at;
    assert Reserve(s, items) == Halted(k + 1, r'.response, r'.store);
    DebitShift(s, items, k);
    assert tail[k] == items[k + 1];
    assert Refusal(s', tail[k]) == Refusal(s, items[k + 1]);
    PassesShift(s, items, k);
    forall j | 0 < j < k + 1 ensures PassesAt(s, items, j) {
      PassesShift(s, items, j - 1);
    }
  }

  /** Taking stock only after the check keeps every stock non-negative:
      the loop preserves the product schema, whatever the quantities. */
  lemma {:induction false} ReservePreservesSchema(s: Store, items: seq<LineRequest>)
    requires ValidStore(s)
    ensures ValidStore(Reserve(s, items).store)
    decreases |items|
  {
    if |items| > 0 {
      var it := items[0];
      if it.id in s && s[it.id].stock >= it.quantity {
        var s' := TakeStock(s, it.id, it.quantity);
        assert ValidProduct(s'[it.id]);
        ReservePreservesSchema(s', items[1..]);
      }
    }
  }

  // ---------------------------------------------------------------------
  // Properties of createOrder.

  /** On success the order is a snapshot of the request: item by item the
      request's id, name, quantity and price (not the product's price), the
      total exactly as submitted, the default status; and the stock of every
      product has fallen by the sum of the quantities naming it. */
  lemma PlacedOrder(s: Store, user: string, req: OrderRequest)
    requires CreateOrder(s, user, req).response.Success?
    ensures req.items.Some? && |req.items.value| > 0
    ensures var items := req.items.value;
            var r := CreateOrder(s, user, req);
            var o := r.response.value;
      && |o.items| == |items|
      && (forall i :: 0 <= i < |items| ==>
            && o.items[i].product == items[i].id && o.items[i].name == items[i].name
            && o.items[i].quantity == items[i].quantity && o.items[i].price == items[i].price)
      && o.totalAmount == req.totalAmount && o.user == user && o.status == DefaultStatus
      && o.shipping == req.shipping && o.payment == req.payment
      && r.store.Keys == s.Keys
      && (forall id :: id in s ==> r.store[id] == s[id].(stock := s[id].stock - Demand(items, id)))
      && (forall k :: 0 <= k < |items| ==> PassesAt(s, items, k))
  {
    ReserveCharacterised(s, req.items.value);
  }

  /** A refused order names the first line item that fails, and the stock
      taken for the items before it is NOT given back: the handler is not
      all-or-nothing. */
  lemma RefusedOrderKeepsEarlierDebits(s: Store, user: string, req: OrderRequest)
    requires req.items.Some? && |req.items.value| > 0
    requires CreateOrder(s, user, req).response.code in {BadRequest, NotFound}
    ensures var items := req.items.value;
            var r := CreateOrder(s, user, req);
      exists k :: 0 <= k < |items|
        && (forall j :: 0 <= j < k ==> PassesAt(s, items, j))
        && !PassesAt(s, items, k)
        && r.response == Refusal(s, items[k])
        && r.store == Debit(s, items[..k])
  {
    var items := req.items.value;
    ReserveCharacterised(s, items);
    var rs := Reserve(s, items);
    assert rs.Halted?;
    assert rs.at < |items|;
  }

  /** A concrete instance of the partial write: the first item takes one
      unit of product "a", the second asks three units of "b" where one is
      left; the reply is 400 and "a" keeps the lower stock. */
  lemma PartialDebitExample(a: Product, b: Product, user: string, req: OrderRequest)
    requires a.stock == 5 && b.stock == 1
    requires req.items == Some([LineRequest("a", a.name, 1, a.price), LineRequest("b", b.name, 3, b.price)])
    ensures var r := CreateOrder(map["a" := a, "b" := b], user, req);
      r.response == Failure(BadRequest, OutOfStockMessage(b.name)) && r.store["a"].stock == 4
  {
    var s := map["a" := a, "b" := b];
    var s' := TakeStock(s, "a", 1);
    assert Reserve(s', req.items.value[1..]) == Halted(0, Refusal(s', req.items.value[1]), s');
  }

  /** A negative quantity passes the stock check and RAISES the stock; the
      order document then breaks the schema (quantity below 1) and the save
      fails with 500, but the raised stock stays. */
  lemma NegativeQuantityRaisesStock(s: Store, user: string, req: OrderRequest, it: LineRequest)
    requires it.id in s && s[it.id].stock >= 0 && it.quantity < 0
    requires req.items == Some([it])
    ensures var r := CreateOrder(s, user, req);
      r.response == Failure(ServerError, CreateFailedMessage)
      && r.store[it.id].stock == s[it.id].stock - it.quantity > s[it.id].stock
  {
    var s' := TakeStock(s, it.id, it.quantity);
    assert Reserve(s', req.items.value[1..]) == Reserved(s');
    assert !ValidItem(Snapshot([it])[0]);
  }

  /** A quantity equal to the stock is accepted and leaves the stock at 0. */
  lemma ExactStockAccepted(s: Store, it: LineRequest)
    requires it.id in s && s[it.id].stock == it.quantity
    ensures Reserve(s, [it]).Reserved?
    ensures Reserve(s, [it]).store[it.id].stock == 0
  {
    assert Reserve(TakeStock(s, it.id, it.quantity), [it][1..]).Reserved?;
  }

  /** Whatever happens, a schema-valid products collection stays valid; in
      particular no stock goes negative. */
  lemma CreateOrderPreservesSchema(s: Store, user: string, req: OrderRequest)
    requires ValidStore(s)
    ensures ValidStore(CreateOrder(s, user, req).store)
  {
    if req.items.Some? && |req.items.value| > 0 {
      ReservePreservesSchema(s, req.items.value);
    }
  }

  // ---------------------------------------------------------------------
  // The all-or-nothing placement.

  /** The index of the first line item at or after `k` that fails the
      checks, or `|items|` when none does. */
  function FirstFailing(s: Store, items: seq<LineRequest>, k: nat): (r: nat)
    requires k <= |items|
    ensures k <= r <= |items|
    ensures forall j :: k <= j < r ==> PassesAt(s, items, j)
    ensures r < |items| ==> !PassesAt(s, items, r)
    decreases |items| - k
  {
    if k == |items| then k
    else if !PassesAt(s, items, k) then k
    else FirstFailing(s, items, k + 1)
  }

  /** `createOrder` with every check made before anything is written: it
      gives the same replies, but a refused or failed order leaves the
      products collection exactly as it was. */
  function CreateOrderAtomic(s: Store, user: string, req: OrderRequest): (r: Placement)
    ensures r.response.Failure? ==> r.store == s
    ensures r.response.Success? ==> r.response.code == Created && ValidOrder(r.response.value)
  {
    if req.items.None? || |req.items.value| == 0 then
      Placement(Failure(BadRequest, NoItemsMessage), s)
    else
      var items := req.items.value;
      var k := FirstFailing(s, items, 0);
      if k < |items| then Placement(Refusal(s, items[k]), s)
      else
        var order := NewOrder(user, Snapshot(items), req.shipping, req.payment, req.totalAmount);
        if ValidOrder(order) then Placement(Success(Created, order), Debit(s, items))
        else Placement(Failure(ServerError, CreateFailedMessage), s)
  }

  /** The all-or-nothing placement replies exactly as the handler does, and
      when the order is placed both leave the same products collection. */
  lemma AtomicAgreesWithCreateOrder(s: Store, user: string, req: OrderRequest)
    ensures CreateOrderAtomic(s, user, req).response == CreateOrder(s, user, req).response
    ensures CreateOrder(s, user, req).response.Success? ==>
              CreateOrderAtomic(s, user, req).store == CreateOrder(s, user, req).store
  {
    if req.items.Some? && |req.items.value| > 0 {
      var items := req.items.value;
      ReserveCharacterised(s, items);
      var k := FirstFailing(s, items, 0);
      var rs := Reserve(s, items);
      assert rs.Halted? ==> rs.at == k;
    }
  }

  /** Line items of positive quantity never ask a negative total of any
      product. */
  lemma {:induction false} DemandOfPositiveLines(items: seq<LineRequest>, id: string)
    requires forall i :: 0 <= i < |items| ==> items[i].quantity >= 1
    ensures Demand(items, id) >= 0
    decreases |items|
  {
    if |items| > 0 {
      DemandOfPositiveLines(items[1..], id);
    }
  }

  /** In the all-or-nothing placement an order with a quantity below one is
      refused with the products collection untouched, and no placement ever
      raises a stock. */
  lemma AtomicNeverRaisesStock(s: Store, user: string, req: OrderRequest)
    ensures req.items.Some? && (exists i :: 0 <= i < |req.items.value| && req.items.value[i].quantity < 1) ==>
      var r := CreateOrderAtomic(s, user, req);
      r.response.Failure? && r.store == s
    ensures var r := CreateOrderAtomic(s, user, req);
      r.store.Keys == s.Keys && forall id :: id in s ==> r.store[id].stock <= s[id].stock
  {
    var r := CreateOrderAtomic(s, user, req);
    if r.response.Success? {
      var items := req.items.value;
      var snap := Snapshot(items);
      assert r.response.value.items == snap;
      assert forall i :: 0 <= i < |items| ==> snap[i].quantity == items[i].quantity && ValidItem(snap[i]);
      forall id | id in s
        ensures r.store[id].stock <= s[id].stock
      {
        DemandOfPositiveLines(items, id);
      }
    }
  }

  // ---------------------------------------------------------------------
  // Reading and updating orders.

  /** `getOrderById`: the order, or 404 when the id is unknown. */
  function GetOrderById(orders: Orders, id: string): (r: Response<Order>)
    ensures r.Success? <==> id in orders
    ensures r.Success? ==> r.code == Ok && r.value == orders[id]
    ensures r.Failure? ==> r == Failure(NotFound, OrderNotFoundMessage)
  {
    if id in orders then Success(Ok, orders[id]) else Failure(NotFound, OrderNotFoundMessage)
  }

  /** `updateOrderStatus`: 404 for an unknown id; otherwise only `status` is
      replaced, and the save fails with 500 (changing nothing) when the new
      status is outside the enumeration. */
  function UpdateOrderStatus(orders: Orders, id: string, status: string): (r: (Response<Order>, Orders))
    ensures id !in orders ==> r == (Failure(NotFound, OrderNotFoundMessage), orders)
    ensures id in orders && !IsStatus(status) ==> r.0.code == ServerError && r.1 == orders
    ensures r.0.Success? <==> id in orders && IsStatus(status)
    ensures r.0.Success? ==>
      && r.0.value == orders[id].(status := status)
      && r.1.Keys == orders.Keys
      && r.1[id] == orders[id].(status := status)
      && (forall other :: other in orders && other != id ==> r.1[other] == orders[other])
  {
    if id !in orders then (Failure(NotFound, OrderNotFoundMessage), orders)
    else
      var o := orders[id].(status := status);
      if IsStatus(status) then (Success(Ok, o), orders[id := o])
      else (Failure(ServerError, UpdateFailedMessage), orders)
  }

  /** A status change keeps the orders collection schema-valid, whatever
      status is asked for: a status outside the enumeration is never
      stored. */
  lemma UpdateOrderStatusKeepsValid(orders: Orders, id: string, status: string)
    requires forall k :: k in orders ==> ValidOrder(orders[k])
    ensures var r := UpdateOrderStatus(orders, id, status);
      forall k :: k in r.1 ==> ValidOrder(r.1[k])
  {
  }
}
