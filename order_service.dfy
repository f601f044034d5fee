/** `OrdersService`: placing a client-priced order, paying it (cash on delivery or
    through the gateway), delivering and deleting it, and the paged order lists. */
module OrderService {
  import opened Common
  import opened Store
  import opened Stock
  import opened OrderPricing
  import opened Gateway
  import Paging

  /** What `createOrder` returns: the new order's id and the gateway session id. */
  datatype Placed = Placed(orderId: int, sessionId: string)

  /** Every line names an existing product (the nested `connect` of each order item). */
  predicate ProductsExist(items: seq<LineRequest>, products: map<int, Product>)
  {
    forall i :: 0 <= i < |items| ==> items[i].productId in products
  }

  /** The row `createOrderInDatabase` writes for an accepted request. */
  function NewOrder(userId: int, req: OrderRequest): (o: Order)
    requires PricesPresent(req.items) && LinesAcceptedOf(req)
    ensures |o.items| == |req.items|
    ensures forall i :: 0 <= i < |o.items| ==>
      o.items[i].productId == req.items[i].productId && o.items[i].quantity as real == req.items[i].quantity
      && o.items[i].quantity > 0 && o.items[i].price == req.items[i].price.value
    ensures o.status == Pending && !o.isPaid && !o.isDelivered && o.userId == Some(userId)
    ensures o.paidAt.None? && o.deliveredAt.None? && o.paymentResult.None?
    ensures o.shippingStreet == req.shippingStreet && o.shippingCity == req.shippingCity
            && o.shippingZip == req.shippingZip && o.paymentMethod == req.paymentMethod
    ensures o.itemsPrice == req.itemsPrice && o.taxPrice == req.taxPrice
            && o.shippingPrice == req.shippingPrice.GetOr(0.0) && o.totalAmount == req.totalAmount
    ensures PricesMatch(req) ==> o.itemsPrice == Subtotal(req.items)
    ensures PricesMatch(req) ==> o.totalAmount == o.itemsPrice + o.taxPrice + o.shippingPrice && o.taxPrice * 5.0 == o.itemsPrice
  {
    var items := seq(|req.items|, i requires 0 <= i < |req.items| =>
      OrderItem(req.items[i].productId, req.items[i].quantity.Floor, req.items[i].price.value));
    Order(Some(userId), req.shippingStreet, req.shippingCity, req.shippingZip, req.paymentMethod,
          req.itemsPrice, req.taxPrice, req.shippingPrice.GetOr(0.0), req.totalAmount,
          Pending, false, None, false, None, None, items)
  }

  /** The session `createStripeSession` requests: one line per order line, named after
      the product id, priced at 100 times the unit price; no metadata. */
  function SessionForOrder(req: OrderRequest, baseUrl: string): (s: SessionRequest)
    requires PricesPresent(req.items) && LinesAcceptedOf(req)
    ensures |s.lines| == |req.items| && s.metadata == NoMetadata
    ensures forall i :: 0 <= i < |s.lines| ==>
      s.lines[i].unitAmount == 100.0 * req.items[i].price.value && s.lines[i].quantity as real == req.items[i].quantity
    ensures forall i :: 0 <= i < |s.lines| ==> s.lines[i].name == "Produit " + IntToString(req.items[i].productId)
    ensures s.successUrl == baseUrl + "/success?session_id={CHECKOUT_SESSION_ID}" && s.cancelUrl == baseUrl + "/cart"
  {
    var lines := seq(|req.items|, i requires 0 <= i < |req.items| =>
      SessionLine("Produit " + IntToString(req.items[i].productId), [],
                  req.items[i].price.value * 100.0, req.items[i].quantity.Floor));
    SessionRequest(lines, baseUrl + "/success?session_id={CHECKOUT_SESSION_ID}", baseUrl + "/cart", NoMetadata)
  }

  /** `createOrder`. The user must exist; the request must pass the pre-check; the order
      is written in one transaction (an item whose product is gone makes it throw, and
      nothing is written); only then is the session opened, so a missing `FRONTEND_URL`,
      a failing gateway or an empty session id all leave the new order in place. */
  method CreateOrder(db: Db, userId: int, req: OrderRequest, frontendUrl: string,
                     createSession: SessionRequest -> Option<string>) returns (r: Result<Placed>)
    requires db.Valid()
    modifies db`orders, db`nextOrderId
    ensures db.Valid()
    ensures userId !in db.users ==> r == Err(Error(NotFound, UserNotFound))
    ensures userId in db.users && CheckOrder(req, db.inventory).Fail? ==> r == Err(CheckOrder(req, db.inventory).error)
    ensures userId in db.users && CheckOrder(req, db.inventory) == Pass && !ProductsExist(req.items, db.products) ==>
      r == Err(Error(InternalServerError, OrderWriteFailed))
    ensures var written := userId in db.users && CheckOrder(req, db.inventory) == Pass && ProductsExist(req.items, db.products);
      && (!written ==> r.Err? && db.orders == old(db.orders) && db.nextOrderId == old(db.nextOrderId))
      && (written ==>
            && PricesPresent(req.items) && LinesAcceptedOf(req)
            && db.orders == old(db.orders)[old(db.nextOrderId) := NewOrder(userId, req)]
            && db.nextOrderId == old(db.nextOrderId) + 1
            && r == SessionOutcome(old(db.nextOrderId), req, frontendUrl, createSession))
  {
    if userId !in db.users {
      return Err(Error(NotFound, UserNotFound));
    }
    var check := CheckOrder(req, db.inventory);
    if check.Fail? {
      return Err(check.error);
    }
    if exists i :: 0 <= i < |req.items| && req.items[i].productId !in db.products {
      return Err(Error(InternalServerError, OrderWriteFailed));
    }
    CheckOrderMeaning(req, db.inventory);
    var id := InsertOrder(db, NewOrder(userId, req));
    r := SessionOutcome(id, req, frontendUrl, createSession);
  }

  /** What `createOrder` reports once the order row is written: no frontend URL, a failed
      gateway call or a session without id are InternalServerErrors (the row stays). */
  function SessionOutcome(orderId: int, req: OrderRequest, frontendUrl: string,
                          createSession: SessionRequest -> Option<string>): (r: Result<Placed>)
    requires PricesPresent(req.items) && LinesAcceptedOf(req)
    ensures r.Ok? <==> frontendUrl != "" && createSession(SessionForOrder(req, frontendUrl)).GetOr("") != ""
    ensures r.Ok? ==> r.value == Placed(orderId, createSession(SessionForOrder(req, frontendUrl)).value)
    ensures r.Err? ==> r.error.status == InternalServerError
  {
    if frontendUrl == "" then Err(Error(InternalServerError, FrontendUrlMissing))
    else match createSession(SessionForOrder(req, frontendUrl))
      case None => Err(Error(InternalServerError, GatewayFailed))
      case Some(id) => if id == "" then Err(Error(InternalServerError, SessionIdMissing)) else Ok(Placed(orderId, id))
  }

  /** Writes an order row under the next id. */
  method InsertOrder(db: Db, o: Order) returns (id: int)
    requires db.Valid()
    modifies db`orders, db`nextOrderId
    ensures db.Valid()
    ensures id == old(db.nextOrderId) && db.orders == old(db.orders)[id := o] && db.nextOrderId == id + 1
  {
    id := db.nextOrderId;
    db.orders := db.orders[id := o];
    db.nextOrderId := id + 1;
  }

  predicate LinesAcceptedOf(req: OrderRequest)
  {
    forall i :: 0 <= i < |req.items| ==> LineAccepted(req.items[i])
  }

  /** The order once `updateOrderToPaid` has marked it: paid at `now`, carrying the given
      receipt (or none), everything else as it was. */
  function MarkedPaid(o: Order, receipt: Option<Receipt>, now: int): Order
  {
    o.(isPaid := true, paidAt := Some(now), paymentResult := receipt)
  }

  /** `updateOrderToPaid`. A missing order is NotFound, a paid one BadRequest. Otherwise
      one transaction takes each line's quantity off its product's row, without any stock
      check, and marks the order paid; a product without an inventory row rolls it all
      back. The receipt e-mail is sent after the commit: if it fails the caller gets an
      InternalServerError although the order stays paid. */
  method UpdateOrderToPaid(db: Db, orderId: int, receipt: Option<Receipt>, now: int, mailSent: bool)
    returns (r: Result<Order>)
    requires db.Valid()
    modifies db`orders, db`inventory
    ensures db.Valid()
    ensures orderId !in old(db.orders) ==> r == Err(Error(NotFound, OrderNotFound))
    ensures orderId in old(db.orders) && old(db.orders)[orderId].isPaid ==> r == Err(Error(BadRequest, AlreadyPaid))
    ensures orderId in old(db.orders) && !old(db.orders)[orderId].isPaid && !AllStocked(old(db.orders)[orderId].items, old(db.inventory)) ==>
      r == Err(Error(InternalServerError, OrderUpdateFailed))
    ensures var committed := orderId in old(db.orders) && !old(db.orders)[orderId].isPaid
                             && AllStocked(old(db.orders)[orderId].items, old(db.inventory));
      && (!committed ==> r.Err? && db.orders == old(db.orders) && db.inventory == old(db.inventory))
      && (committed ==>
            var o := old(db.orders)[orderId];
            && db.orders == old(db.orders)[orderId := MarkedPaid(o, receipt, now)]
            && db.inventory.Keys == old(db.inventory).Keys
            && (forall p :: p in old(db.inventory) ==> db.inventory[p] == old(db.inventory)[p] - Demand(o.items, p))
            && r == if mailSent then Ok(MarkedPaid(o, receipt, now)) else Err(Error(InternalServerError, OrderUpdateFailed)))
  {
    if orderId !in db.orders {
      return Err(Error(NotFound, OrderNotFound));
    }
    var o := db.orders[orderId];
    if o.isPaid {
      return Err(Error(BadRequest, AlreadyPaid));
    }
    DecrementMeaning(o.items, db.inventory);
    var inv := DecrementLoop(o.items, db.inventory);
    if inv.None? {
      return Err(Error(InternalServerError, OrderUpdateFailed));
    }
    db.inventory := inv.value;
    db.orders := db.orders[orderId := MarkedPaid(o, receipt, now)];
    if !mailSent {
      return Err(Error(InternalServerError, OrderUpdateFailed));
    }
    r := Ok(MarkedPaid(o, receipt, now));
  }

  /** `updateOrderToPaidByCOD`: `updateOrderToPaid` without a receipt, its outcome
      reported in-band. */
  method UpdateOrderToPaidByCod(db: Db, orderId: int, now: int, mailSent: bool)
    returns (success: bool, order: Option<Order>)
    requires db.Valid()
    modifies db`orders, db`inventory
    ensures db.Valid()
    ensures var committed := orderId in old(db.orders) && !old(db.orders)[orderId].isPaid
                             && AllStocked(old(db.orders)[orderId].items, old(db.inventory));
      && (success <==> committed && mailSent)
      && (!committed ==> db.orders == old(db.orders) && db.inventory == old(db.inventory))
      && (committed ==>
            var o := old(db.orders)[orderId];
            && db.orders == old(db.orders)[orderId := MarkedPaid(o, None, now)]
            && db.inventory.Keys == old(db.inventory).Keys
            && (forall p :: p in old(db.inventory) ==> db.inventory[p] == old(db.inventory)[p] - Demand(o.items, p)))
    ensures success ==> order == Some(MarkedPaid(old(db.orders)[orderId], None, now))
    ensures !success ==> order.None?
  {
    var r := UpdateOrderToPaid(db, orderId, None, now, mailSent);
    success := r.Ok?;
    order := if r.Ok? then Some(r.value) else None;
  }

  /** The order once `approveStripeOrder` has recorded the gateway's report. */
  function Approved(o: Order, s: Session, now: int): Order
  {
    var email := match s.customerEmail case Some(e) => e case None => "";
    o.(isPaid := true, paidAt := Some(now),
       paymentResult := Some(Receipt(s.id, s.paymentStatus, email, s.amountTotal as real / 100.0)))
  }

  /** `approveStripeOrder`: the order is marked paid exactly when it exists, the session
      lookup answers and reports `paid`. It does not look at `isPaid` and leaves stock
      alone (its frame does not include the inventory). Failures are reported in-band. */
  method ApproveStripeOrder(db: Db, orderId: int, sessionId: string, now: int,
                            retrieveSession: string -> Option<Session>) returns (success: bool)
    requires db.Valid()
    modifies db`orders
    ensures db.Valid()
    ensures success <==> orderId in old(db.orders) && retrieveSession(sessionId).Some?
                         && retrieveSession(sessionId).value.paymentStatus == "paid"
    ensures success ==> db.orders == old(db.orders)[orderId := Approved(old(db.orders)[orderId], retrieveSession(sessionId).value, now)]
    ensures !success ==> db.orders == old(db.orders)
  {
    if orderId !in db.orders {
      return false;
    }
    var session := retrieveSession(sessionId);
    if session.None? || session.value.paymentStatus != "paid" {
      return false;
    }
    db.orders := db.orders[orderId := Approved(db.orders[orderId], session.value, now)];
    success := true;
  }

  /** `deliverOrder`: only a paid order can be delivered; an earlier delivery is not
      checked (the date is overwritten); every failure is wrapped as InternalServerError. */
  method DeliverOrder(db: Db, orderId: int, now: int) returns (r: Result<()>)
    requires db.Valid()
    modifies db`orders
    ensures db.Valid()
    ensures orderId !in old(db.orders) ==> r == Err(Error(InternalServerError, DeliveryFailed(OrderNotFound)))
    ensures orderId in old(db.orders) && !old(db.orders)[orderId].isPaid ==>
      r == Err(Error(InternalServerError, DeliveryFailed(NotPaid)))
    ensures r.Err? ==> r.error.status == InternalServerError && db.orders == old(db.orders)
    ensures r.Ok? <==> orderId in old(db.orders) && old(db.orders)[orderId].isPaid
    ensures r.Ok? ==> db.orders == old(db.orders)[orderId := old(db.orders)[orderId].(isDelivered := true, deliveredAt := Some(now))]
  {
    if orderId !in db.orders {
      return Err(Error(InternalServerError, DeliveryFailed(OrderNotFound)));
    }
    if !db.orders[orderId].isPaid {
      return Err(Error(InternalServerError, DeliveryFailed(NotPaid)));
    }
    db.orders := db.orders[orderId := db.orders[orderId].(isDelivered := true, deliveredAt := Some(now))];
    r := Ok(());
  }

  /** `deleteOrder`: removes the order whatever its state; a missing one is reported in-band. */
  method DeleteOrder(db: Db, orderId: int) returns (success: bool)
    requires db.Valid()
    modifies db`orders
    ensures db.Valid()
    ensures success <==> orderId in old(db.orders)
    ensures db.orders == old(db.orders) - {orderId}
  {
    if orderId !in db.orders {
      return false;
    }
    db.orders := db.orders - {orderId};
    success := true;
  }

  // ------------------------------------------------------------------------- lists

  /** One page of a list and how many pages the whole list has. */
  datatype Listing<T> = Listing(data: seq<T>, totalPages: nat)

  /** One order row as the lists return it: its id and its columns. */
  datatype OrderRow = OrderRow(id: int, order: Order)

  /** The ids of the user's orders. */
  ghost function UserOrderIds(orders: map<int, Order>, userId: int): set<int>
  {
    set id | id in orders && orders[id].userId == Some(userId)
  }

  /** The ids below `n` of the user's orders, newest first (`orderBy createdAt desc`, and
      ids follow creation): each of them once, in strictly decreasing order. */
  function MineNewestFirst(orders: map<int, Order>, userId: int, n: int): (r: seq<int>)
    ensures forall id :: id in r <==> 1 <= id < n && id in orders && orders[id].userId == Some(userId)
    ensures forall i, j :: 0 <= i < j < |r| ==> r[i] > r[j]
    decreases n
  {
    if n <= 1 then []
    else
      var rest := MineNewestFirst(orders, userId, n - 1);
      assert forall j :: 0 <= j < |rest| ==> rest[j] in rest;
      if n - 1 in orders && orders[n - 1].userId == Some(userId) then [n - 1] + rest else rest
  }

  /** The ids below `n` of all orders, oldest first: each of them once, strictly increasing. */
  function IdsInOrder(orders: map<int, Order>, n: int): (r: seq<int>)
    ensures forall id :: id in r <==> 1 <= id < n && id in orders
    ensures forall i, j :: 0 <= i < j < |r| ==> r[i] < r[j]
    decreases n
  {
    if n <= 1 then []
    else
      var rest := IdsInOrder(orders, n - 1);
      assert forall j :: 0 <= j < |rest| ==> rest[j] in rest;
      if n - 1 in orders then rest + [n - 1] else rest
  }

  /** A sequence without repetitions has as many elements as it has distinct ones. */
  lemma {:induction false} DistinctCount(s: seq<int>)
    requires forall i, j :: 0 <= i < j < |s| ==> s[i] != s[j]
    ensures |(set x | x in s)| == |s|
    decreases |s|
  {
    if s != [] {
      DistinctCount(s[1..]);
      assert forall x :: x in s <==> x == s[0] || x in s[1..];
      assert (set x | x in s) == {s[0]} + (set x | x in s[1..]);
    }
  }

  /** Over a table whose ids lie below `n`, the listing holds every order of the user:
      its length is their `count`. */
  lemma MineCount(orders: map<int, Order>, userId: int, n: int)
    requires KeysBelow(orders, n)
    ensures |MineNewestFirst(orders, userId, n)| == |UserOrderIds(orders, userId)|
  {
    var r := MineNewestFirst(orders, userId, n);
    DistinctCount(r);
    assert (set x | x in r) == UserOrderIds(orders, userId);
  }

  /** Over a table whose ids lie below `n`, the listing holds every order: its length is
      the table's `count`. */
  lemma AllCount(orders: map<int, Order>, n: int)
    requires KeysBelow(orders, n)
    ensures |IdsInOrder(orders, n)| == |orders|
  {
    var r := IdsInOrder(orders, n);
    DistinctCount(r);
    assert (set x | x in r) == orders.Keys;
  }

  /** The rows of the listed ids; without `withItems` (a query with no `include`) the
      order lines are not loaded and each row carries none. */
  function RowsOf(orders: map<int, Order>, ids: seq<int>, withItems: bool): seq<OrderRow>
    requires forall i :: 0 <= i < |ids| ==> ids[i] in orders
  {
    seq(|ids|, i requires 0 <= i < |ids| =>
      OrderRow(ids[i], if withItems then orders[ids[i]] else orders[ids[i]].(items := [])))
  }

  /** `getMyOrders`: the requested page of the user's orders, newest first, and
      `Math.ceil(count / limit)` over all of them. The query includes no relation, so
      the rows come without their order lines. */
  function GetMyOrders(db: Db, userId: int, page: int, limit: int): (r: Listing<OrderRow>)
    reads db
    requires db.Valid() && page >= 1 && limit >= 1
    ensures r.data == RowsOf(db.orders, Paging.Page(MineNewestFirst(db.orders, userId, db.nextOrderId), page, limit), false)
    ensures r.totalPages == Paging.TotalPages(|UserOrderIds(db.orders, userId)|, limit)
    ensures forall i :: 0 <= i < |r.data| ==>
      r.data[i].id in db.orders && r.data[i].order == db.orders[r.data[i].id].(items := [])
      && r.data[i].order.userId == Some(userId)
    ensures forall i, j :: 0 <= i < j < |r.data| ==> r.data[i].id > r.data[j].id
    ensures |r.data| <= limit
    ensures r.data != [] <==> page <= r.totalPages
  {
    var mine := MineNewestFirst(db.orders, userId, db.nextOrderId);
    MineCount(db.orders, userId, db.nextOrderId);
    Paging.PageNonEmptyIff(mine, page, limit);
    var shown := Paging.Page(mine, page, limit);
    Listing(RowsOf(db.orders, shown, false), Paging.TotalPages(|mine|, limit))
  }

  /** `getAllOrders`: page 1 and 10 rows unless given, over the whole table, and
      `Math.ceil(count / limit)`. The query has no `orderBy`; the rows are taken in id order. */
  function GetAllOrders(db: Db, page: Option<int>, limit: Option<int>): (r: Listing<OrderRow>)
    reads db
    requires db.Valid() && page.GetOr(1) >= 1 && limit.GetOr(10) >= 1
    ensures r.data == RowsOf(db.orders, Paging.Page(IdsInOrder(db.orders, db.nextOrderId), page.GetOr(1), limit.GetOr(10)), true)
    ensures r.totalPages == Paging.TotalPages(|db.orders|, limit.GetOr(10))
    ensures forall i :: 0 <= i < |r.data| ==> r.data[i].id in db.orders && r.data[i].order == db.orders[r.data[i].id]
    ensures forall i, j :: 0 <= i < j < |r.data| ==> r.data[i].id < r.data[j].id
    ensures |r.data| <= limit.GetOr(10)
    ensures r.data != [] <==> page.GetOr(1) <= r.totalPages
    ensures page.None? && limit.None? ==> |r.data| == if |db.orders| < 10 then |db.orders| else 10
  {
    var p, l := page.GetOr(1), limit.GetOr(10);
    var all := IdsInOrder(db.orders, db.nextOrderId);
    AllCount(db.orders, db.nextOrderId);
    Paging.PageNonEmptyIff(all, p, l);
    var shown := Paging.Page(all, p, l);
    Listing(RowsOf(db.orders, shown, true), Paging.TotalPages(|all|, l))
  }
}
