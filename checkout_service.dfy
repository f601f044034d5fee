/** `CheckoutService`: opening a checkout session for a cart (order first, session
    second) and the transactional order creation that reserves stock and empties the
    cart. */
module CheckoutService {
  import opened Common
  import opened Store
  import opened Stock
  import opened Gateway

  /** One cart line as the client sends it; `productId` is None when it is missing. */
  datatype CheckoutItem = CheckoutItem(productId: Option<int>, name: string, image: string, price: real, quantity: int)

  datatype CheckoutData = CheckoutData(
    items: seq<CheckoutItem>, userId: Option<int>,
    successUrl: Option<string>, cancelUrl: Option<string>,
    shippingStreet: string, shippingCity: string, shippingZip: string, paymentMethod: string)

  datatype Started = Started(sessionId: string, orderId: int)

  const DefaultSuccessUrl := "http://localhost:3000/success"
  const DefaultCancelUrl := "http://localhost:3000/cart"
  const ShippingFee: real := 5.0

  /** `Σ price · quantity`, the `reduce` both operations start with, from the left. */
  function CartTotal(items: seq<CheckoutItem>): real
    decreases |items|
  {
    if items == [] then 0.0 else CartTotal(items[..|items| - 1]) + items[|items| - 1].price * items[|items| - 1].quantity as real
  }

  lemma {:induction false} CartTotalAppend(a: seq<CheckoutItem>, b: seq<CheckoutItem>)
    ensures CartTotal(a + b) == CartTotal(a) + CartTotal(b)
    decreases |b|
  {
    if b == [] {
      assert a + b == a;
    } else {
      assert (a + b)[..|a + b| - 1] == a + b[..|b| - 1];
      CartTotalAppend(a, b[..|b| - 1]);
    }
  }

  /** Lines with non-negative prices and quantities never total less than 0. */
  lemma {:induction false} CartTotalNonNegative(items: seq<CheckoutItem>)
    requires forall i :: 0 <= i < |items| ==> items[i].price >= 0.0 && items[i].quantity >= 0
    ensures CartTotal(items) >= 0.0
    decreases |items|
  {
    if items != [] {
      CartTotalNonNegative(items[..|items| - 1]);
      var last := items[|items| - 1];
      assert last.price * last.quantity as real >= 0.0;
    }
  }

  /** JavaScript truthiness of an optional id. */
  predicate Truthy(id: Option<int>) { id.Some? && id.value != 0 }

  predicate IdsPresent(items: seq<CheckoutItem>)
  {
    forall i :: 0 <= i < |items| ==> items[i].productId.Some?
  }

  /** Every line names an existing product: otherwise the nested item write fails. */
  predicate ItemsExist(items: seq<CheckoutItem>, products: map<int, Product>)
  {
    forall i :: 0 <= i < |items| ==> items[i].productId.Some? && items[i].productId.value in products
  }

  /** `Σ price · quantity` over written order items. */
  function ItemsTotal(items: seq<OrderItem>): real
    decreases |items|
  {
    if items == [] then 0.0 else ItemsTotal(items[..|items| - 1]) + items[|items| - 1].price * items[|items| - 1].quantity as real
  }

  /** Order items that copy the cart lines' products, quantities and prices add up to the
      cart total. */
  lemma {:induction false} CopiedLinesTotal(items: seq<CheckoutItem>, lines: seq<OrderItem>)
    requires IdsPresent(items) && |lines| == |items|
    requires forall i :: 0 <= i < |lines| ==> lines[i] == OrderItem(items[i].productId.value, items[i].quantity, items[i].price)
    ensures ItemsTotal(lines) == CartTotal(items)
    decreases |items|
  {
    if items != [] {
      CopiedLinesTotal(items[..|items| - 1], lines[..|lines| - 1]);
    }
  }

  /** The order items written for the lines: one per line with its product, quantity and
      price, so the stored items add up to the cart total. */
  function OrderLines(items: seq<CheckoutItem>): (r: seq<OrderItem>)
    requires IdsPresent(items)
    ensures |r| == |items|
    ensures forall i :: 0 <= i < |r| ==>
      r[i] == OrderItem(items[i].productId.value, items[i].quantity, items[i].price)
    ensures ItemsTotal(r) == CartTotal(items)
  {
    var r := seq(|items|, i requires 0 <= i < |items| => OrderItem(items[i].productId.value, items[i].quantity, items[i].price));
    CopiedLinesTotal(items, r);
    r
  }

  function OrDefault(url: Option<string>, default: string): string
  {
    match url
    case Some(u) => if u == "" then default else u
    case None => default
  }

  // ------------------------------------------------------------ createCheckoutSession

  /** The order `createCheckoutSession` writes: total = items price = the cart total,
      no tax, no shipping, the client's address and method. */
  function SessionOrder(data: CheckoutData): (o: Order)
    requires IdsPresent(data.items) && data.userId.Some?
    ensures o.totalAmount == o.itemsPrice == CartTotal(data.items) && o.taxPrice == 0.0 && o.shippingPrice == 0.0
    ensures o.items == OrderLines(data.items) && o.status == Pending && !o.isPaid
    ensures o.itemsPrice == ItemsTotal(o.items)
  {
    var total := CartTotal(data.items);
    Order(data.userId, data.shippingStreet, data.shippingCity, data.shippingZip, data.paymentMethod,
          total, 0.0, 0.0, total, Pending, false, None, false, None, None, OrderLines(data.items))
  }

  /** The session request: one line per cart line with its name, image and price in
      cents; the caller's URLs or the localhost defaults; user and order ids as metadata. */
  function SessionFor(data: CheckoutData, orderId: int): (s: SessionRequest)
    requires data.userId.Some?
    ensures |s.lines| == |data.items|
    ensures forall i :: 0 <= i < |s.lines| ==>
      s.lines[i] == SessionLine(data.items[i].name, [data.items[i].image], data.items[i].price * 100.0, data.items[i].quantity)
    ensures s.metadata == Metadata(IntToString(data.userId.value), orderId)
    ensures data.successUrl.Some? && data.successUrl.value != "" ==> s.successUrl == data.successUrl.value
    ensures data.successUrl.None? || data.successUrl == Some("") ==> s.successUrl == DefaultSuccessUrl
    ensures data.cancelUrl.Some? && data.cancelUrl.value != "" ==> s.cancelUrl == data.cancelUrl.value
    ensures data.cancelUrl.None? || data.cancelUrl == Some("") ==> s.cancelUrl == DefaultCancelUrl
  {
    var lines := seq(|data.items|, i requires 0 <= i < |data.items| =>
      SessionLine(data.items[i].name, [data.items[i].image], data.items[i].price * 100.0, data.items[i].quantity));
    SessionRequest(lines, OrDefault(data.successUrl, DefaultSuccessUrl), OrDefault(data.cancelUrl, DefaultCancelUrl),
                   Metadata(IntToString(data.userId.value), orderId))
  }

  /** `createCheckoutSession`. An empty cart or a missing/zero user id is refused before
      anything is written. The order is then written (a user or product that does not
      exist makes the write fail), and only then is the gateway called: a gateway failure
      leaves the order in place. A missing or zero product id is caught by the write, so
      it surfaces as InternalServerError and the later `Invalid productId` BadRequest can
      never be raised. */
  method CreateCheckoutSession(db: Db, data: CheckoutData, createSession: SessionRequest -> Option<string>)
    returns (r: Result<Started>)
    requires db.Valid()
    modifies db`orders, db`nextOrderId
    ensures db.Valid()
    ensures data.items == [] ==> r == Err(Error(BadRequest, NoCheckoutItems))
    ensures data.items != [] && !Truthy(data.userId) ==> r == Err(Error(BadRequest, InvalidUserId))
    ensures data.items != [] && Truthy(data.userId)
            && (exists i :: 0 <= i < |data.items| && (data.items[i].productId.None? || data.items[i].productId == Some(0))) ==>
      r == Err(Error(InternalServerError, OrderWriteFailed))
    ensures var written := data.items != [] && Truthy(data.userId) && data.userId.value in db.users
                           && ItemsExist(data.items, db.products);
      && (!written ==> r.Err? && db.orders == old(db.orders) && db.nextOrderId == old(db.nextOrderId))
      && (written ==>
            && IdsPresent(data.items)
            && db.orders == old(db.orders)[old(db.nextOrderId) := SessionOrder(data)]
            && db.nextOrderId == old(db.nextOrderId) + 1
            && r == match createSession(SessionFor(data, old(db.nextOrderId)))
                    case None => Err(Error(InternalServerError, GatewayFailed))
                    case Some(id) => Ok(Started(id, old(db.nextOrderId))))
  {
    if data.items == [] {
      return Err(Error(BadRequest, NoCheckoutItems));
    }
    if !Truthy(data.userId) {
      return Err(Error(BadRequest, InvalidUserId));
    }
    if data.userId.value !in db.users || !ItemsExist(data.items, db.products) {
      return Err(Error(InternalServerError, OrderWriteFailed));
    }
    var id := db.nextOrderId;
    db.orders := db.orders[id := SessionOrder(data)];
    db.nextOrderId := id + 1;
    var session := createSession(SessionFor(data, id));
    if session.None? {
      return Err(Error(InternalServerError, GatewayFailed));
    }
    r := Ok(Started(session.value, id));
  }

  // ----------------------------------------------------------------------- createOrder

  /** The order `createOrder` writes: 20% tax, a fixed shipping fee of 5, method
      `stripe`, and an empty address (the stored address is a plain string, so its
      `street`/`city`/`zip` are undefined). */
  function CheckoutOrder(data: CheckoutData): (o: Order)
    requires IdsPresent(data.items)
    ensures o.itemsPrice == CartTotal(data.items) && o.taxPrice * 5.0 == o.itemsPrice && o.shippingPrice == ShippingFee
    ensures o.totalAmount == o.itemsPrice * 1.2 + ShippingFee
    ensures o.status == Pending && !o.isPaid && o.items == OrderLines(data.items)
    ensures o.itemsPrice == ItemsTotal(o.items)
    ensures o.userId == if Truthy(data.userId) then data.userId else None
  {
    var items := CartTotal(data.items);
    var tax := items * 0.2;
    Order(if Truthy(data.userId) then data.userId else None, "", "", "", "stripe",
          items, tax, ShippingFee, items + tax + ShippingFee, Pending, false, None, false, None, None,
          OrderLines(data.items))
  }

  /** The payment written with it: the order's total, `pending`, carrying the session id. */
  function CheckoutPayment(orderId: int, total: real, sessionId: string): Payment
  {
    Payment(orderId, total, "pending", "stripe", None, Some(sessionId))
  }

  /** `createOrder`, one transaction: the user (when an id is given) must exist; every
      product id must be present; the order and its pending payment are written; each
      line in turn must be servable from the stock earlier lines left, and is taken off
      it; the user's cart lines are deleted (the cart row stays, and a missing cart makes
      the update throw). Any error leaves every table as it was; BadRequest and NotFound
      reach the caller unchanged and everything else becomes InternalServerError. */
  method CreateOrder(db: Db, data: CheckoutData, sessionId: string) returns (r: Result<int>)
    requires db.Valid()
    modifies db`orders, db`nextOrderId, db`payments, db`nextPaymentId, db`inventory, db`carts
    ensures db.Valid()
    ensures Truthy(data.userId) && data.userId.value !in db.users ==> r == Err(Error(NotFound, UserNotFound))
    ensures r.Err? ==> r.error.status in {BadRequest, NotFound, InternalServerError}
    ensures r.Err? ==>
      && db.orders == old(db.orders) && db.nextOrderId == old(db.nextOrderId)
      && db.payments == old(db.payments) && db.nextPaymentId == old(db.nextPaymentId)
      && db.inventory == old(db.inventory) && db.carts == old(db.carts)
    ensures r.Ok? <==>
      && (Truthy(data.userId) ==> data.userId.value in db.users && data.userId.value in old(db.carts))
      && ItemsExist(data.items, db.products)
      && Reserve(OrderLines(data.items), db.products, old(db.inventory)).Ok?
    ensures r.Ok? ==>
      && IdsPresent(data.items)
      && r.value == old(db.nextOrderId)
      && db.orders == old(db.orders)[r.value := CheckoutOrder(data)]
      && db.payments == old(db.payments)[old(db.nextPaymentId) := CheckoutPayment(r.value, CheckoutOrder(data).totalAmount, sessionId)]
      && db.inventory == Reserve(OrderLines(data.items), db.products, old(db.inventory)).value
      && db.carts == (if Truthy(data.userId) then old(db.carts)[data.userId.value := []] else old(db.carts))
      && db.nextOrderId == old(db.nextOrderId) + 1 && db.nextPaymentId == old(db.nextPaymentId) + 1
  {
    if Truthy(data.userId) && data.userId.value !in db.users {
      return Err(Error(NotFound, UserNotFound));
    }
    if !IdsPresent(data.items) {
      return Err(Error(BadRequest, ProductIdNotANumber));
    }
    if !ItemsExist(data.items, db.products) {
      return Err(Error(InternalServerError, CheckoutFailed(OrderWriteFailed)));
    }
    var order := CheckoutOrder(data);
    var orderId, paymentId := db.nextOrderId, db.nextPaymentId;
    var lines := OrderLines(data.items);
    var reserved := ReserveLoop(lines, db.products, db.inventory);
    if reserved.Err? {
      ReserveMeaning(lines, db.products, db.inventory);
      return Err(reserved.error);
    }
    var carts := db.carts;
    if Truthy(data.userId) {
      if data.userId.value !in carts {
        return Err(Error(InternalServerError, CheckoutFailed(CartNotFound)));
      }
      carts := carts[data.userId.value := []];
    }
    Commit(db, order, CheckoutPayment(orderId, order.totalAmount, sessionId), reserved.value, carts);
    r := Ok(orderId);
  }

  /** The commit of the transaction: the order and its payment under the next ids, and
      the new inventory and carts. */
  method Commit(db: Db, order: Order, payment: Payment, inventory: map<int, int>, carts: map<int, seq<CartLine>>)
    requires db.Valid()
    requires payment.orderId == db.nextOrderId
    requires forall u :: u in carts ==> DistinctProducts(carts[u])
    modifies db`orders, db`nextOrderId, db`payments, db`nextPaymentId, db`inventory, db`carts
    ensures db.Valid()
    ensures db.orders == old(db.orders)[old(db.nextOrderId) := order] && db.nextOrderId == old(db.nextOrderId) + 1
    ensures db.payments == old(db.payments)[old(db.nextPaymentId) := payment] && db.nextPaymentId == old(db.nextPaymentId) + 1
    ensures db.inventory == inventory && db.carts == carts
  {
    db.orders := db.orders[db.nextOrderId := order];
    db.payments := db.payments[db.nextPaymentId := payment];
    db.nextOrderId, db.nextPaymentId := db.nextOrderId + 1, db.nextPaymentId + 1;
    db.inventory := inventory;
    db.carts := carts;
  }
}
