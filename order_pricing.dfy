/** The checks `OrdersService.createOrder` runs on a client-supplied order before
    writing it: field validation, product/stock validation, and an exact decimal
    recomputation of the three amounts the client claims. Money is exact (`real`),
    as decimal.js computes it. */
module OrderPricing {
  import opened Common

  /** One requested line; `price` is None when the client sent null/undefined.
      The quantity is a JSON number, so it may be fractional. */
  datatype LineRequest = LineRequest(productId: int, quantity: real, price: Option<real>)

  /** The body of `POST /orders`; an empty string stands for an absent or empty field. */
  datatype OrderRequest = OrderRequest(
    shippingStreet: string, shippingCity: string, shippingZip: string,
    paymentMethod: string,
    items: seq<LineRequest>,
    itemsPrice: real, taxPrice: real, shippingPrice: Option<real>, totalAmount: real)

  /** The per-line quantity cap of `validateProductsAndStock`. */
  const MaxQuantity: real := 50.0

  /** The tax rate of `calculatePrices`. */
  const TaxRate: real := 0.2

  // ---------------------------------------------------------------- validateOrderData

  /** What an accepted line looks like: a truthy product id, a price that is present and
      not negative (0 is allowed), a positive whole quantity. */
  predicate LineAccepted(item: LineRequest)
  {
    item.productId != 0 && item.price.Some? && item.price.value >= 0.0
    && item.quantity > 0.0 && IsInteger(item.quantity)
  }

  /** The body of the `forEach` in `validateOrderData` for the line at `index`. */
  function CheckLine(item: LineRequest, index: nat): (r: Outcome)
    ensures r == Pass <==> LineAccepted(item)
    ensures r.Fail? ==> r.error.status == BadRequest
    ensures (item.productId == 0 || item.quantity == 0.0 || item.price.None?) ==> r == Fail(Error(BadRequest, IncompleteItem(index)))
  {
    if item.productId == 0 || item.quantity == 0.0 || item.price.None? then
      Fail(Error(BadRequest, IncompleteItem(index)))
    else if item.price.value < 0.0 then
      Fail(Error(BadRequest, NegativePrice))
    else if item.quantity <= 0.0 || !IsInteger(item.quantity) then
      Fail(Error(BadRequest, QuantityNotPositiveInteger))
    else Pass
  }

  /** The `forEach` from line `from` on: the first line that fails decides the error. */
  function CheckLines(items: seq<LineRequest>, from: nat): (r: Outcome)
    requires from <= |items|
    ensures r == Pass <==> forall i :: from <= i < |items| ==> LineAccepted(items[i])
    ensures r.Fail? ==> exists k :: from <= k < |items| && CheckLine(items[k], k) == r
                                    && forall i :: from <= i < k ==> LineAccepted(items[i])
    decreases |items| - from
  {
    if from == |items| then Pass
    else match CheckLine(items[from], from)
      case Fail(e) => Fail(e)
      case Pass => CheckLines(items, from + 1)
  }

  predicate AddressComplete(req: OrderRequest)
  {
    req.shippingStreet != "" && req.shippingCity != "" && req.shippingZip != ""
  }

  /** `validateOrderData`: address, then payment method, then a non-empty item list,
      then each line in order. */
  function ValidateOrderData(req: OrderRequest): (r: Outcome)
    ensures r == Pass <==>
      AddressComplete(req) && req.paymentMethod != "" && |req.items| > 0
      && forall i :: 0 <= i < |req.items| ==> LineAccepted(req.items[i])
    ensures r.Fail? ==> r.error.status == BadRequest
  {
    if !AddressComplete(req) then Fail(Error(BadRequest, IncompleteAddress))
    else if req.paymentMethod == "" then Fail(Error(BadRequest, MissingPaymentMethod))
    else if |req.items| == 0 then Fail(Error(BadRequest, EmptyCart))
    else CheckLines(req.items, 0)
  }

  /** The first failure wins: an incomplete address is reported whatever else is wrong,
      a missing payment method whenever the address is complete, an empty list next,
      and otherwise the error of the first line that is not accepted. */
  lemma ValidationOrder(req: OrderRequest)
    ensures !AddressComplete(req) ==> ValidateOrderData(req) == Fail(Error(BadRequest, IncompleteAddress))
    ensures AddressComplete(req) && req.paymentMethod == "" ==>
      ValidateOrderData(req) == Fail(Error(BadRequest, MissingPaymentMethod))
    ensures AddressComplete(req) && req.paymentMethod != "" && req.items == [] ==>
      ValidateOrderData(req) == Fail(Error(BadRequest, EmptyCart))
    ensures AddressComplete(req) && req.paymentMethod != "" && ValidateOrderData(req).Fail?
            && req.items != [] ==>
      exists k :: 0 <= k < |req.items| && ValidateOrderData(req) == CheckLine(req.items[k], k)
                  && !LineAccepted(req.items[k])
                  && forall i :: 0 <= i < k ==> LineAccepted(req.items[i])
  {
  }

  // --------------------------------------------------------- validateProductsAndStock

  /** No product is listed on two lines. */
  predicate DistinctIds(items: seq<LineRequest>)
  {
    forall i, j :: 0 <= i < j < |items| ==> items[i].productId != items[j].productId
  }

  predicate Listed(items: seq<LineRequest>, p: int)
  {
    exists i :: 0 <= i < |items| && items[i].productId == p
  }

  /** The product ids of the inventory rows `findMany({ productId: { in: ids } })` returns:
      one row per listed product that has an inventory row. */
  function FoundIds(items: seq<LineRequest>, inventory: map<int, int>): (r: set<int>)
    ensures forall p :: p in r <==> p in inventory && Listed(items, p)
    decreases |items|
  {
    if items == [] then {}
    else
      var rest := FoundIds(items[1..], inventory);
      assert forall p :: Listed(items, p) <==> items[0].productId == p || Listed(items[1..], p) by {
        forall p ensures Listed(items, p) <==> items[0].productId == p || Listed(items[1..], p) {
          if Listed(items[1..], p) {
            var i :| 0 <= i < |items| - 1 && items[1..][i].productId == p;
            assert items[i + 1].productId == p;
          }
          if Listed(items, p) && items[0].productId != p {
            var i :| 0 <= i < |items| && items[i].productId == p;
            assert items[1..][i - 1].productId == p;
          }
        }
      }
      (if items[0].productId in inventory then {items[0].productId} else {}) + rest
  }

  /** As many rows come back as there are lines exactly when every line names a
      different product and every product has an inventory row. */
  lemma {:induction false} FoundIdsCount(items: seq<LineRequest>, inventory: map<int, int>)
    ensures |FoundIds(items, inventory)| <= |items|
    ensures |FoundIds(items, inventory)| == |items| <==>
      DistinctIds(items) && LinesStocked(items, inventory)
    decreases |items|
  {
    if items != [] {
      var p := items[0].productId;
      var rest := items[1..];
      FoundIdsCount(rest, inventory);
      DistinctCons(items);
      LinesStockedCons(items, inventory);
      FoundIdsCons(items, inventory);
    }
  }

  predicate LinesStocked(items: seq<LineRequest>, inventory: map<int, int>)
  {
    forall i :: 0 <= i < |items| ==> items[i].productId in inventory
  }

  lemma DistinctCons(items: seq<LineRequest>)
    requires items != []
    ensures DistinctIds(items) <==> DistinctIds(items[1..]) && !Listed(items[1..], items[0].productId)
  {
    var p, rest := items[0].productId, items[1..];
    if DistinctIds(rest) && !Listed(rest, p) {
      forall i, j | 0 <= i < j < |items| ensures items[i].productId != items[j].productId {
        if i == 0 {
          assert rest[j - 1].productId == items[j].productId;
        } else {
          assert rest[i - 1].productId != rest[j - 1].productId;
        }
      }
    }
  }

  lemma LinesStockedCons(items: seq<LineRequest>, inventory: map<int, int>)
    requires items != []
    ensures LinesStocked(items, inventory) <==> items[0].productId in inventory && LinesStocked(items[1..], inventory)
  {
    if items[0].productId in inventory && LinesStocked(items[1..], inventory) {
      forall i | 0 <= i < |items| ensures items[i].productId in inventory {
        if i > 0 { assert items[i] == items[1..][i - 1]; }
      }
    }
  }

  /** One step of the count: the first line adds a row exactly when its product has
      inventory and is not listed again further on. */
  lemma FoundIdsCons(items: seq<LineRequest>, inventory: map<int, int>)
    requires items != []
    ensures var p, fr := items[0].productId, FoundIds(items[1..], inventory);
      |FoundIds(items, inventory)| == if p in inventory && !Listed(items[1..], p) then 1 + |fr| else |fr|
  {
    var p, fr := items[0].productId, FoundIds(items[1..], inventory);
    AddOne(p, fr, FoundIds(items, inventory), p in inventory);
  }

  lemma AddOne(p: int, fr: set<int>, whole: set<int>, present: bool)
    requires whole == (if present then {p} else {}) + fr
    ensures |whole| == if present && p !in fr then 1 + |fr| else |fr|
  {
    if present && p in fr {
      assert whole == fr;
    }
  }

  /** What an accepted line needs in stock: an inventory row holding at least the
      quantity, and a quantity of at most 50. */
  predicate StockLineOk(item: LineRequest, inventory: map<int, int>)
  {
    item.productId in inventory && item.quantity <= inventory[item.productId] as real
    && item.quantity <= MaxQuantity
  }

  /** The body of the second `forEach`: the row must exist, the stock must suffice, and
      only then is the cap checked, so a line short of stock reports the stock. */
  function CheckStockLine(item: LineRequest, inventory: map<int, int>): (r: Outcome)
    ensures r == Pass <==> StockLineOk(item, inventory)
    ensures item.productId in inventory && (inventory[item.productId] as real) < item.quantity ==>
      r == Fail(Error(BadRequest, InsufficientStock(item.productId, inventory[item.productId])))
  {
    var p := item.productId;
    if p !in inventory then Fail(Error(NotFound, ProductMissing(p)))
    else if (inventory[p] as real) < item.quantity then Fail(Error(BadRequest, InsufficientStock(p, inventory[p])))
    else if item.quantity > MaxQuantity then Fail(Error(BadRequest, ExcessiveQuantity(p)))
    else Pass
  }

  function CheckStockLines(items: seq<LineRequest>, inventory: map<int, int>, from: nat): (r: Outcome)
    requires from <= |items|
    ensures r == Pass <==> forall i :: from <= i < |items| ==> StockLineOk(items[i], inventory)
    ensures r.Fail? ==> exists k :: from <= k < |items| && CheckStockLine(items[k], inventory) == r
                                    && forall i :: from <= i < k ==> StockLineOk(items[i], inventory)
    decreases |items| - from
  {
    if from == |items| then Pass
    else match CheckStockLine(items[from], inventory)
      case Fail(e) => Fail(e)
      case Pass => CheckStockLines(items, inventory, from + 1)
  }

  /** `validateProductsAndStock`: a row count that differs from the line count is a
      NotFound; then each line's stock and cap. */
  function ValidateProductsAndStock(items: seq<LineRequest>, inventory: map<int, int>): (r: Outcome)
  {
    if |FoundIds(items, inventory)| != |items| then Fail(Error(NotFound, ProductsUnavailable))
    else CheckStockLines(items, inventory, 0)
  }

  /** The stock check passes exactly when the lines name distinct products and each
      is in stock for its quantity and within the cap. */
  lemma StockCheckMeaning(items: seq<LineRequest>, inventory: map<int, int>)
    ensures ValidateProductsAndStock(items, inventory) == Pass <==>
      DistinctIds(items) && forall i :: 0 <= i < |items| ==> StockLineOk(items[i], inventory)
  {
    FoundIdsCount(items, inventory);
    if forall i :: 0 <= i < |items| ==> StockLineOk(items[i], inventory) {
      assert LinesStocked(items, inventory);
    }
  }

  /** Listing one product on two lines is refused as unavailable products, whatever
      the stock. */
  lemma DuplicateLineRejected(items: seq<LineRequest>, inventory: map<int, int>, i: nat, j: nat)
    requires i < j < |items| && items[i].productId == items[j].productId
    ensures ValidateProductsAndStock(items, inventory) == Fail(Error(NotFound, ProductsUnavailable))
  {
    FoundIdsCount(items, inventory);
  }

  // ------------------------------------------------------------------ calculatePrices

  predicate PricesPresent(items: seq<LineRequest>)
  {
    forall i :: 0 <= i < |items| ==> items[i].price.Some?
  }

  /** The `reduce` of `calculatePrices`, accumulated from the left starting at 0. */
  function Subtotal(items: seq<LineRequest>): real
    requires PricesPresent(items)
    decreases |items|
  {
    if items == [] then 0.0
    else Subtotal(items[..|items| - 1]) + items[|items| - 1].quantity * items[|items| - 1].price.value
  }

  lemma {:induction false} SubtotalAppend(a: seq<LineRequest>, b: seq<LineRequest>)
    requires PricesPresent(a) && PricesPresent(b)
    ensures PricesPresent(a + b)
    ensures Subtotal(a + b) == Subtotal(a) + Subtotal(b)
    decreases |b|
  {
    assert PricesPresent(a + b) by {
      forall i | 0 <= i < |a + b| ensures (a + b)[i].price.Some? {
        if i >= |a| { assert (a + b)[i] == b[i - |a|]; }
      }
    }
    if b == [] {
      assert a + b == a;
    } else {
      var b' := b[..|b| - 1];
      assert (a + b)[..|a + b| - 1] == a + b';
      SubtotalAppend(a, b');
    }
  }

  /** Accepted lines never make the subtotal negative. */
  lemma {:induction false} SubtotalNonNegative(items: seq<LineRequest>)
    requires forall i :: 0 <= i < |items| ==> LineAccepted(items[i])
    ensures PricesPresent(items) && Subtotal(items) >= 0.0
    decreases |items|
  {
    if items != [] {
      SubtotalNonNegative(items[..|items| - 1]);
      var last := items[|items| - 1];
      assert LineAccepted(last);
      assert last.quantity * last.price.value >= 0.0;
    }
  }

  datatype Totals = Totals(itemsPrice: real, taxPrice: real, totalAmount: real)

  /** `calculatePrices`: 20% tax on the subtotal, plus the shipping price (0 when absent). */
  function CalculatePrices(req: OrderRequest): (t: Totals)
    requires PricesPresent(req.items)
    ensures t.itemsPrice == Subtotal(req.items)
    ensures t.totalAmount == t.itemsPrice * 1.2 + req.shippingPrice.GetOr(0.0)
    ensures t.taxPrice * 5.0 == t.itemsPrice
  {
    var items := Subtotal(req.items);
    var tax := items * TaxRate;
    Totals(items, tax, items + tax + req.shippingPrice.GetOr(0.0))
  }

  // -------------------------------------------------------------------- comparePrices

  /** `comparePrices`: exact equality, items first, then tax, then total. */
  function ComparePrices(req: OrderRequest, t: Totals): (r: Outcome)
    ensures r == Pass <==> req.itemsPrice == t.itemsPrice && req.taxPrice == t.taxPrice && req.totalAmount == t.totalAmount
    ensures r.Fail? ==> r.error.status == BadRequest
  {
    if t.itemsPrice != req.itemsPrice then Fail(Error(BadRequest, ItemsPriceMismatch))
    else if t.taxPrice != req.taxPrice then Fail(Error(BadRequest, TaxPriceMismatch))
    else if t.totalAmount != req.totalAmount then Fail(Error(BadRequest, TotalAmountMismatch))
    else Pass
  }

  /** What the price check accepts, stated without the computation: the claimed amounts
      are exactly the subtotal, a fifth of it, and 1.2 times it plus the shipping price. */
  predicate PricesMatch(req: OrderRequest)
    requires PricesPresent(req.items)
  {
    var s := Subtotal(req.items);
    req.itemsPrice == s && req.taxPrice * 5.0 == s && req.totalAmount == s * 1.2 + req.shippingPrice.GetOr(0.0)
  }

  lemma PriceCheckMeaning(req: OrderRequest)
    requires PricesPresent(req.items)
    ensures ComparePrices(req, CalculatePrices(req)) == Pass <==> PricesMatch(req)
  {
  }

  // ------------------------------------------------------------- the whole pre-check

  /** The checks `createOrder` runs between the user lookup and the database write. */
  function CheckOrder(req: OrderRequest, inventory: map<int, int>): (r: Outcome)
  {
    match ValidateOrderData(req)
    case Fail(e) => Fail(e)
    case Pass =>
      match ValidateProductsAndStock(req.items, inventory)
      case Fail(e) => Fail(e)
      case Pass => ComparePrices(req, CalculatePrices(req))
  }

  /** Everything an acceptable order satisfies. */
  predicate OrderAcceptable(req: OrderRequest, inventory: map<int, int>)
  {
    && AddressComplete(req) && req.paymentMethod != "" && |req.items| > 0
    && (forall i :: 0 <= i < |req.items| ==> LineAccepted(req.items[i]))
    && DistinctIds(req.items)
    && (forall i :: 0 <= i < |req.items| ==> StockLineOk(req.items[i], inventory))
    && PricesMatch(req)
  }

  /** The pre-check passes exactly on acceptable orders. */
  lemma CheckOrderMeaning(req: OrderRequest, inventory: map<int, int>)
    ensures CheckOrder(req, inventory) == Pass <==> OrderAcceptable(req, inventory)
  {
    StockCheckMeaning(req.items, inventory);
  }

  /** The client's shipping price is never checked on its own: a negative one is
      accepted as long as the claimed total includes it. */
  lemma NegativeShippingAccepted()
    ensures var req := OrderRequest("1 rue", "Lyon", "69000", "CARD", [LineRequest(7, 2.0, Some(10.0))],
                                    20.0, 4.0, Some(-24.0), 0.0);
            CheckOrder(req, map[7 := 5]) == Pass
  {
    var items := [LineRequest(7, 2.0, Some(10.0))];
    assert items[..0] == [];
    assert Subtotal(items) == 20.0;
    FoundIdsCount(items, map[7 := 5]);
  }
}
