/** The two ways the services take stock out of the `inventory` table: the unchecked
    per-line decrement of `OrdersService.updateOrderToPaid`, and the checked,
    line-by-line reservation of `CheckoutService.createOrder`. */
module Stock {
  import opened Common
  import opened Store

  /** The total quantity the lines ask of product `p`. */
  function Demand(items: seq<OrderItem>, p: int): int
    decreases |items|
  {
    if items == [] then 0
    else (if items[0].productId == p then items[0].quantity else 0) + Demand(items[1..], p)
  }

  predicate Touches(items: seq<OrderItem>, p: int)
  {
    exists i :: 0 <= i < |items| && items[i].productId == p
  }

  lemma {:induction false} DemandUntouched(items: seq<OrderItem>, p: int)
    requires !Touches(items, p)
    ensures Demand(items, p) == 0
    decreases |items|
  {
    if items != [] {
      DemandUntouched(items[1..], p);
    }
  }

  lemma TouchesCons(items: seq<OrderItem>, p: int)
    requires items != []
    ensures Touches(items, p) <==> items[0].productId == p || Touches(items[1..], p)
  {
    if Touches(items[1..], p) {
      var i :| 0 <= i < |items| - 1 && items[1..][i].productId == p;
      assert items[i + 1].productId == p;
    }
    if Touches(items, p) && items[0].productId != p {
      var i :| 0 <= i < |items| && items[i].productId == p;
      assert items[1..][i - 1].productId == p;
    }
  }

  /** The demand of the first `k + 1` lines is that of the first line plus that of the
      next `k` lines. */
  lemma DemandPrefixCons(items: seq<OrderItem>, k: nat, p: int)
    requires k < |items|
    ensures Demand(items[..k + 1], p) == (if items[0].productId == p then items[0].quantity else 0) + Demand(items[1..][..k], p)
  {
    assert items[..k + 1][1..] == items[1..][..k];
  }

  // ------------------------------------------------------------ updateOrderToPaid

  /** The `for` loop of `updateOrderToPaid` inside its transaction: every line's row is
      decremented by the line's quantity with no stock check; a line whose product has
      no inventory row makes `inventory.update` throw, which rolls everything back. */
  function Decrement(items: seq<OrderItem>, inv: map<int, int>): Option<map<int, int>>
    decreases |items|
  {
    if items == [] then Some(inv)
    else
      var p := items[0].productId;
      if p !in inv then None
      else Decrement(items[1..], inv[p := inv[p] - items[0].quantity])
  }

  predicate AllStocked(items: seq<OrderItem>, inv: map<int, int>)
  {
    forall i :: 0 <= i < |items| ==> items[i].productId in inv
  }

  /** The decrement succeeds exactly when every line has an inventory row; it then takes
      each product's whole demand off its row and changes no other row. */
  lemma {:induction false} DecrementMeaning(items: seq<OrderItem>, inv: map<int, int>)
    ensures Decrement(items, inv).Some? <==> AllStocked(items, inv)
    ensures Decrement(items, inv).Some? ==>
      var inv' := Decrement(items, inv).value;
      inv'.Keys == inv.Keys && forall p :: p in inv ==> inv'[p] == inv[p] - Demand(items, p)
    decreases |items|
  {
    if items != [] {
      var p := items[0].productId;
      var rest := items[1..];
      assert AllStocked(items, inv) <==> p in inv && AllStocked(rest, inv) by {
        if p in inv && AllStocked(rest, inv) {
          forall i | 0 <= i < |items| ensures items[i].productId in inv {
            if i > 0 { assert items[i] == rest[i - 1]; }
          }
        }
      }
      if p in inv {
        var inv1 := inv[p := inv[p] - items[0].quantity];
        DecrementMeaning(rest, inv1);
        assert AllStocked(rest, inv1) <==> AllStocked(rest, inv);
      }
    }
  }

  /** The loop itself, on a working copy of the table so a throw leaves it untouched. */
  method DecrementLoop(items: seq<OrderItem>, inventory: map<int, int>) returns (r: Option<map<int, int>>)
    ensures r == Decrement(items, inventory)
  {
    var inv := inventory;
    var i := 0;
    while i < |items|
      invariant 0 <= i <= |items|
      invariant Decrement(items, inventory) == Decrement(items[i..], inv)
    {
      assert items[i..][1..] == items[i + 1..];
      var p := items[i].productId;
      if p !in inv {
        return None;
      }
      inv := inv[p := inv[p] - items[i].quantity];
      i := i + 1;
    }
    assert items[i..] == [];
    r := Some(inv);
  }

  // ------------------------------------------------------- checkout createOrder

  /** The stock loop of `createOrder`: each line in turn needs its product, an inventory
      row and at least its quantity in the row as earlier lines left it; then the row is
      decremented. */
  function Reserve(items: seq<OrderItem>, products: map<int, Product>, inv: map<int, int>): Result<map<int, int>>
    decreases |items|
  {
    if items == [] then Ok(inv)
    else
      var p, q := items[0].productId, items[0].quantity;
      if p !in products then Err(Error(BadRequest, CheckoutProductNotFound(p)))
      else if p !in inv || inv[p] < q then Err(Error(BadRequest, CheckoutStockShort(p)))
      else Reserve(items[1..], products, inv[p := inv[p] - q])
  }

  /** Line `k` can be served from what the lines before it left in stock. */
  predicate Servable(items: seq<OrderItem>, products: map<int, Product>, inv: map<int, int>, k: nat)
    requires k < |items|
  {
    var p := items[k].productId;
    p in products && p in inv && items[k].quantity <= inv[p] - Demand(items[..k], p)
  }

  /** Later lines see earlier decrements: the reservation succeeds exactly when every line
      is servable from the stock the earlier lines left, and it then takes each product's
      whole demand off its row. Errors are always BadRequest. */
  lemma {:induction false} ReserveMeaning(items: seq<OrderItem>, products: map<int, Product>, inv: map<int, int>)
    ensures Reserve(items, products, inv).Ok? <==> forall k :: 0 <= k < |items| ==> Servable(items, products, inv, k)
    ensures Reserve(items, products, inv).Err? ==> Reserve(items, products, inv).error.status == BadRequest
    ensures Reserve(items, products, inv).Ok? ==>
      var inv' := Reserve(items, products, inv).value;
      inv'.Keys == inv.Keys && forall p :: p in inv ==> inv'[p] == inv[p] - Demand(items, p)
    decreases |items|
  {
    if items != [] {
      var p, q := items[0].productId, items[0].quantity;
      var rest := items[1..];
      assert items[..0] == [];
      if p in products && p in inv && inv[p] >= q {
        var inv1 := inv[p := inv[p] - q];
        ReserveMeaning(rest, products, inv1);
        forall k | 0 <= k < |rest|
          ensures Servable(rest, products, inv1, k) <==> Servable(items, products, inv, k + 1)
        {
          DemandPrefixCons(items, k, rest[k].productId);
        }
        assert (forall k :: 0 <= k < |items| ==> Servable(items, products, inv, k)) <==>
               (forall k :: 0 <= k < |rest| ==> Servable(rest, products, inv1, k)) by {
          if forall k :: 0 <= k < |rest| ==> Servable(rest, products, inv1, k) {
            forall k | 0 <= k < |items| ensures Servable(items, products, inv, k) {
              if k > 0 { assert Servable(rest, products, inv1, k - 1); }
            }
          }
        }
      } else {
        assert !Servable(items, products, inv, 0);
      }
    }
  }

  /** Repeated lines for one product can never jointly exceed its stock, and no row a
      successful reservation touches is left negative. */
  lemma {:induction false} ReserveNeverOversells(items: seq<OrderItem>, products: map<int, Product>, inv: map<int, int>, p: int)
    requires Reserve(items, products, inv).Ok? && Touches(items, p)
    ensures p in inv && Demand(items, p) <= inv[p]
    ensures var inv' := Reserve(items, products, inv).value; p in inv' && inv'[p] >= 0
    decreases |items|
  {
    var p0, q := items[0].productId, items[0].quantity;
    var rest := items[1..];
    var inv1 := inv[p0 := inv[p0] - q];
    ReserveMeaning(items, products, inv);
    ReserveMeaning(rest, products, inv1);
    TouchesCons(items, p);
    if Touches(rest, p) {
      ReserveNeverOversells(rest, products, inv1, p);
    } else {
      DemandUntouched(rest, p);
    }
  }

  /** The loop itself, on the transaction's working copy of the table. */
  method ReserveLoop(items: seq<OrderItem>, products: map<int, Product>, inventory: map<int, int>)
    returns (r: Result<map<int, int>>)
    ensures r == Reserve(items, products, inventory)
  {
    var inv := inventory;
    var i := 0;
    while i < |items|
      invariant 0 <= i <= |items|
      invariant Reserve(items, products, inventory) == Reserve(items[i..], products, inv)
    {
      assert items[i..][1..] == items[i + 1..];
      var p, q := items[i].productId, items[i].quantity;
      if p !in products {
        return Err(Error(BadRequest, CheckoutProductNotFound(p)));
      }
      if p !in inv || inv[p] < q {
        return Err(Error(BadRequest, CheckoutStockShort(p)));
      }
      inv := inv[p := inv[p] - q];
      i := i + 1;
    }
    assert items[i..] == [];
    r := Ok(inv);
  }
}
