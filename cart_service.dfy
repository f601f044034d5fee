/** The cart ledger: one cart per user, created lazily, holding product/quantity lines. */
module CartService {
  import opened Common
  import opened Store

  /** The lines of a user's cart; an absent cart reads as empty. */
  function LinesOf(carts: map<int, seq<CartLine>>, userId: int): seq<CartLine>
  {
    if userId in carts then carts[userId] else []
  }

  /** Prisma `findFirst` on (cartId, productId): the first line for the product. */
  function IndexOfProduct(lines: seq<CartLine>, productId: int): (r: Option<nat>)
    ensures r.Some? ==> r.value < |lines| && lines[r.value].productId == productId
    ensures r.Some? ==> forall j :: 0 <= j < r.value ==> lines[j].productId != productId
    ensures r.None? <==> forall j :: 0 <= j < |lines| ==> lines[j].productId != productId
    decreases |lines|
  {
    if lines == [] then None
    else if lines[0].productId == productId then Some(0)
    else match IndexOfProduct(lines[1..], productId)
      case None => None
      case Some(k) => Some(k + 1)
  }

  /** Independent reference: the total quantity the lines hold for a product. */
  function QuantityOf(lines: seq<CartLine>, productId: int): int
    decreases |lines|
  {
    if lines == [] then 0
    else (if lines[0].productId == productId then lines[0].quantity else 0) + QuantityOf(lines[1..], productId)
  }

  /** `addToCart` on the lines: merge into the existing line, or append a new one. */
  function AddLine(lines: seq<CartLine>, productId: int, quantity: int): seq<CartLine>
  {
    match IndexOfProduct(lines, productId)
    case Some(i) => lines[i := CartLine(productId, lines[i].quantity + quantity)]
    case None => lines + [CartLine(productId, quantity)]
  }

  /** `updateCartItem` on the lines (the product must have a line): quantity 0 deletes it,
      any other value replaces the quantity. */
  function SetLine(lines: seq<CartLine>, productId: int, quantity: int): seq<CartLine>
    requires IndexOfProduct(lines, productId).Some?
  {
    var i := IndexOfProduct(lines, productId).value;
    if quantity == 0 then lines[..i] + lines[i + 1..] else lines[i := CartLine(productId, quantity)]
  }

  /** `removeFromCart` on the lines (the product must have a line): delete that line. */
  function RemoveLine(lines: seq<CartLine>, productId: int): seq<CartLine>
    requires IndexOfProduct(lines, productId).Some?
  {
    var i := IndexOfProduct(lines, productId).value;
    lines[..i] + lines[i + 1..]
  }

  // ---- what the line operations mean, in terms of QuantityOf ----

  lemma {:induction false} QuantityOfAppend(a: seq<CartLine>, b: seq<CartLine>, p: int)
    ensures QuantityOf(a + b, p) == QuantityOf(a, p) + QuantityOf(b, p)
    decreases |a|
  {
    if a == [] {
      assert a + b == b;
    } else {
      assert (a + b)[1..] == a[1..] + b;
      QuantityOfAppend(a[1..], b, p);
    }
  }

  lemma QuantityOfSingle(l: CartLine, p: int)
    ensures QuantityOf([l], p) == if l.productId == p then l.quantity else 0
  {
    assert [l][1..] == [];
  }

  /** Splitting the lines around position i. */
  lemma QuantityAround(lines: seq<CartLine>, i: nat, p: int)
    requires i < |lines|
    ensures QuantityOf(lines, p) == QuantityOf(lines[..i], p) + QuantityOf([lines[i]], p) + QuantityOf(lines[i + 1..], p)
  {
    assert lines == lines[..i] + [lines[i]] + lines[i + 1..];
    QuantityOfAppend(lines[..i] + [lines[i]], lines[i + 1..], p);
    QuantityOfAppend(lines[..i], [lines[i]], p);
  }

  lemma {:induction false} QuantityOfAbsent(lines: seq<CartLine>, p: int)
    requires forall j :: 0 <= j < |lines| ==> lines[j].productId != p
    ensures QuantityOf(lines, p) == 0
    decreases |lines|
  {
    if lines != [] {
      QuantityOfAbsent(lines[1..], p);
    }
  }

  /** In a cart without duplicates, the quantity of a product is that of its one line. */
  lemma QuantityOfDistinct(lines: seq<CartLine>, p: int)
    requires DistinctProducts(lines)
    ensures QuantityOf(lines, p) == match IndexOfProduct(lines, p) case Some(i) => lines[i].quantity case None => 0
  {
    match IndexOfProduct(lines, p)
    case None => QuantityOfAbsent(lines, p);
    case Some(i) =>
      QuantityAround(lines, i, p);
      QuantityOfSingle(lines[i], p);
      QuantityOfAbsent(lines[..i], p);
      QuantityOfAbsent(lines[i + 1..], p);
  }

  /** Adding merges: the product's quantity grows by exactly the amount added, no other
      product's quantity moves, and the cart keeps at most one line per product. */
  lemma AddLineMeaning(lines: seq<CartLine>, p: int, q: int, other: int)
    requires DistinctProducts(lines) && other != p
    ensures DistinctProducts(AddLine(lines, p, q))
    ensures QuantityOf(AddLine(lines, p, q), p) == QuantityOf(lines, p) + q
    ensures QuantityOf(AddLine(lines, p, q), other) == QuantityOf(lines, other)
  {
    var r := AddLine(lines, p, q);
    match IndexOfProduct(lines, p)
    case Some(i) =>
      assert r[..i] == lines[..i] && r[i + 1..] == lines[i + 1..];
      QuantityAround(lines, i, p);
      QuantityAround(r, i, p);
      QuantityAround(lines, i, other);
      QuantityAround(r, i, other);
      QuantityOfSingle(lines[i], p);
      QuantityOfSingle(r[i], p);
      QuantityOfSingle(lines[i], other);
      QuantityOfSingle(r[i], other);
    case None =>
      QuantityOfAppend(lines, [CartLine(p, q)], p);
      QuantityOfAppend(lines, [CartLine(p, q)], other);
      QuantityOfSingle(CartLine(p, q), p);
      QuantityOfSingle(CartLine(p, q), other);
  }

  /** Updating sets, it does not add: afterwards the product's quantity is exactly the new
      value (0 meaning the line is gone), and no other product's quantity moves. */
  lemma SetLineMeaning(lines: seq<CartLine>, p: int, q: int, other: int)
    requires DistinctProducts(lines) && IndexOfProduct(lines, p).Some? && other != p
    ensures DistinctProducts(SetLine(lines, p, q))
    ensures QuantityOf(SetLine(lines, p, q), p) == q
    ensures QuantityOf(SetLine(lines, p, q), other) == QuantityOf(lines, other)
    ensures q == 0 ==> IndexOfProduct(SetLine(lines, p, q), p).None?
  {
    var i := IndexOfProduct(lines, p).value;
    var r := SetLine(lines, p, q);
    QuantityAround(lines, i, p);
    QuantityAround(lines, i, other);
    QuantityOfSingle(lines[i], p);
    QuantityOfSingle(lines[i], other);
    QuantityOfAbsent(lines[..i], p);
    QuantityOfAbsent(lines[i + 1..], p);
    if q == 0 {
      QuantityOfAppend(lines[..i], lines[i + 1..], p);
      QuantityOfAppend(lines[..i], lines[i + 1..], other);
      assert forall j :: 0 <= j < |r| ==> r[j].productId != p by {
        forall j | 0 <= j < |r| ensures r[j].productId != p {
          if j < i { assert r[j] == lines[j]; } else { assert r[j] == lines[j + 1]; }
        }
      }
    } else {
      assert r[..i] == lines[..i] && r[i + 1..] == lines[i + 1..];
      QuantityAround(r, i, p);
      QuantityAround(r, i, other);
      QuantityOfSingle(r[i], p);
      QuantityOfSingle(r[i], other);
    }
  }

  /** Removing deletes exactly that product's line: it is gone and every other product
      keeps its quantity. */
  lemma RemoveLineMeaning(lines: seq<CartLine>, p: int, other: int)
    requires DistinctProducts(lines) && IndexOfProduct(lines, p).Some? && other != p
    ensures DistinctProducts(RemoveLine(lines, p))
    ensures IndexOfProduct(RemoveLine(lines, p), p).None?
    ensures QuantityOf(RemoveLine(lines, p), other) == QuantityOf(lines, other)
    ensures |RemoveLine(lines, p)| == |lines| - 1
  {
    SetLineMeaning(lines, p, 0, other);
  }

  // ---- the service ----

  /** `getCart`. */
  method GetCart(db: Db, userId: int) returns (r: Result<seq<CartLine>>)
    ensures userId in db.carts ==> r == Ok(db.carts[userId])
    ensures userId !in db.carts ==> r == Err(Error(NotFound, CartNotFound))
  {
    if userId !in db.carts {
      return Err(Error(NotFound, CartNotFound));
    }
    r := Ok(db.carts[userId]);
  }

  /** `addToCart`: unknown product is a BadRequest; otherwise the cart is created if
      missing and the quantity merged into the product's line. */
  method AddToCart(db: Db, userId: int, productId: int, quantity: int) returns (r: Result<CartLine>)
    requires db.Valid()
    modifies db`carts
    ensures db.Valid()
    ensures productId !in db.products ==> r == Err(Error(BadRequest, CartProductUnknown)) && db.carts == old(db.carts)
    ensures productId in db.products ==>
      && db.carts == old(db.carts)[userId := AddLine(LinesOf(old(db.carts), userId), productId, quantity)]
      && r == Ok(CartLine(productId, QuantityOf(LinesOf(old(db.carts), userId), productId) + quantity))
  {
    if productId !in db.products {
      return Err(Error(BadRequest, CartProductUnknown));
    }
    if userId !in db.carts {
      db.carts := db.carts[userId := []];
    }
    var lines := db.carts[userId];
    AddLineMeaning(lines, productId, quantity, productId + 1);
    QuantityOfDistinct(AddLine(lines, productId, quantity), productId);
    QuantityOfDistinct(lines, productId);
    var line;
    match IndexOfProduct(lines, productId) {
      case Some(i) =>
        line := CartLine(productId, lines[i].quantity + quantity);
        lines := lines[i := line];
      case None =>
        line := CartLine(productId, quantity);
        lines := lines + [line];
    }
    db.carts := db.carts[userId := lines];
    r := Ok(line);
  }

  /** `updateCartItem`: missing cart or line is NotFound; 0 deletes the line,
      anything else replaces its quantity. */
  method UpdateCartItem(db: Db, userId: int, productId: int, quantity: int) returns (r: Result<()>)
    requires db.Valid()
    modifies db`carts
    ensures db.Valid()
    ensures userId !in old(db.carts) ==> r == Err(Error(NotFound, CartNotFound))
    ensures userId in old(db.carts) && IndexOfProduct(old(db.carts)[userId], productId).None? ==>
      r == Err(Error(NotFound, ProductNotInCart))
    ensures r.Err? ==> db.carts == old(db.carts)
    ensures r.Ok? <==> userId in old(db.carts) && IndexOfProduct(old(db.carts)[userId], productId).Some?
    ensures r.Ok? ==> db.carts == old(db.carts)[userId := SetLine(old(db.carts)[userId], productId, quantity)]
  {
    if userId !in db.carts {
      return Err(Error(NotFound, CartNotFound));
    }
    var lines := db.carts[userId];
    var found := IndexOfProduct(lines, productId);
    if found.None? {
      return Err(Error(NotFound, ProductNotInCart));
    }
    SetLineMeaning(lines, productId, quantity, productId + 1);
    var i := found.value;
    if quantity == 0 {
      lines := lines[..i] + lines[i + 1..];
    } else {
      lines := lines[i := CartLine(productId, quantity)];
    }
    db.carts := db.carts[userId := lines];
    r := Ok(());
  }

  /** `removeFromCart`: missing cart or line is NotFound; otherwise that one line goes. */
  method RemoveFromCart(db: Db, userId: int, productId: int) returns (r: Result<()>)
    requires db.Valid()
    modifies db`carts
    ensures db.Valid()
    ensures userId !in old(db.carts) ==> r == Err(Error(NotFound, CartNotFound))
    ensures userId in old(db.carts) && IndexOfProduct(old(db.carts)[userId], productId).None? ==>
      r == Err(Error(NotFound, ProductNotInCart))
    ensures r.Err? ==> db.carts == old(db.carts)
    ensures r.Ok? <==> userId in old(db.carts) && IndexOfProduct(old(db.carts)[userId], productId).Some?
    ensures r.Ok? ==> db.carts == old(db.carts)[userId := RemoveLine(old(db.carts)[userId], productId)]
  {
    if userId !in db.carts {
      return Err(Error(NotFound, CartNotFound));
    }
    var lines := db.carts[userId];
    var found := IndexOfProduct(lines, productId);
    if found.None? {
      return Err(Error(NotFound, ProductNotInCart));
    }
    RemoveLineMeaning(lines, productId, productId + 1);
    var i := found.value;
    db.carts := db.carts[userId := lines[..i] + lines[i + 1..]];
    r := Ok(());
  }

  /** `clearCart`: the cart keeps existing with no lines. */
  method ClearCart(db: Db, userId: int) returns (r: Result<()>)
    requires db.Valid()
    modifies db`carts
    ensures db.Valid()
    ensures userId !in old(db.carts) ==> r == Err(Error(NotFound, CartNotFound)) && db.carts == old(db.carts)
    ensures userId in old(db.carts) ==> r == Ok(()) && db.carts == old(db.carts)[userId := []]
  {
    if userId !in db.carts {
      return Err(Error(NotFound, CartNotFound));
    }
    db.carts := db.carts[userId := []];
    r := Ok(());
  }
}
