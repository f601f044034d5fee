/** Product reviews ("advice"): listing, creation, and the author-only update and delete. */
module AdviceService {
  import opened Common
  import opened Store

  /** At most this many reviews are listed by `getAll`. */
  const ListLimit := 30

  /** The requested changes of `updateAdvice`; an absent field is left as it is. */
  datatype AdviceUpdate = AdviceUpdate(content: Option<string>, rating: Option<int>, productId: Option<int>)

  ghost predicate IdsDecreasing(rows: seq<Advice>)
  {
    forall i, j :: 0 <= i < j < |rows| ==> rows[i].id > rows[j].id
  }

  /** The position of the review with this id. */
  function IndexOfAdvice(rows: seq<Advice>, id: int): (r: Option<nat>)
    ensures r.Some? ==> r.value < |rows| && rows[r.value].id == id
    ensures r.None? <==> forall j :: 0 <= j < |rows| ==> rows[j].id != id
    decreases |rows|
  {
    if rows == [] then None
    else if rows[0].id == id then Some(0)
    else match IndexOfAdvice(rows[1..], id)
      case None => None
      case Some(k) => Some(k + 1)
  }

  /** `getAll`: the newest reviews first, at most thirty of them. */
  method GetAll(db: Db) returns (r: seq<Advice>)
    requires db.Valid()
    ensures |r| == if |db.advices| < ListLimit then |db.advices| else ListLimit
    ensures forall k :: 0 <= k < |r| ==> r[k] == db.advices[|db.advices| - 1 - k]
    ensures IdsDecreasing(r)
  {
    var rows := db.advices;
    var n := if |rows| < ListLimit then |rows| else ListLimit;
    r := seq(n, k requires 0 <= k < n => rows[|rows| - 1 - k]);
  }

  /** `createAdvice`: a review of a missing product is a BadRequest; the author is always
      the caller, whatever the request says. */
  method CreateAdvice(db: Db, userId: int, content: string, rating: int, productId: int) returns (r: Result<Advice>)
    requires db.Valid()
    modifies db`advices, db`nextAdviceId
    ensures db.Valid()
    ensures productId !in db.products ==>
      r == Err(Error(BadRequest, AdviceProductMissing)) && db.advices == old(db.advices) && db.nextAdviceId == old(db.nextAdviceId)
    ensures productId in db.products ==>
      && r == Ok(Advice(old(db.nextAdviceId), content, rating, productId, userId))
      && db.advices == old(db.advices) + [r.value]
      && db.nextAdviceId == old(db.nextAdviceId) + 1
  {
    if productId !in db.products {
      return Err(Error(BadRequest, AdviceProductMissing));
    }
    var a := Advice(db.nextAdviceId, content, rating, productId, userId);
    db.advices := db.advices + [a];
    db.nextAdviceId := db.nextAdviceId + 1;
    r := Ok(a);
  }

  /** The review after an update: the given fields replace the stored ones; id and author stay. */
  function Revised(a: Advice, u: AdviceUpdate): Advice
  {
    a.(content := u.content.GetOr(a.content), rating := u.rating.GetOr(a.rating), productId := u.productId.GetOr(a.productId))
  }

  /** `updateAdvice`: NotFound for a missing review, Forbidden for anyone but its author;
      a new product id must name a stored product (the foreign key). */
  method UpdateAdvice(db: Db, userId: int, id: int, u: AdviceUpdate) returns (r: Result<Advice>)
    requires db.Valid()
    modifies db`advices
    ensures db.Valid()
    ensures IndexOfAdvice(old(db.advices), id).None? ==> r == Err(Error(NotFound, AdviceNotFound))
    ensures IndexOfAdvice(old(db.advices), id).Some? && old(db.advices)[IndexOfAdvice(old(db.advices), id).value].userId != userId ==>
      r == Err(Error(Forbidden, NotAdviceAuthor))
    ensures r.Err? ==> db.advices == old(db.advices)
    ensures r.Ok? <==>
      && IndexOfAdvice(old(db.advices), id).Some?
      && old(db.advices)[IndexOfAdvice(old(db.advices), id).value].userId == userId
      && (u.productId.Some? ==> u.productId.value in db.products)
    ensures r.Ok? ==>
      var i := IndexOfAdvice(old(db.advices), id).value;
      && r.value == Revised(old(db.advices)[i], u)
      && db.advices == old(db.advices)[i := r.value]
  {
    var found := IndexOfAdvice(db.advices, id);
    if found.None? {
      return Err(Error(NotFound, AdviceNotFound));
    }
    var i := found.value;
    if db.advices[i].userId != userId {
      return Err(Error(Forbidden, NotAdviceAuthor));
    }
    if u.productId.Some? && u.productId.value !in db.products {
      return Err(Error(InternalServerError, RecordMissing));
    }
    var a := Revised(db.advices[i], u);
    db.advices := db.advices[i := a];
    r := Ok(a);
  }

  /** `deleteAdvice`: the same two guards, then exactly that review is removed. */
  method DeleteAdvice(db: Db, userId: int, id: int) returns (r: Result<Advice>)
    requires db.Valid()
    modifies db`advices
    ensures db.Valid()
    ensures IndexOfAdvice(old(db.advices), id).None? ==> r == Err(Error(NotFound, AdviceNotFound))
    ensures IndexOfAdvice(old(db.advices), id).Some? && old(db.advices)[IndexOfAdvice(old(db.advices), id).value].userId != userId ==>
      r == Err(Error(Forbidden, NotAdviceAuthor))
    ensures r.Err? ==> db.advices == old(db.advices)
    ensures r.Ok? <==> IndexOfAdvice(old(db.advices), id).Some? && old(db.advices)[IndexOfAdvice(old(db.advices), id).value].userId == userId
    ensures r.Ok? ==>
      var i := IndexOfAdvice(old(db.advices), id).value;
      && r.value == old(db.advices)[i]
      && db.advices == old(db.advices)[..i] + old(db.advices)[i + 1..]
      && forall j :: 0 <= j < |db.advices| ==> db.advices[j].id != id
  {
    var found := IndexOfAdvice(db.advices, id);
    if found.None? {
      return Err(Error(NotFound, AdviceNotFound));
    }
    var i := found.value;
    if db.advices[i].userId != userId {
      return Err(Error(Forbidden, NotAdviceAuthor));
    }
    r := Ok(db.advices[i]);
    Removal(db.advices, i, db.nextAdviceId);
    db.advices := db.advices[..i] + db.advices[i + 1..];
  }

  /** Taking one review out keeps the others in creation order, and no other review had
      its id. */
  lemma Removal(rows: seq<Advice>, i: nat, next: int)
    requires i < |rows| && IdsIncreasing(rows)
    requires forall j :: 0 <= j < |rows| ==> 1 <= rows[j].id < next
    ensures var rest := rows[..i] + rows[i + 1..];
      && IdsIncreasing(rest)
      && (forall j :: 0 <= j < |rest| ==> 1 <= rest[j].id < next)
      && (forall j :: 0 <= j < |rest| ==> rest[j].id != rows[i].id)
  {
    var rest := rows[..i] + rows[i + 1..];
    assert forall j :: 0 <= j < |rest| ==> rest[j] == if j < i then rows[j] else rows[j + 1];
  }

  /** One product's reviews, newest first. */
  function ReviewsNewestFirst(rows: seq<Advice>, productId: int): (r: seq<Advice>)
    ensures forall a :: a in r <==> a in rows && a.productId == productId
    ensures |r| <= |rows|
    decreases |rows|
  {
    if rows == [] then []
    else
      var rest := ReviewsNewestFirst(rows[1..], productId);
      assert forall a :: a in rows <==> a == rows[0] || a in rows[1..];
      if rows[0].productId == productId then rest + [rows[0]] else rest
  }

  /** Over a table in creation order the listing is strictly newest first. */
  lemma {:induction false} ReviewsAreNewestFirst(rows: seq<Advice>, productId: int)
    requires IdsIncreasing(rows)
    ensures IdsDecreasing(ReviewsNewestFirst(rows, productId))
    decreases |rows|
  {
    if rows != [] {
      ReviewsAreNewestFirst(rows[1..], productId);
      var rest := ReviewsNewestFirst(rows[1..], productId);
      forall k | 0 <= k < |rest| ensures rest[k].id > rows[0].id {
        assert rest[k] in rows[1..];
        var j :| 0 <= j < |rows[1..]| && rows[1..][j] == rest[k];
        assert rows[j + 1] == rest[k];
      }
    }
  }

  /** `getAdvicesByProduct`: NotFound for a missing product, otherwise its reviews only,
      newest first. */
  method GetAdvicesByProduct(db: Db, productId: int) returns (r: Result<seq<Advice>>)
    requires db.Valid()
    ensures productId !in db.products ==> r == Err(Error(NotFound, ProductNotFound))
    ensures productId in db.products ==> r == Ok(ReviewsNewestFirst(db.advices, productId))
    ensures r.Ok? ==> IdsDecreasing(r.value)
  {
    if productId !in db.products {
      return Err(Error(NotFound, ProductNotFound));
    }
    ReviewsAreNewestFirst(db.advices, productId);
    r := Ok(ReviewsNewestFirst(db.advices, productId));
  }
}
