/** The product table's create/read/update/delete operations and their existence checks. */
module ProductService {
  import opened Common
  import opened Store
  import ProductSearch

  /** A product as the service returns it: its row and the mean rating of its reviews. */
  datatype ProductView = ProductView(id: int, product: Product, averageRating: Option<real>)

  /** The requested changes of `updateProduct`; an absent field is left as it is. */
  datatype ProductUpdate = ProductUpdate(
    name: Option<string>, description: Option<string>, price: Option<real>,
    imagePath: Option<string>, category: Option<string>)

  /** Some category carries this exact name. */
  ghost predicate HasCategoryNamed(categories: map<int, Category>, name: string)
  {
    exists c :: c in categories && categories[c].name == name
  }

  /** The ratings of one product's reviews, in review order. */
  function RatingsOf(advices: seq<Advice>, productId: int): (r: seq<int>)
    ensures |r| <= |advices|
    ensures r == [] <==> forall i :: 0 <= i < |advices| ==> advices[i].productId != productId
    ensures forall k :: 0 <= k < |r| ==>
      exists i :: 0 <= i < |advices| && advices[i].productId == productId && advices[i].rating == r[k]
    ensures forall i :: 0 <= i < |advices| && advices[i].productId == productId ==> advices[i].rating in r
    decreases |advices|
  {
    if advices == [] then []
    else
      var rest := RatingsOf(advices[1..], productId);
      assert forall k :: 0 <= k < |rest| ==>
        exists i :: 0 <= i < |advices| && advices[i].productId == productId && advices[i].rating == rest[k] by {
        forall k | 0 <= k < |rest|
          ensures exists i :: 0 <= i < |advices| && advices[i].productId == productId && advices[i].rating == rest[k]
        {
          var i :| 0 <= i < |advices[1..]| && advices[1..][i].productId == productId && advices[1..][i].rating == rest[k];
          assert advices[i + 1] == advices[1..][i];
        }
      }
      assert forall i :: 1 <= i < |advices| ==> advices[i] == advices[1..][i - 1];
      if advices[0].productId == productId then [advices[0].rating] + rest else rest
  }

  /** The ratings of two stretches of reviews are those of each, in order, and one review
      contributes its rating iff it is about the product: one rating per review of the
      product, in review order. */
  lemma {:induction false} RatingsOfAppend(a: seq<Advice>, b: seq<Advice>, x: Advice, productId: int)
    ensures RatingsOf(a + b, productId) == RatingsOf(a, productId) + RatingsOf(b, productId)
    ensures RatingsOf([x], productId) == if x.productId == productId then [x.rating] else []
    decreases |a|
  {
    RatingsOfOne(x, productId);
    if a == [] {
      assert a + b == b;
    } else {
      var ab := a + b;
      assert ab[0] == a[0];
      assert ab[1..] == a[1..] + b;
      RatingsOfAppend(a[1..], b, x, productId);
      RatingsOfCons(ab, productId);
      RatingsOfCons(a, productId);
      var h := if a[0].productId == productId then [a[0].rating] else [];
      Associate(h, RatingsOf(a[1..], productId), RatingsOf(b, productId));
    }
  }

  lemma Associate(h: seq<int>, x: seq<int>, y: seq<int>)
    ensures h + (x + y) == (h + x) + y
  {
  }

  lemma RatingsOfCons(advices: seq<Advice>, productId: int)
    requires advices != []
    ensures RatingsOf(advices, productId)
      == (if advices[0].productId == productId then [advices[0].rating] else []) + RatingsOf(advices[1..], productId)
  {
  }

  lemma RatingsOfOne(x: Advice, productId: int)
    ensures RatingsOf([x], productId) == if x.productId == productId then [x.rating] else []
  {
    assert [x][1..] == [];
  }

  /** The view of a stored product, with its average rating over the review table. */
  function ViewOf(db: Db, id: int): ProductView
    reads db
    requires id in db.products
  {
    ProductView(id, db.products[id], ProductSearch.AverageRating(RatingsOf(db.advices, id)))
  }

  /** A product has an average rating exactly when it has reviews, and with reviews rated
      1 to 5 that average lies between 1 and 5. */
  lemma ViewRatingMeaning(db: Db, id: int)
    requires id in db.products
    requires forall i :: 0 <= i < |db.advices| ==> 1 <= db.advices[i].rating <= 5
    ensures ViewOf(db, id).averageRating.None? <==> forall i :: 0 <= i < |db.advices| ==> db.advices[i].productId != id
    ensures ViewOf(db, id).averageRating.Some? ==> 1.0 <= ViewOf(db, id).averageRating.value <= 5.0
  {
    var rs := RatingsOf(db.advices, id);
    if rs != [] {
      forall k | 0 <= k < |rs| ensures 1 <= rs[k] <= 5 {
        var i :| 0 <= i < |db.advices| && db.advices[i].productId == id && db.advices[i].rating == rs[k];
      }
      ProductSearch.AverageWithinBounds(rs, 1, 5);
    }
  }

  /** `getAllProducts`: every product, each with its rating. */
  method GetAllProducts(db: Db) returns (r: map<int, ProductView>)
    ensures r.Keys == db.products.Keys
    ensures forall k :: k in r ==> k in db.products && r[k] == ViewOf(db, k)
  {
    r := map k | k in db.products :: ViewOf(db, k);
  }

  /** `createProduct`: the category is found by its name (NotFound otherwise) and the new
      row is linked to it. */
  method CreateProduct(db: Db, name: string, description: string, price: real, imagePath: Option<string>, categoryName: string)
    returns (r: Result<int>)
    requires db.Valid()
    modifies db`products, db`nextProductId
    ensures db.Valid()
    ensures r.Err? ==> r == Err(Error(NotFound, CategoryNameNotFound)) && db.products == old(db.products) && db.nextProductId == old(db.nextProductId)
    ensures r.Ok? <==> HasCategoryNamed(db.categories, categoryName)
    ensures r.Ok? ==>
      && r.value == old(db.nextProductId) && r.value !in old(db.products)
      && db.nextProductId == old(db.nextProductId) + 1
      && exists c :: c in db.categories && db.categories[c].name == categoryName
           && db.products == old(db.products)[r.value := Product(name, description, price, imagePath, c)]
  {
    if !exists c :: c in db.categories && db.categories[c].name == categoryName {
      return Err(Error(NotFound, CategoryNameNotFound));
    }
    var c :| c in db.categories && db.categories[c].name == categoryName;
    var id := db.nextProductId;
    db.products := db.products[id := Product(name, description, price, imagePath, c)];
    db.nextProductId := id + 1;
    r := Ok(id);
  }

  /** `getProductById`: NotFound for a missing id, otherwise the product with its rating. */
  method GetProductById(db: Db, id: int) returns (r: Result<ProductView>)
    ensures id !in db.products ==> r == Err(Error(NotFound, ProductNotFound))
    ensures id in db.products ==> r.Ok? && r.value.id == id && r.value.product == db.products[id]
    ensures r.Ok? ==> r.value.averageRating == ProductSearch.AverageRating(RatingsOf(db.advices, id))
  {
    if id !in db.products {
      return Err(Error(NotFound, ProductNotFound));
    }
    r := Ok(ViewOf(db, id));
  }

  /** The row after an update: every given field replaces the stored one, and the category
      changes only when one was looked up. */
  function Patched(p: Product, u: ProductUpdate, categoryId: Option<int>): (q: Product)
    ensures q.name == u.name.GetOr(p.name) && q.description == u.description.GetOr(p.description)
    ensures q.price == u.price.GetOr(p.price) && q.categoryId == categoryId.GetOr(p.categoryId)
    ensures q.imagePath == (if u.imagePath.Some? then u.imagePath else p.imagePath)
  {
    Product(
      u.name.GetOr(p.name), u.description.GetOr(p.description), u.price.GetOr(p.price),
      if u.imagePath.Some? then u.imagePath else p.imagePath,
      categoryId.GetOr(p.categoryId))
  }

  /** A category name is sought only when it is given and non-empty. */
  predicate SeeksCategory(u: ProductUpdate)
  {
    u.category.Some? && u.category.value != ""
  }

  /** `updateProduct`: NotFound for a missing product, then NotFound for a category name
      no category has; otherwise the given fields are written. */
  method UpdateProduct(db: Db, id: int, u: ProductUpdate) returns (r: Result<ProductView>)
    requires db.Valid()
    modifies db`products
    ensures db.Valid()
    ensures id !in old(db.products) ==> r == Err(Error(NotFound, ProductNotFound))
    ensures id in old(db.products) && SeeksCategory(u) && !HasCategoryNamed(db.categories, u.category.value) ==>
      r == Err(Error(NotFound, CategoryNameNotFound))
    ensures r.Err? ==> db.products == old(db.products)
    ensures r.Ok? <==> id in old(db.products) && (SeeksCategory(u) ==> HasCategoryNamed(db.categories, u.category.value))
    ensures r.Ok? && !SeeksCategory(u) ==>
      db.products == old(db.products)[id := Patched(old(db.products)[id], u, None)]
    ensures r.Ok? && SeeksCategory(u) ==>
      exists c :: c in db.categories && db.categories[c].name == u.category.value
        && db.products == old(db.products)[id := Patched(old(db.products)[id], u, Some(c))]
    ensures r.Ok? ==> id in db.products && r.value == ViewOf(db, id)
  {
    if id !in db.products {
      return Err(Error(NotFound, ProductNotFound));
    }
    var categoryId: Option<int> := None;
    if SeeksCategory(u) {
      if !exists c :: c in db.categories && db.categories[c].name == u.category.value {
        return Err(Error(NotFound, CategoryNameNotFound));
      }
      var c :| c in db.categories && db.categories[c].name == u.category.value;
      categoryId := Some(c);
    }
    db.products := db.products[id := Patched(db.products[id], u, categoryId)];
    r := Ok(ViewOf(db, id));
  }

  /** `deleteProduct`: NotFound for a missing product, otherwise its row is removed. */
  method DeleteProduct(db: Db, id: int) returns (r: Result<()>)
    requires db.Valid()
    modifies db`products
    ensures db.Valid()
    ensures id !in old(db.products) ==> r == Err(Error(NotFound, ProductNotFound)) && db.products == old(db.products)
    ensures id in old(db.products) ==> r == Ok(()) && db.products == old(db.products) - {id}
  {
    if id !in db.products {
      return Err(Error(NotFound, ProductNotFound));
    }
    db.products := db.products - {id};
    r := Ok(());
  }

  /** `getProductsByCategory`: the category's products, each with its rating, keyed by
      id; no product at all is NotFound. */
  method GetProductsByCategory(db: Db, categoryId: int) returns (r: Result<map<int, ProductView>>)
    ensures r.Err? <==> forall k :: k in db.products ==> db.products[k].categoryId != categoryId
    ensures r.Err? ==> r.error == Error(NotFound, NoProductsInCategory)
    ensures r.Ok? ==>
      && (forall k :: k in r.value <==> k in db.products && db.products[k].categoryId == categoryId)
      && (forall k :: k in r.value ==> k in db.products && r.value[k] == ViewOf(db, k))
  {
    var found := map k | k in db.products && db.products[k].categoryId == categoryId :: ViewOf(db, k);
    if found == map[] {
      assert forall k :: k in db.products ==> db.products[k].categoryId != categoryId by {
        forall k | k in db.products ensures db.products[k].categoryId != categoryId {
          assert k !in found;
        }
      }
      return Err(Error(NotFound, NoProductsInCategory));
    }
    r := Ok(found);
  }
}
