/** Product categories: listing, creation, rename and removal. */
module CategoryService {
  import opened Common
  import opened Store

  /** Some category carries this exact name. */
  ghost predicate NameInUse(categories: map<int, Category>, name: string)
  {
    exists c :: c in categories && categories[c].name == name
  }

  /** `getAllCategories`: every category, and their number. */
  method GetAllCategories(db: Db) returns (totalResults: nat, categories: map<int, Category>)
    ensures totalResults == |db.categories| && categories == db.categories
  {
    totalResults, categories := |db.categories|, db.categories;
  }

  /** `insertNewCategory`: always writes a new row, even when the name is already in use. */
  method InsertNewCategory(db: Db, name: string, description: Option<string>) returns (id: int)
    requires db.Valid()
    modifies db`categories, db`nextCategoryId
    ensures db.Valid()
    ensures id == old(db.nextCategoryId) && id !in old(db.categories)
    ensures db.categories == old(db.categories)[id := Category(name, description)]
    ensures db.nextCategoryId == old(db.nextCategoryId) + 1
    ensures |db.categories| == |old(db.categories)| + 1
  {
    id := db.nextCategoryId;
    db.categories := db.categories[id := Category(name, description)];
    db.nextCategoryId := id + 1;
  }

  /** `editCategory`: a zero id or an empty name is a BadRequest; a name any category already
      has is Forbidden (the edited category's own name included); a missing row fails inside
      the update. Only the name changes. */
  method EditCategory(db: Db, id: int, name: string) returns (r: Result<Category>)
    requires db.Valid()
    modifies db`categories
    ensures db.Valid()
    ensures id == 0 || name == "" ==> r == Err(Error(BadRequest, MissingFields))
    ensures id != 0 && name != "" && NameInUse(old(db.categories), name) ==> r == Err(Error(Forbidden, NameTaken))
    ensures id != 0 && name != "" && id in old(db.categories) && name == old(db.categories)[id].name ==> r == Err(Error(Forbidden, NameTaken))
    ensures id != 0 && name != "" && !NameInUse(old(db.categories), name) && id !in old(db.categories) ==>
      r == Err(Error(InternalServerError, RecordMissing))
    ensures r.Err? ==> db.categories == old(db.categories)
    ensures r.Ok? <==> id != 0 && name != "" && !NameInUse(old(db.categories), name) && id in old(db.categories)
    ensures r.Ok? ==>
      && r.value == Category(name, old(db.categories)[id].description)
      && db.categories == old(db.categories)[id := r.value]
  {
    if id == 0 || name == "" {
      return Err(Error(BadRequest, MissingFields));
    }
    if exists c :: c in db.categories && db.categories[c].name == name {
      return Err(Error(Forbidden, NameTaken));
    }
    if id !in db.categories {
      return Err(Error(InternalServerError, RecordMissing));
    }
    var c := db.categories[id].(name := name);
    db.categories := db.categories[id := c];
    r := Ok(c);
  }

  /** `deleteCategory`: a zero id is a BadRequest, a missing category Forbidden; otherwise
      the row is removed. */
  method DeleteCategory(db: Db, id: int) returns (r: Result<Category>)
    requires db.Valid()
    modifies db`categories
    ensures db.Valid()
    ensures id == 0 ==> r == Err(Error(BadRequest, MissingId))
    ensures id != 0 && id !in old(db.categories) ==> r == Err(Error(Forbidden, CategoryMissing))
    ensures r.Err? ==> db.categories == old(db.categories)
    ensures r.Ok? <==> id != 0 && id in old(db.categories)
    ensures r.Ok? ==> r.value == old(db.categories)[id] && db.categories == old(db.categories) - {id}
  {
    if id == 0 {
      return Err(Error(BadRequest, MissingId));
    }
    if id !in db.categories {
      return Err(Error(Forbidden, CategoryMissing));
    }
    r := Ok(db.categories[id]);
    db.categories := db.categories - {id};
  }
}
