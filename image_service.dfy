/** Where an uploaded image is recorded: the stored path and the one row that points to it. */
module ImageService {
  import opened Common
  import opened Store

  /** `products` for a product image, `profiles` for anything else. */
  function Folder(kind: string): (f: string)
    ensures f == "products" <==> kind == "product"
    ensures f == "profiles" <==> kind != "product"
  {
    if kind == "product" then "products" else "profiles"
  }

  /** The path stored and returned for an uploaded file. */
  function ImagePath(kind: string, fileName: string): string
  {
    "uploads/" + Folder(kind) + "/" + fileName
  }

  /** The path reads back as its three parts: the `uploads/` root, the folder, and the file
      name after the folder's `/`. */
  lemma ImagePathParts(kind: string, fileName: string)
    ensures var p := ImagePath(kind, fileName);
      && |p| == 17 + |fileName|
      && p[..8] == "uploads/"
      && p[8..16] == Folder(kind)
      && p[16] == '/'
      && p[17..] == fileName
  {
    assert |Folder(kind)| == 8;
  }

  /** Different file names are stored under different paths, and a product image never
      shares a path with a profile image. */
  lemma ImagePathInjective(k1: string, f1: string, k2: string, f2: string)
    requires ImagePath(k1, f1) == ImagePath(k2, f2)
    ensures f1 == f2 && (k1 == "product" <==> k2 == "product")
  {
    ImagePathParts(k1, f1);
    ImagePathParts(k2, f2);
  }

  /** `saveImage`: a profile image is recorded on the caller's user row, a product image on
      the product named by a non-zero `entityId`; anything else records nothing. The path is
      returned either way; a row that does not exist fails inside the update. */
  method SaveImage(db: Db, kind: string, fileName: string, userId: int, entityId: Option<int>) returns (r: Result<string>)
    requires db.Valid()
    modifies db`users, db`products
    ensures db.Valid()
    ensures r.Ok? ==> r.value == ImagePath(kind, fileName)
    ensures r.Err? ==> r.error == Error(InternalServerError, RecordMissing) && db.users == old(db.users) && db.products == old(db.products)
    ensures kind == "profile" ==>
      && db.products == old(db.products)
      && (r.Ok? <==> userId in old(db.users))
      && (r.Ok? ==> db.users == old(db.users)[userId := old(db.users)[userId].(profileImagePath := Some(ImagePath(kind, fileName)))])
    ensures kind == "product" && entityId.Some? && entityId.value != 0 ==>
      && db.users == old(db.users)
      && (r.Ok? <==> entityId.value in old(db.products))
      && (r.Ok? ==> db.products == old(db.products)[entityId.value := old(db.products)[entityId.value].(imagePath := Some(ImagePath(kind, fileName)))])
    ensures kind != "profile" && !(kind == "product" && entityId.Some? && entityId.value != 0) ==>
      r.Ok? && db.users == old(db.users) && db.products == old(db.products)
  {
    var path := ImagePath(kind, fileName);
    if kind == "profile" {
      if userId !in db.users {
        return Err(Error(InternalServerError, RecordMissing));
      }
      db.users := db.users[userId := db.users[userId].(profileImagePath := Some(path))];
    } else if kind == "product" && entityId.Some? && entityId.value != 0 {
      var p := entityId.value;
      if p !in db.products {
        return Err(Error(InternalServerError, RecordMissing));
      }
      db.products := db.products[p := db.products[p].(imagePath := Some(path))];
    }
    r := Ok(path);
  }
}
