/** Category administration (routes/category.py): add, rename and delete by
    name behind the admin gate, and the public listing. */
module CategoryRoutes {
  import opened Errors
  import opened Auth
  import opened Schema

  datatype AddCategoryRequest = AddCategoryRequest(name: string, token: string)
  datatype UpdateCategoryRequest = UpdateCategoryRequest(oldName: string, newName: string, token: string)
  datatype DeleteCategoryRequest = DeleteCategoryRequest(name: string, token: string)

  datatype CategoryView = CategoryView(id: int, name: string)

  const CategoryExists := Duplicate("Category already exists")
  const CategoryMissing := NotFound("Category not found")
  /** The handler does not check a new name against the others: the column's
      unique constraint fails the commit, an uncaught 500. */
  const NameTaken := Internal(None)

  /** `add_category`. */
  function AddCategory(db: Db, req: AddCategoryRequest, decode: Decoder): (s: Step<string>)
    ensures s.db.(categories := db.categories, nextCategory := db.nextCategory) == db
    ensures s.result.Ok? ==> s.result.value == req.name
    ensures s.result.Err? ==> s.db == db
  {
    match RequireAdmin(req.token, decode, "add categories")
    case Err(e) => Step(Err(e), db)
    case Ok(_) =>
      if CategoryNamed(db, req.name).Some? then Step(Err(CategoryExists), db)
      else Step(Ok(req.name), InsertCategory(db, req.name))
  }

  /** `update_category`: renames the row in place, so its key is kept. */
  function UpdateCategory(db: Db, req: UpdateCategoryRequest, decode: Decoder): (s: Step<string>)
    ensures s.db.(categories := db.categories) == db
    ensures s.db.categories.Keys == db.categories.Keys
    ensures s.result.Err? ==> s.db == db
  {
    match RequireAdmin(req.token, decode, "update categories")
    case Err(e) => Step(Err(e), db)
    case Ok(_) =>
      match CategoryNamed(db, req.oldName)
      case None => Step(Err(CategoryMissing), db)
      case Some(k) =>
        var holder := CategoryNamed(db, req.newName);
        if holder.Some? && holder.value != k then Step(Err(NameTaken), db)
        else Step(Ok(req.newName), db.(categories := db.categories[k := db.categories[k].(name := req.newName)]))
  }

  /** The products table after a category is deleted: with no delete cascade
      on `Category.products`, the ORM sets the children's `category_id` to NULL. */
  function Detached(products: map<int, Product>, categoryId: int): (r: map<int, Product>)
    ensures r.Keys == products.Keys
    ensures forall k :: k in r ==>
      && r[k].categoryId != Some(categoryId)
      && r[k] == products[k].(categoryId := r[k].categoryId)
      && (products[k].categoryId != Some(categoryId) ==> r[k] == products[k])
    ensures forall k :: k in r && products[k].categoryId == Some(categoryId) ==> r[k].categoryId == None
  {
    map k | k in products ::
      if products[k].categoryId == Some(categoryId) then products[k].(categoryId := None) else products[k]
  }

  /** `delete_category`. */
  function DeleteCategory(db: Db, req: DeleteCategoryRequest, decode: Decoder): (s: Step<()>)
    ensures s.db.(categories := db.categories, products := db.products) == db
    ensures s.db.categories.Keys <= db.categories.Keys && s.db.products.Keys == db.products.Keys
    ensures s.result.Err? ==> s.db == db
  {
    match RequireAdmin(req.token, decode, "delete categories")
    case Err(e) => Step(Err(e), db)
    case Ok(_) =>
      match CategoryNamed(db, req.name)
      case None => Step(Err(CategoryMissing), db)
      case Some(k) =>
        Step(Ok(()), db.(categories := db.categories - {k}, products := Detached(db.products, k)))
  }

  /** `list_categories`: `{id, name}` for every row, by ascending key. */
  function ListCategories(db: Db): (r: seq<CategoryView>)
    ensures forall i :: 0 <= i < |r| ==> r[i].id in db.categories && r[i].name == db.categories[r[i].id].name
  {
    var ids := AscendingKeys(db.categories, 0, db.nextCategory);
    seq(|ids|, i requires 0 <= i < |ids| => CategoryView(ids[i], db.categories[ids[i]].name))
  }

  // ---------------------------------------------------------------------
  // Add

  /** An admin adding a name no category holds succeeds. */
  lemma AddCategorySucceedsWhenNew(db: Db, req: AddCategoryRequest, decode: Decoder)
    requires Valid(db) && IsAdminToken(req.token, decode)
    requires forall k :: k in db.categories ==> db.categories[k].name != req.name
    ensures AddCategory(db, req, decode).result == Ok(req.name)
  {
  }

  /** An existing name is refused, and nothing changes. */
  lemma AddCategoryRejectsDuplicate(db: Db, req: AddCategoryRequest, decode: Decoder, k: int)
    requires Valid(db) && IsAdminToken(req.token, decode)
    requires k in db.categories && db.categories[k].name == req.name
    ensures AddCategory(db, req, decode) == Step(Err(CategoryExists), db)
  {
  }

  /** A successful add inserts exactly one category, with that name, under a
      fresh key; nothing else changes. */
  lemma AddCategoryInsertsOne(db: Db, req: AddCategoryRequest, decode: Decoder)
    requires Valid(db) && AddCategory(db, req, decode).result.Ok?
    ensures var s := AddCategory(db, req, decode);
      && s.result == Ok(req.name)
      && db.nextCategory !in db.categories
      && s.db.categories == db.categories[db.nextCategory := Category(req.name)]
      && s.db.(categories := db.categories, nextCategory := db.nextCategory) == db
  {
  }

  lemma AddCategoryPreservesValid(db: Db, req: AddCategoryRequest, decode: Decoder)
    requires Valid(db)
    ensures Valid(AddCategory(db, req, decode).db)
  {
  }

  // ---------------------------------------------------------------------
  // Rename

  /** Renaming a name no category holds is NotFound, and nothing changes. */
  lemma UpdateCategoryMissing(db: Db, req: UpdateCategoryRequest, decode: Decoder)
    requires Valid(db) && IsAdminToken(req.token, decode)
    requires forall k :: k in db.categories ==> db.categories[k].name != req.oldName
    ensures UpdateCategory(db, req, decode) == Step(Err(CategoryMissing), db)
  {
  }

  /** A successful rename changes only the name of the category that had the
      old name; its key, and so every product's link to it, is kept. A rename
      onto a name another category holds fails and changes nothing. */
  lemma UpdateCategoryRenamesInPlace(db: Db, req: UpdateCategoryRequest, decode: Decoder, k: int)
    requires Valid(db) && IsAdminToken(req.token, decode)
    requires k in db.categories && db.categories[k].name == req.oldName
    ensures var s := UpdateCategory(db, req, decode);
      if exists j :: j in db.categories && j != k && db.categories[j].name == req.newName
      then s == Step(Err(NameTaken), db)
      else
        && s.result == Ok(req.newName)
        && s.db.categories == db.categories[k := Category(req.newName)]
        && s.db.(categories := db.categories) == db
  {
    var holder := CategoryNamed(db, req.newName);
    if holder.Some? && holder.value != k {
      assert db.categories[holder.value].name == req.newName;
    }
  }

  lemma UpdateCategoryPreservesValid(db: Db, req: UpdateCategoryRequest, decode: Decoder)
    requires Valid(db)
    ensures Valid(UpdateCategory(db, req, decode).db)
  {
  }

  // ---------------------------------------------------------------------
  // Delete

  /** Deleting a name no category holds is NotFound, and nothing changes. */
  lemma DeleteCategoryMissing(db: Db, req: DeleteCategoryRequest, decode: Decoder)
    requires Valid(db) && IsAdminToken(req.token, decode)
    requires forall k :: k in db.categories ==> db.categories[k].name != req.name
    ensures DeleteCategory(db, req, decode) == Step(Err(CategoryMissing), db)
  {
  }

  /** Deleting removes exactly the category with that name. Its products stay,
      with no category; no other row changes. */
  lemma DeleteCategoryRemovesExactly(db: Db, req: DeleteCategoryRequest, decode: Decoder, k: int)
    requires Valid(db) && IsAdminToken(req.token, decode)
    requires k in db.categories && db.categories[k].name == req.name
    ensures var s := DeleteCategory(db, req, decode);
      && s.result.Ok?
      && s.db.categories == db.categories - {k}
      && s.db.products.Keys == db.products.Keys
      && (forall j :: j in db.products ==>
            s.db.products[j] == if db.products[j].categoryId == Some(k)
                                then db.products[j].(categoryId := None)
                                else db.products[j])
      && s.db.(categories := db.categories, products := db.products) == db
  {
  }

  lemma DeleteCategoryPreservesValid(db: Db, req: DeleteCategoryRequest, decode: Decoder)
    requires Valid(db)
    ensures Valid(DeleteCategory(db, req, decode).db)
  {
  }

  // ---------------------------------------------------------------------
  // List

  /** The listing holds exactly one entry per stored category, carrying its
      key and name, in ascending key order. */
  lemma ListCategoriesExact(db: Db)
    requires Valid(db)
    ensures var r := ListCategories(db);
      && (forall i :: 0 <= i < |r| ==> r[i].id in db.categories && db.categories[r[i].id].name == r[i].name)
      && (forall i, j :: 0 <= i < j < |r| ==> r[i].id < r[j].id)
      && (forall k :: k in db.categories ==> exists i :: 0 <= i < |r| && r[i].id == k)
  {
    var ids := AscendingKeys(db.categories, 0, db.nextCategory);
    var r := ListCategories(db);
    forall k | k in db.categories
      ensures exists i :: 0 <= i < |r| && r[i].id == k
    {
      assert k in ids;
      var i :| 0 <= i < |ids| && ids[i] == k;
      assert r[i].id == k;
    }
  }
}
