/** Product administration (routes/product.py): add and update with category
    upsert-by-name, delete by key, all behind the admin gate; and the public
    listing joined with the categories. */
module ProductRoutes {
  import opened Errors
  import opened Auth
  import opened Schema

  datatype AddProductRequest = AddProductRequest(name: string, categoryName: string, price: Price, stock: int, token: string)
  datatype UpdateProductRequest = UpdateProductRequest(name: string, categoryName: string, price: Price, stock: int, token: string)
  datatype DeleteProductRequest = DeleteProductRequest(id: int, token: string)

  datatype UpdatedProduct = UpdatedProduct(productName: string, category: string)
  datatype ProductView = ProductView(id: int, name: string, category: string, price: Price, stock: int)

  const ProductExists := Duplicate("Product with this name already exists in this category")
  const ProductMissing := NotFound("Product not found")
  /** Failures no handler code catches, raised as a 500: a foreign key that
      refuses a delete at commit, or the unbound `category` in `update_product`. */
  const Uncaught := Internal(None)

  /** The tables after the category upsert, and the key of the category. */
  datatype Upserted = Upserted(db: Db, id: int)

  /** Upsert-by-name: the lowest-keyed category with that name, or a new one,
      committed at once. Only the categories table can change. */
  function UpsertCategory(db: Db, name: string): (u: Upserted)
    ensures u.id in u.db.categories && u.db.categories[u.id].name == name
    ensures u.db.(categories := db.categories, nextCategory := db.nextCategory) == db
  {
    match CategoryNamed(db, name)
    case Some(k) => Upserted(db, k)
    case None => Upserted(InsertCategory(db, name), db.nextCategory)
  }

  /** `add_product`. The category upsert is committed before the duplicate check. */
  function AddProduct(db: Db, req: AddProductRequest, decode: Decoder): (s: Step<string>)
    ensures s.db.users == db.users && s.db.nextUser == db.nextUser
    ensures s.db.orders == db.orders && s.db.nextOrder == db.nextOrder
    ensures s.result.Ok? ==> s.result.value == req.name
  {
    match RequireAdmin(req.token, decode, "add products")
    case Err(e) => Step(Err(e), db)
    case Ok(_) =>
      var u := UpsertCategory(db, req.categoryName);
      if ProductNamedIn(u.db, req.name, u.id).Some? then Step(Err(ProductExists), u.db)
      else
        var product := Product(req.name, Some(u.id), req.price, req.stock);
        Step(Ok(req.name), u.db.(products := u.db.products[u.db.nextProduct := product], nextProduct := u.db.nextProduct + 1))
  }

  /** `update_product`. The product is found by name alone. With an empty
      category name no `category` is ever bound: price and stock are committed,
      then building the response raises, an uncaught 500. */
  function UpdateProduct(db: Db, req: UpdateProductRequest, decode: Decoder): (s: Step<UpdatedProduct>)
    ensures s.db.(categories := db.categories, nextCategory := db.nextCategory, products := db.products) == db
    ensures s.db.products.Keys == db.products.Keys
    ensures s.result.Ok? ==> s.result.value == UpdatedProduct(req.name, req.categoryName)
  {
    match RequireAdmin(req.token, decode, "update products")
    case Err(e) => Step(Err(e), db)
    case Ok(_) =>
      match ProductNamed(db, req.name)
      case None => Step(Err(ProductMissing), db)
      case Some(k) =>
        if req.categoryName != "" then
          var u := UpsertCategory(db, req.categoryName);
          var product := u.db.products[k].(categoryId := Some(u.id), price := req.price, stock := req.stock);
          Step(Ok(UpdatedProduct(product.name, u.db.categories[u.id].name)), u.db.(products := u.db.products[k := product]))
        else
          var product := db.products[k].(price := req.price, stock := req.stock);
          Step(Err(Uncaught), db.(products := db.products[k := product]))
  }

  /** `delete_product`. The handler does not look at orders; an order that still
      references the product makes the foreign key refuse the delete. */
  function DeleteProduct(db: Db, req: DeleteProductRequest, decode: Decoder): (s: Step<()>)
    ensures s.db.(products := db.products) == db
    ensures s.result.Ok? ==> req.id in db.products && s.db.products == db.products - {req.id}
    ensures s.result.Err? ==> s.db == db
  {
    match RequireAdmin(req.token, decode, "delete products")
    case Err(e) => Step(Err(e), db)
    case Ok(_) =>
      if req.id !in db.products then Step(Err(ProductMissing), db)
      else if OrderFor(db, req.id).Some? then Step(Err(Uncaught), db)
      else Step(Ok(()), db.(products := db.products - {req.id}))
  }

  /** True when product `k` exists and its category does: the inner join keeps it. */
  predicate Joinable(db: Db, k: int)
  {
    && k in db.products
    && db.products[k].categoryId.Some?
    && db.products[k].categoryId.value in db.categories
  }

  /** How the listing shows product `k`: with its category's name. */
  function ViewOf(db: Db, k: int): ProductView
    requires Joinable(db, k)
  {
    var p := db.products[k];
    ProductView(k, p.name, db.categories[p.categoryId.value].name, p.price, p.stock)
  }

  /** The inner join of the products under the keys `ids` with the categories. */
  function Joined(db: Db, ids: seq<int>): (r: seq<ProductView>)
    requires forall i :: 0 <= i < |ids| ==> ids[i] in db.products
    requires forall i, j :: 0 <= i < j < |ids| ==> ids[i] < ids[j]
    ensures forall i :: 0 <= i < |r| ==> r[i].id in ids && Joinable(db, r[i].id) && r[i] == ViewOf(db, r[i].id)
    ensures forall i, j :: 0 <= i < j < |r| ==> r[i].id < r[j].id
    ensures forall k :: k in ids && Joinable(db, k) ==> ViewOf(db, k) in r
  {
    if ids == [] then []
    else if Joinable(db, ids[0]) then [ViewOf(db, ids[0])] + Joined(db, ids[1..])
    else Joined(db, ids[1..])
  }

  /** `list_products`. */
  function ListProducts(db: Db): (r: seq<ProductView>)
    ensures forall i :: 0 <= i < |r| ==> Joinable(db, r[i].id) && r[i] == ViewOf(db, r[i].id)
  {
    Joined(db, AscendingKeys(db.products, 0, db.nextProduct))
  }

  // ---------------------------------------------------------------------
  // Upsert

  /** An existing category is reused and nothing changes; otherwise exactly one
      category with that name is added under a fresh key. */
  lemma UpsertCategoryByName(db: Db, name: string)
    requires Valid(db)
    ensures var u := UpsertCategory(db, name);
      && Valid(u.db)
      && (forall k :: k in db.categories && db.categories[k].name == name ==> u == Upserted(db, k))
      && ((forall k :: k in db.categories ==> db.categories[k].name != name) ==>
            && u.id !in db.categories
            && u.db.categories == db.categories[u.id := Category(name)])
  {
  }

  // ---------------------------------------------------------------------
  // Add

  /** A product with that name already in the named category is refused, and
      nothing changes (the category exists, so the upsert added none). */
  lemma AddProductRejectsDuplicate(db: Db, req: AddProductRequest, decode: Decoder, k: int, c: int)
    requires Valid(db) && IsAdminToken(req.token, decode)
    requires c in db.categories && db.categories[c].name == req.categoryName
    requires k in db.products && db.products[k].name == req.name && db.products[k].categoryId == Some(c)
    ensures AddProduct(db, req, decode) == Step(Err(ProductExists), db)
  {
    UpsertCategoryByName(db, req.categoryName);
  }

  /** An admin add succeeds when no product with that name sits in a category
      with the requested name. */
  lemma AddProductSucceedsWhenNoDuplicate(db: Db, req: AddProductRequest, decode: Decoder)
    requires Valid(db) && IsAdminToken(req.token, decode)
    requires forall k :: k in db.products && db.products[k].name == req.name && db.products[k].categoryId.Some?
                         && db.products[k].categoryId.value in db.categories
                         ==> db.categories[db.products[k].categoryId.value].name != req.categoryName
    ensures AddProduct(db, req, decode).result == Ok(req.name)
  {
    UpsertCategoryByName(db, req.categoryName);
  }

  /** A failed add changes nothing: a category the upsert had to create is
      new, so no product can be in it yet and the duplicate check passes. */
  lemma AddProductFailureChangesNothing(db: Db, req: AddProductRequest, decode: Decoder)
    requires Valid(db) && AddProduct(db, req, decode).result.Err?
    ensures AddProduct(db, req, decode).db == db
  {
    if IsAdminToken(req.token, decode) {
      UpsertCategoryByName(db, req.categoryName);
    }
  }

  /** A successful add leaves a category with the requested name and inserts
      exactly one product, under a fresh key, with the request's name, price,
      stock and that category; users and orders are untouched. */
  lemma AddProductInsertsOne(db: Db, req: AddProductRequest, decode: Decoder)
    requires Valid(db) && AddProduct(db, req, decode).result.Ok?
    ensures var s := AddProduct(db, req, decode);
      && s.result == Ok(req.name)
      && (exists c :: c in s.db.categories && s.db.categories[c].name == req.categoryName
            && s.db.products == db.products[db.nextProduct := Product(req.name, Some(c), req.price, req.stock)])
      && db.nextProduct !in db.products
      && s.db.users == db.users && s.db.orders == db.orders
      && s.db.categories == UpsertCategory(db, req.categoryName).db.categories
      && s.db.nextCategory == UpsertCategory(db, req.categoryName).db.nextCategory
  {
    var u := UpsertCategory(db, req.categoryName);
    assert u.id in u.db.categories && u.db.categories[u.id].name == req.categoryName;
  }

  lemma AddProductPreservesValid(db: Db, req: AddProductRequest, decode: Decoder)
    requires Valid(db)
    ensures Valid(AddProduct(db, req, decode).db)
  {
    if IsAdminToken(req.token, decode) {
      UpsertCategoryByName(db, req.categoryName);
    }
  }

  // ---------------------------------------------------------------------
  // Update

  /** A name no product has is NotFound, and nothing changes. */
  lemma UpdateProductMissing(db: Db, req: UpdateProductRequest, decode: Decoder)
    requires Valid(db) && IsAdminToken(req.token, decode)
    requires forall k :: k in db.products ==> db.products[k].name != req.name
    ensures UpdateProduct(db, req, decode) == Step(Err(ProductMissing), db)
  {
  }

  /** With a category name: the first product with the requested name is moved
      to the upserted category and gets the request's price and stock; every
      other product, the users and the orders are unchanged. */
  lemma UpdateProductWithCategory(db: Db, req: UpdateProductRequest, decode: Decoder)
    requires Valid(db) && IsAdminToken(req.token, decode)
    requires ProductNamed(db, req.name).Some? && req.categoryName != ""
    ensures var k := ProductNamed(db, req.name).value;
      var s := UpdateProduct(db, req, decode);
      && s.result == Ok(UpdatedProduct(req.name, req.categoryName))
      && (exists c :: c in s.db.categories && s.db.categories[c].name == req.categoryName
            && s.db.products == db.products[k := db.products[k].(categoryId := Some(c), price := req.price, stock := req.stock)])
      && s.db.users == db.users && s.db.orders == db.orders
      && s.db.categories == UpsertCategory(db, req.categoryName).db.categories
      && s.db.nextCategory == UpsertCategory(db, req.categoryName).db.nextCategory
  {
    var u := UpsertCategory(db, req.categoryName);
    assert u.id in u.db.categories && u.db.categories[u.id].name == req.categoryName;
  }

  /** With an empty category name the price and stock are written and kept,
      although the caller receives a 500. */
  lemma UpdateProductWithoutCategory(db: Db, req: UpdateProductRequest, decode: Decoder)
    requires IsAdminToken(req.token, decode)
    requires ProductNamed(db, req.name).Some? && req.categoryName == ""
    ensures var k := ProductNamed(db, req.name).value;
      UpdateProduct(db, req, decode) ==
        Step(Err(Uncaught), db.(products := db.products[k := db.products[k].(price := req.price, stock := req.stock)]))
  {
  }

  lemma UpdateProductPreservesValid(db: Db, req: UpdateProductRequest, decode: Decoder)
    requires Valid(db)
    ensures Valid(UpdateProduct(db, req, decode).db)
  {
    if IsAdminToken(req.token, decode) && req.categoryName != "" {
      UpsertCategoryByName(db, req.categoryName);
    }
  }

  // ---------------------------------------------------------------------
  // Delete

  /** Deleting removes exactly the product with that key, or fails NotFound
      when there is none, or fails with a 500 when an order references it; a
      failure changes nothing. */
  lemma DeleteProductRemovesExactly(db: Db, req: DeleteProductRequest, decode: Decoder)
    requires Valid(db) && IsAdminToken(req.token, decode)
    ensures var s := DeleteProduct(db, req, decode);
      if req.id !in db.products then s == Step(Err(ProductMissing), db)
      else if exists o :: o in db.orders && db.orders[o].productId == req.id then s == Step(Err(Uncaught), db)
      else s == Step(Ok(()), db.(products := db.products - {req.id}))
  {
  }

  lemma DeleteProductPreservesValid(db: Db, req: DeleteProductRequest, decode: Decoder)
    requires Valid(db)
    ensures Valid(DeleteProduct(db, req, decode).db)
  {
  }

  // ---------------------------------------------------------------------
  // List

  /** The listing is the inner join: one entry per product whose category
      exists, carrying that category's name, in ascending key order; products
      without a category are left out. */
  lemma ListProductsIsJoin(db: Db)
    requires Valid(db)
    ensures var r := ListProducts(db);
      && (forall i :: 0 <= i < |r| ==> Joinable(db, r[i].id) && r[i] == ViewOf(db, r[i].id))
      && (forall i, j :: 0 <= i < j < |r| ==> r[i].id < r[j].id)
      && (forall k :: k in db.products && db.products[k].categoryId.Some? ==> ViewOf(db, k) in r)
  {
  }
}
