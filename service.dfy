/** The state-changing endpoints taken together, served one request at a time:
    the properties that hold of every handler (the admin gate comes first, a
    failure leaves the tables alone, the database invariant holds) and of
    every sequence of requests (an order is accepted at most once). */
module Service {
  import opened Errors
  import opened Auth
  import opened Schema
  import opened UserRoutes
  import opened CategoryRoutes
  import opened ProductRoutes
  import opened OrderRoutes

  /** A request to one of the endpoints that write. */
  datatype Request =
    | SignupCall(signup: SignupRequest)
    | AddCategoryCall(addCategory: AddCategoryRequest)
    | UpdateCategoryCall(updateCategory: UpdateCategoryRequest)
    | DeleteCategoryCall(deleteCategory: DeleteCategoryRequest)
    | AddProductCall(addProduct: AddProductRequest)
    | UpdateProductCall(updateProduct: UpdateProductRequest)
    | DeleteProductCall(deleteProduct: DeleteProductRequest)
    | PlaceOrderCall(placeOrder: PlaceOrderRequest)
    | AcceptOrderCall(acceptOrder: AcceptOrderRequest)

  /** The library functions the handlers call: bcrypt's hash, and JWT decoding. */
  datatype Oracles = Oracles(hash: Hasher, decode: Decoder)

  /** What a request did: the error it failed with, if any, and the tables after it. */
  datatype Effect = Effect(failure: Option<Error>, db: Db)

  function EffectOf<T>(s: Step<T>): Effect
  {
    Effect(if s.result.Err? then Some(s.result.error) else None, s.db)
  }

  function Dispatch(db: Db, env: Oracles, req: Request): Effect
  {
    match req
    case SignupCall(r) => EffectOf(Signup(db, r, env.hash))
    case AddCategoryCall(r) => EffectOf(AddCategory(db, r, env.decode))
    case UpdateCategoryCall(r) => EffectOf(UpdateCategory(db, r, env.decode))
    case DeleteCategoryCall(r) => EffectOf(DeleteCategory(db, r, env.decode))
    case AddProductCall(r) => EffectOf(AddProduct(db, r, env.decode))
    case UpdateProductCall(r) => EffectOf(UpdateProduct(db, r, env.decode))
    case DeleteProductCall(r) => EffectOf(DeleteProduct(db, r, env.decode))
    case PlaceOrderCall(r) => EffectOf(PlaceOrder(db, r))
    case AcceptOrderCall(r) => EffectOf(AcceptOrder(db, r, env.decode))
  }

  /** The tables after serving `reqs` in order, starting from `db`. */
  function Run(db: Db, env: Oracles, reqs: seq<Request>): Db
  {
    if reqs == [] then db
    else Dispatch(Run(db, env, reqs[..|reqs| - 1]), env, reqs[|reqs| - 1]).db
  }

  predicate AdminGated(req: Request)
  {
    !req.SignupCall? && !req.PlaceOrderCall?
  }

  function TokenOf(req: Request): string
    requires AdminGated(req)
  {
    match req
    case AddCategoryCall(r) => r.token
    case UpdateCategoryCall(r) => r.token
    case DeleteCategoryCall(r) => r.token
    case AddProductCall(r) => r.token
    case UpdateProductCall(r) => r.token
    case DeleteProductCall(r) => r.token
    case AcceptOrderCall(r) => r.token
  }

  /** The action each admin-only handler names in its Forbidden message. */
  function ActionOf(req: Request): string
    requires AdminGated(req)
  {
    match req
    case AddCategoryCall(_) => "add categories"
    case UpdateCategoryCall(_) => "update categories"
    case DeleteCategoryCall(_) => "delete categories"
    case AddProductCall(_) => "add products"
    case UpdateProductCall(_) => "update products"
    case DeleteProductCall(_) => "delete products"
    case AcceptOrderCall(_) => "accept orders"
  }

  // ---------------------------------------------------------------------
  // Per-request properties

  /** Every admin-only handler validates the token and checks the admin flag
      before it reads any table: a caller who is not an admin gets an answer
      that depends on the token alone (the validation error, or Forbidden for
      a valid non-admin token), whatever the tables hold, and nothing changes. */
  lemma GateRunsFirst(db1: Db, db2: Db, env: Oracles, req: Request)
    requires AdminGated(req) && !IsAdminToken(TokenOf(req), env.decode)
    ensures Dispatch(db1, env, req).db == db1
    ensures Dispatch(db1, env, req).failure == Dispatch(db2, env, req).failure
    ensures CurrentUser(TokenOf(req), env.decode).Err? ==>
              Dispatch(db1, env, req).failure == Some(CurrentUser(TokenOf(req), env.decode).error)
    ensures CurrentUser(TokenOf(req), env.decode).Ok? ==>
              Dispatch(db1, env, req).failure == Some(Forbidden("Only admins can " + ActionOf(req)))
  {
  }

  /** On every failure nothing changes, with one exception: `update_product`
      with an empty category name keeps its price and stock write, then fails
      with a 500. */
  lemma FailureChangesNothing(db: Db, env: Oracles, req: Request)
    requires Valid(db) && Dispatch(db, env, req).failure.Some?
    ensures Dispatch(db, env, req).db == db
            || (req.UpdateProductCall? && req.updateProduct.categoryName == ""
                && Dispatch(db, env, req).failure == Some(Internal(None)))
  {
    if req.AddProductCall? {
      AddProductFailureChangesNothing(db, req.addProduct, env.decode);
    }
  }

  lemma DispatchPreservesValid(db: Db, env: Oracles, req: Request)
    requires Valid(db)
    ensures Valid(Dispatch(db, env, req).db)
  {
    match req
    case SignupCall(r) => SignupPreservesValid(db, r, env.hash);
    case AddCategoryCall(r) => AddCategoryPreservesValid(db, r, env.decode);
    case UpdateCategoryCall(r) => UpdateCategoryPreservesValid(db, r, env.decode);
    case DeleteCategoryCall(r) => DeleteCategoryPreservesValid(db, r, env.decode);
    case AddProductCall(r) => AddProductPreservesValid(db, r, env.decode);
    case UpdateProductCall(r) => UpdateProductPreservesValid(db, r, env.decode);
    case DeleteProductCall(r) => DeleteProductPreservesValid(db, r, env.decode);
    case PlaceOrderCall(r) => PlaceOrderPreservesValid(db, r);
    case AcceptOrderCall(r) => AcceptOrderPreservesValid(db, r, env.decode);
  }

  /** No request turns an accepted order back or removes it. */
  lemma DispatchKeepsAccepted(db: Db, env: Oracles, req: Request)
    requires Valid(db)
    ensures AcceptedKept(db, Dispatch(db, env, req).db)
  {
    if req.AddProductCall? {
      UpsertCategoryByName(db, req.addProduct.categoryName);
    } else if req.UpdateProductCall? && req.updateProduct.categoryName != "" {
      UpsertCategoryByName(db, req.updateProduct.categoryName);
    }
  }

  /** True when `req` is a successful accept of order `id` in state `db`. */
  predicate Accepts(db: Db, env: Oracles, req: Request, id: int)
  {
    req.AcceptOrderCall? && req.acceptOrder.orderId == id && Dispatch(db, env, req).failure.None?
  }

  // ---------------------------------------------------------------------
  // Properties of request sequences

  lemma RunStep(db: Db, env: Oracles, reqs: seq<Request>, i: nat)
    requires i < |reqs|
    ensures Run(db, env, reqs[..i + 1]) == Dispatch(Run(db, env, reqs[..i]), env, reqs[i]).db
  {
    assert reqs[..i + 1][..i] == reqs[..i];
  }

  /** The database invariant holds after any sequence of requests. */
  lemma {:induction false} RunPreservesValid(db: Db, env: Oracles, reqs: seq<Request>)
    requires Valid(db)
    ensures Valid(Run(db, env, reqs))
  {
    if reqs != [] {
      RunPreservesValid(db, env, reqs[..|reqs| - 1]);
      DispatchPreservesValid(Run(db, env, reqs[..|reqs| - 1]), env, reqs[|reqs| - 1]);
    }
  }

  /** The `j`-th request keeps every order accepted before it accepted. */
  lemma StepKeepsAccepted(db: Db, env: Oracles, reqs: seq<Request>, j: nat)
    requires Valid(db) && 0 < j <= |reqs|
    ensures AcceptedKept(Run(db, env, reqs[..j - 1]), Run(db, env, reqs[..j]))
  {
    RunPreservesValid(db, env, reqs[..j - 1]);
    DispatchKeepsAccepted(Run(db, env, reqs[..j - 1]), env, reqs[j - 1]);
    RunStep(db, env, reqs, j - 1);
  }

  lemma AcceptedKeptTrans(a: Db, b: Db, c: Db)
    requires AcceptedKept(a, b) && AcceptedKept(b, c)
    ensures AcceptedKept(a, c)
  {
  }

  /** An order accepted after the first `i` requests is still accepted after
      the first `j`. */
  lemma {:induction false} AcceptedStaysAccepted(db: Db, env: Oracles, reqs: seq<Request>, i: nat, j: nat)
    requires Valid(db) && i <= j <= |reqs|
    ensures AcceptedKept(Run(db, env, reqs[..i]), Run(db, env, reqs[..j]))
    decreases j
  {
    if i < j {
      AcceptedStaysAccepted(db, env, reqs, i, j - 1);
      StepKeepsAccepted(db, env, reqs, j);
      AcceptedKeptTrans(Run(db, env, reqs[..i]), Run(db, env, reqs[..j - 1]), Run(db, env, reqs[..j]));
    }
  }

  /** In any sequence of requests served one after the other, at most one
      accept of a given order succeeds. */
  lemma AcceptedAtMostOnce(db: Db, env: Oracles, reqs: seq<Request>, i: nat, j: nat, id: int)
    requires Valid(db) && i < j < |reqs|
    requires Accepts(Run(db, env, reqs[..i]), env, reqs[i], id)
    ensures !Accepts(Run(db, env, reqs[..j]), env, reqs[j], id)
  {
    var before := Run(db, env, reqs[..i]);
    RunStep(db, env, reqs, i);
    AcceptDecrementsStock(before, reqs[i].acceptOrder, env.decode);
    AcceptedStaysAccepted(db, env, reqs, i + 1, j);
  }

  // ---------------------------------------------------------------------
  // A worked example

  /** The tables after each step of the walkthrough below. */
  const BooksAdded := Empty.(categories := map[1 := Category("Books")], nextCategory := 2)
  const AtlasAdded := BooksAdded.(products := map[1 := Product("Atlas", Some(1), 9.99, 3)], nextProduct := 2)
  const OrderPlaced := AtlasAdded.(orders := map[1 := Order(1, 2, Pending)], nextOrder := 2)

  lemma AddBooks(token: string, decode: Decoder)
    requires IsAdminToken(token, decode)
    ensures AddCategory(Empty, AddCategoryRequest("Books", token), decode) == Step(Ok("Books"), BooksAdded)
    ensures ListCategories(BooksAdded) == [CategoryView(1, "Books")]
  {
    assert AscendingKeys(BooksAdded.categories, 0, 2) == [1];
  }

  lemma AddAtlas(token: string, decode: Decoder)
    requires IsAdminToken(token, decode)
    ensures AddProduct(BooksAdded, AddProductRequest("Atlas", "Books", 9.99, 3, token), decode) == Step(Ok("Atlas"), AtlasAdded)
    ensures ListProducts(AtlasAdded) == [ProductView(1, "Atlas", "Books", 9.99, 3)]
  {
    assert CategoryNamed(BooksAdded, "Books") == Some(1);
    assert ProductNamedIn(BooksAdded, "Atlas", 1) == None;
    assert AscendingKeys(AtlasAdded.products, 0, 2) == [1];
    assert [1][1..] == [];
    assert Joined(AtlasAdded, [1]) == [ViewOf(AtlasAdded, 1)] + Joined(AtlasAdded, []);
  }

  lemma PlaceAtlas()
    ensures PlaceOrder(AtlasAdded, PlaceOrderRequest("Atlas", 2)) == Step(Ok(1), OrderPlaced)
  {
    assert ProductNamed(AtlasAdded, "Atlas") == Some(1);
  }

  /** From empty tables, with an admin token: add category "Books"; add
      product "Atlas" in it at 9.99 with stock 3; place an order for 2 (it is
      Pending); accept it: the stock becomes 1 and the order Accepted. */
  lemma BooksWalkthrough(token: string, decode: Decoder, email: string)
    requires token != [] && decode(token) == Decoded(Claims(email, true))
    ensures var s1 := AddCategory(Empty, AddCategoryRequest("Books", token), decode);
      var s2 := AddProduct(s1.db, AddProductRequest("Atlas", "Books", 9.99, 3, token), decode);
      var s3 := PlaceOrder(s2.db, PlaceOrderRequest("Atlas", 2));
      var s4 := AcceptOrder(s3.db, AcceptOrderRequest(1, token), decode);
      && s1.result == Ok("Books")
      && ListCategories(s1.db) == [CategoryView(1, "Books")]
      && s2.result == Ok("Atlas")
      && ListProducts(s2.db) == [ProductView(1, "Atlas", "Books", 9.99, 3)]
      && s3.result == Ok(1)
      && s3.db.orders[1] == Order(1, 2, Pending)
      && s4.result == Ok(1)
      && s4.db.orders[1].status == Accepted
      && s4.db.products[1].stock == 1
  {
    AddBooks(token, decode);
    AddAtlas(token, decode);
    PlaceAtlas();
  }
}
