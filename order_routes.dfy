/** The order lifecycle (routes/order.py), a two-state machine per order:
    Pending, then Accepted. Placing checks stock without reserving it;
    accepting, behind the admin gate, re-checks stock, flips the status and
    takes the quantity off the product's stock in one commit. */
module OrderRoutes {
  import opened Errors
  import opened Auth
  import opened Schema

  datatype PlaceOrderRequest = PlaceOrderRequest(productName: string, quantity: int)
  datatype AcceptOrderRequest = AcceptOrderRequest(orderId: int, token: string)

  datatype OrderView = OrderView(id: int, productName: string, quantity: int, status: OrderStatus)

  const StockShort := InsufficientStock("Not enough stock available")
  const OrderNotPending := NotFound("Order not found or already processed")
  const OrderProductMissing := NotFound("Product not found")
  const StockShortAtAccept := InsufficientStock("Not enough stock to fulfill this order")

  /** The error `place_order` raises for an unknown product name. */
  function UnknownProduct(name: string): Error
  {
    NotFound("Product '" + name + "' not found")
  }

  /** `place_order`. Both checks raise inside a `try` whose `except Exception`
      rolls back and re-raises every failure as a 500 carrying the original. */
  function PlaceOrder(db: Db, req: PlaceOrderRequest): (s: Step<int>)
    ensures s.db.(orders := db.orders, nextOrder := db.nextOrder) == db
    ensures s.result.Err? ==> s.db == db && s.result.error.Internal?
  {
    match ProductNamed(db, req.productName)
    case None => Step(Err(Internal(Some(UnknownProduct(req.productName)))), db)
    case Some(k) =>
      if req.quantity > db.products[k].stock then Step(Err(Internal(Some(StockShort))), db)
      else
        var order := Order(k, req.quantity, Pending);
        Step(Ok(db.nextOrder), db.(orders := db.orders[db.nextOrder := order], nextOrder := db.nextOrder + 1))
  }

  /** `accept_order`: gate, then the pending order, its product, the stock check,
      then the status flip and the stock decrement together. */
  function AcceptOrder(db: Db, req: AcceptOrderRequest, decode: Decoder): (s: Step<int>)
    ensures s.db.(orders := db.orders, products := db.products) == db
    ensures s.db.orders.Keys == db.orders.Keys && s.db.products.Keys == db.products.Keys
    ensures s.result.Err? ==> s.db == db
  {
    match RequireAdmin(req.token, decode, "accept orders")
    case Err(e) => Step(Err(e), db)
    case Ok(_) =>
      if req.orderId !in db.orders || db.orders[req.orderId].status != Pending then Step(Err(OrderNotPending), db)
      else
        var order := db.orders[req.orderId];
        if order.productId !in db.products then Step(Err(OrderProductMissing), db)
        else
          var product := db.products[order.productId];
          if order.quantity > product.stock then Step(Err(StockShortAtAccept), db)
          else
            var remaining := product.stock - order.quantity;
            Step(Ok(remaining), db.(orders := db.orders[req.orderId := order.(status := Accepted)],
                                    products := db.products[order.productId := product.(stock := remaining)]))
  }

  /** `list_orders`: every order by ascending key with its product's name.
      Reading the name of a missing product raises, an uncaught 500. */
  function ListOrders(db: Db): (r: Result<seq<OrderView>>)
    ensures r.Err? ==> r == Err(Internal(None)) && exists k :: k in db.orders && db.orders[k].productId !in db.products
    ensures r.Ok? ==> forall i :: 0 <= i < |r.value| ==>
      && r.value[i].id in db.orders
      && r.value[i].quantity == db.orders[r.value[i].id].quantity
      && r.value[i].status == db.orders[r.value[i].id].status
  {
    var ids := AscendingKeys(db.orders, 0, db.nextOrder);
    if exists i :: 0 <= i < |ids| && db.orders[ids[i]].productId !in db.products then Err(Internal(None))
    else
      Ok(seq(|ids|, i requires 0 <= i < |ids| && db.orders[ids[i]].productId in db.products =>
        var o := db.orders[ids[i]];
        OrderView(ids[i], db.products[o.productId].name, o.quantity, o.status)))
  }

  // ---------------------------------------------------------------------
  // Place

  /** Placing an order for a name no product has creates no order and fails
      with a 500 wrapping the 404. */
  lemma PlaceUnknownProduct(db: Db, req: PlaceOrderRequest)
    requires Valid(db)
    requires forall k :: k in db.products ==> db.products[k].name != req.productName
    ensures PlaceOrder(db, req) == Step(Err(Internal(Some(UnknownProduct(req.productName)))), db)
  {
  }

  /** Placing at most the stock of the first product with that name succeeds,
      under the next order key. */
  lemma PlaceSucceedsWhenStocked(db: Db, req: PlaceOrderRequest)
    requires ProductNamed(db, req.productName).Some?
    requires req.quantity <= db.products[ProductNamed(db, req.productName).value].stock
    ensures PlaceOrder(db, req).result == Ok(db.nextOrder)
  {
  }

  /** Placing more than the stock of the first product with that name creates
      no order and fails with a 500 wrapping the 400. */
  lemma PlaceOverStock(db: Db, req: PlaceOrderRequest)
    requires ProductNamed(db, req.productName).Some?
    requires req.quantity > db.products[ProductNamed(db, req.productName).value].stock
    ensures PlaceOrder(db, req) == Step(Err(Internal(Some(StockShort))), db)
  {
  }

  /** Every failure of place is a 500 and changes nothing: it never answers
      404 or 400. */
  lemma PlaceFailsOnlyInternal(db: Db, req: PlaceOrderRequest)
    requires PlaceOrder(db, req).result.Err?
    ensures Status(PlaceOrder(db, req).result.error) == 500
    ensures PlaceOrder(db, req).db == db
  {
  }

  /** A successful place adds exactly one order, under a fresh key it returns,
      Pending, for the first product with that name and the requested
      quantity; no stock and no other row changes. */
  lemma PlaceAddsPendingOrder(db: Db, req: PlaceOrderRequest)
    requires Valid(db) && PlaceOrder(db, req).result.Ok?
    ensures var s := PlaceOrder(db, req);
      var id := s.result.value;
      && ProductNamed(db, req.productName).Some?
      && req.quantity <= db.products[ProductNamed(db, req.productName).value].stock
      && id !in db.orders
      && s.db.orders == db.orders[id := Order(ProductNamed(db, req.productName).value, req.quantity, Pending)]
      && s.db.(orders := db.orders, nextOrder := db.nextOrder) == db
  {
  }

  lemma PlaceOrderPreservesValid(db: Db, req: PlaceOrderRequest)
    requires Valid(db)
    ensures Valid(PlaceOrder(db, req).db)
  {
  }

  // ---------------------------------------------------------------------
  // Accept

  /** An absent key, or an order no longer Pending, is NotFound and nothing
      changes: the handler does not tell the two apart. */
  lemma AcceptNotPending(db: Db, req: AcceptOrderRequest, decode: Decoder)
    requires IsAdminToken(req.token, decode)
    requires req.orderId !in db.orders || db.orders[req.orderId].status != Pending
    ensures AcceptOrder(db, req, decode) == Step(Err(OrderNotPending), db)
  {
  }

  /** Accept changes nothing when the order's product is missing or has less
      stock than the order's quantity; with the foreign keys in place the
      product is never missing. */
  lemma AcceptRechecksStock(db: Db, req: AcceptOrderRequest, decode: Decoder)
    requires IsAdminToken(req.token, decode)
    requires req.orderId in db.orders && db.orders[req.orderId].status == Pending
    ensures var o := db.orders[req.orderId];
      && (o.productId !in db.products ==> AcceptOrder(db, req, decode) == Step(Err(OrderProductMissing), db))
      && (o.productId in db.products && o.quantity > db.products[o.productId].stock ==>
            AcceptOrder(db, req, decode) == Step(Err(StockShortAtAccept), db))
      && (Valid(db) ==> o.productId in db.products)
  {
  }

  /** An admin accept of a Pending order whose quantity is at most its
      product's stock succeeds, returning the stock less the quantity. */
  lemma AcceptSucceedsWhenStocked(db: Db, req: AcceptOrderRequest, decode: Decoder)
    requires Valid(db) && IsAdminToken(req.token, decode)
    requires req.orderId in db.orders && db.orders[req.orderId].status == Pending
    requires db.orders[req.orderId].quantity <= db.products[db.orders[req.orderId].productId].stock
    ensures AcceptOrder(db, req, decode).result
            == Ok(db.products[db.orders[req.orderId].productId].stock - db.orders[req.orderId].quantity)
  {
  }

  /** A successful accept sets that order to Accepted and takes exactly its
      quantity off its product's stock; it returns the new stock, which is
      never negative (whatever the sign of the quantity, which nothing checks);
      no other row changes. */
  lemma AcceptDecrementsStock(db: Db, req: AcceptOrderRequest, decode: Decoder)
    requires AcceptOrder(db, req, decode).result.Ok?
    ensures var s := AcceptOrder(db, req, decode);
      && req.orderId in db.orders && db.orders[req.orderId].status == Pending
      && var o := db.orders[req.orderId];
      && o.productId in db.products
      && var p := db.products[o.productId];
      && s.result.value == p.stock - o.quantity >= 0
      && s.db.orders == db.orders[req.orderId := o.(status := Accepted)]
      && s.db.products == db.products[o.productId := p.(stock := p.stock - o.quantity)]
      && s.db.(orders := db.orders, products := db.products) == db
  {
  }

  /** An order is accepted at most once: after a successful accept, accepting
      the same key again never succeeds, and as an admin it is NotFound. */
  lemma AcceptTwiceFails(db: Db, req: AcceptOrderRequest, decode: Decoder, again: AcceptOrderRequest, decode': Decoder)
    requires AcceptOrder(db, req, decode).result.Ok? && again.orderId == req.orderId
    ensures var db' := AcceptOrder(db, req, decode).db;
      && AcceptOrder(db', again, decode').result.Err?
      && (IsAdminToken(again.token, decode') ==> AcceptOrder(db', again, decode') == Step(Err(OrderNotPending), db'))
  {
  }

  lemma AcceptOrderPreservesValid(db: Db, req: AcceptOrderRequest, decode: Decoder)
    requires Valid(db)
    ensures Valid(AcceptOrder(db, req, decode).db)
  {
  }

  /** Placing never reserves stock, so two orders may together ask for more
      than there is; accepting both, in turn, takes the first and refuses the
      second for lack of stock, leaving the stock non-negative. */
  lemma OversellCaughtAtAccept(db: Db, name: string, q: int, token: string, decode: Decoder)
    requires Valid(db) && IsAdminToken(token, decode)
    requires ProductNamed(db, name).Some?
    requires var stock := db.products[ProductNamed(db, name).value].stock;
      0 < q <= stock < 2 * q
    ensures var k := ProductNamed(db, name).value;
      var stock := db.products[k].stock;
      var s1 := PlaceOrder(db, PlaceOrderRequest(name, q));
      var s2 := PlaceOrder(s1.db, PlaceOrderRequest(name, q));
      var s3 := AcceptOrder(s2.db, AcceptOrderRequest(db.nextOrder, token), decode);
      var s4 := AcceptOrder(s3.db, AcceptOrderRequest(db.nextOrder + 1, token), decode);
      && s1.result == Ok(db.nextOrder)
      && s2.result == Ok(db.nextOrder + 1)
      && s3.result == Ok(stock - q)
      && s4 == Step(Err(StockShortAtAccept), s3.db)
      && s4.db.products[k].stock == stock - q >= 0
  {
    var k := ProductNamed(db, name).value;
    var s1 := PlaceOrder(db, PlaceOrderRequest(name, q));
    assert ProductNamed(s1.db, name) == Some(k);
    var s2 := PlaceOrder(s1.db, PlaceOrderRequest(name, q));
    assert ProductNamed(s2.db, name) == Some(k);
  }

  // ---------------------------------------------------------------------
  // List

  /** With the foreign keys in place the listing succeeds, with exactly one
      entry per order, carrying its key, its product's name, quantity and
      status, in ascending key order. */
  lemma ListOrdersExact(db: Db)
    requires Valid(db)
    ensures ListOrders(db).Ok?
    ensures var r := ListOrders(db).value;
      && (forall i :: 0 <= i < |r| ==>
            && r[i].id in db.orders
            && var o := db.orders[r[i].id];
            && r[i] == OrderView(r[i].id, db.products[o.productId].name, o.quantity, o.status))
      && (forall i, j :: 0 <= i < j < |r| ==> r[i].id < r[j].id)
      && (forall k :: k in db.orders ==> exists i :: 0 <= i < |r| && r[i].id == k)
  {
    var ids := AscendingKeys(db.orders, 0, db.nextOrder);
    assert forall i :: 0 <= i < |ids| ==> db.orders[ids[i]].productId in db.products;
    var r := ListOrders(db).value;
    assert |r| == |ids|;
    assert forall i :: 0 <= i < |r| ==>
      r[i] == OrderView(ids[i], db.products[db.orders[ids[i]].productId].name, db.orders[ids[i]].quantity, db.orders[ids[i]].status);
    forall k | k in db.orders
      ensures exists i :: 0 <= i < |r| && r[i].id == k
    {
      assert k in ids;
      var i :| 0 <= i < |ids| && ids[i] == k;
      assert r[i].id == k;
    }
  }
}
