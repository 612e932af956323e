/** The database session the handlers write through: the four tables as
    fields that each handler updates in place, one method per endpoint that
    writes. Each method is proved to leave the tables and return the result
    that the handler's function in the route modules prescribes, and to keep
    the database invariant. The endpoints that only read (the listings and
    login) are the functions `ListCategories`, `ListProducts`, `ListOrders`
    and `Login` applied to `State()`. */
module Backend {
  import opened Errors
  import opened Auth
  import opened Schema
  import UserRoutes
  import CategoryRoutes
  import ProductRoutes
  import OrderRoutes

  class Store {
    var users: map<int, User>
    var nextUser: int
    var categories: map<int, Category>
    var nextCategory: int
    var products: map<int, Product>
    var nextProduct: int
    var orders: map<int, Order>
    var nextOrder: int

    function State(): Db
      reads this
    {
      Db(users, nextUser, categories, nextCategory, products, nextProduct, orders, nextOrder)
    }

    ghost predicate Valid()
      reads this
    {
      Schema.Valid(State())
    }

    constructor ()
      ensures Valid() && State() == Empty
    {
      users, nextUser := map[], 1;
      categories, nextCategory := map[], 1;
      products, nextProduct := map[], 1;
      orders, nextOrder := map[], 1;
    }

    method Signup(req: UserRoutes.SignupRequest, hash: UserRoutes.Hasher) returns (r: Result<()>)
      requires Valid()
      modifies this
      ensures Valid()
      ensures Step(r, State()) == UserRoutes.Signup(old(State()), req, hash)
    {
      ghost var before := State();
      UserRoutes.SignupPreservesValid(before, req, hash);
      if UserWithEmail(State(), req.email).Some? {
        return Err(UserRoutes.EmailRegistered);
      }
      users := users[nextUser := User(req.email, hash(req.password), req.isAdmin)];
      nextUser := nextUser + 1;
      r := Ok(());
    }

    method AddCategory(req: CategoryRoutes.AddCategoryRequest, decode: Decoder) returns (r: Result<string>)
      requires Valid()
      modifies this
      ensures Valid()
      ensures Step(r, State()) == CategoryRoutes.AddCategory(old(State()), req, decode)
    {
      ghost var before := State();
      CategoryRoutes.AddCategoryPreservesValid(before, req, decode);
      var user := RequireAdmin(req.token, decode, "add categories");
      if user.Err? {
        return Err(user.error);
      }
      if CategoryNamed(State(), req.name).Some? {
        return Err(CategoryRoutes.CategoryExists);
      }
      categories := categories[nextCategory := Category(req.name)];
      nextCategory := nextCategory + 1;
      r := Ok(req.name);
    }

    method UpdateCategory(req: CategoryRoutes.UpdateCategoryRequest, decode: Decoder) returns (r: Result<string>)
      requires Valid()
      modifies this
      ensures Valid()
      ensures Step(r, State()) == CategoryRoutes.UpdateCategory(old(State()), req, decode)
    {
      ghost var before := State();
      CategoryRoutes.UpdateCategoryPreservesValid(before, req, decode);
      var user := RequireAdmin(req.token, decode, "update categories");
      if user.Err? {
        return Err(user.error);
      }
      var found := CategoryNamed(State(), req.oldName);
      if found.None? {
        return Err(CategoryRoutes.CategoryMissing);
      }
      var k := found.value;
      var holder := CategoryNamed(State(), req.newName);
      if holder.Some? && holder.value != k {
        return Err(CategoryRoutes.NameTaken);
      }
      categories := categories[k := categories[k].(name := req.newName)];
      r := Ok(req.newName);
    }

    method DeleteCategory(req: CategoryRoutes.DeleteCategoryRequest, decode: Decoder) returns (r: Result<()>)
      requires Valid()
      modifies this
      ensures Valid()
      ensures Step(r, State()) == CategoryRoutes.DeleteCategory(old(State()), req, decode)
    {
      ghost var before := State();
      CategoryRoutes.DeleteCategoryPreservesValid(before, req, decode);
      var user := RequireAdmin(req.token, decode, "delete categories");
      if user.Err? {
        return Err(user.error);
      }
      var found := CategoryNamed(State(), req.name);
      if found.None? {
        return Err(CategoryRoutes.CategoryMissing);
      }
      categories := categories - {found.value};
      products := CategoryRoutes.Detached(products, found.value);
      r := Ok(());
    }

    /** The category upsert `add_product` and `update_product` both begin with. */
    method UpsertCategory(name: string) returns (id: int)
      requires Valid()
      modifies this
      ensures Valid()
      ensures ProductRoutes.Upserted(State(), id) == ProductRoutes.UpsertCategory(old(State()), name)
    {
      ProductRoutes.UpsertCategoryByName(State(), name);
      var found := CategoryNamed(State(), name);
      if found.Some? {
        return found.value;
      }
      id := nextCategory;
      categories := categories[nextCategory := Category(name)];
      nextCategory := nextCategory + 1;
    }

    method AddProduct(req: ProductRoutes.AddProductRequest, decode: Decoder) returns (r: Result<string>)
      requires Valid()
      modifies this
      ensures Valid()
      ensures Step(r, State()) == ProductRoutes.AddProduct(old(State()), req, decode)
    {
      ghost var before := State();
      ProductRoutes.AddProductPreservesValid(before, req, decode);
      var user := RequireAdmin(req.token, decode, "add products");
      if user.Err? {
        return Err(user.error);
      }
      var categoryId := UpsertCategory(req.categoryName);
      if ProductNamedIn(State(), req.name, categoryId).Some? {
        return Err(ProductRoutes.ProductExists);
      }
      products := products[nextProduct := Product(req.name, Some(categoryId), req.price, req.stock)];
      nextProduct := nextProduct + 1;
      r := Ok(req.name);
    }

    method UpdateProduct(req: ProductRoutes.UpdateProductRequest, decode: Decoder) returns (r: Result<ProductRoutes.UpdatedProduct>)
      requires Valid()
      modifies this
      ensures Valid()
      ensures Step(r, State()) == ProductRoutes.UpdateProduct(old(State()), req, decode)
    {
      ghost var before := State();
      ProductRoutes.UpdateProductPreservesValid(before, req, decode);
      var user := RequireAdmin(req.token, decode, "update products");
      if user.Err? {
        return Err(user.error);
      }
      var found := ProductNamed(State(), req.name);
      if found.None? {
        return Err(ProductRoutes.ProductMissing);
      }
      var k := found.value;
      if req.categoryName != "" {
        ghost var u := ProductRoutes.UpsertCategory(before, req.categoryName);
        var id := UpsertCategory(req.categoryName);
        assert State() == u.db && id == u.id;
        products := products[k := products[k].(categoryId := Some(id), price := req.price, stock := req.stock)];
        r := Ok(ProductRoutes.UpdatedProduct(products[k].name, categories[id].name));
      } else {
        products := products[k := products[k].(price := req.price, stock := req.stock)];
        r := Err(ProductRoutes.Uncaught);
      }
    }

    method DeleteProduct(req: ProductRoutes.DeleteProductRequest, decode: Decoder) returns (r: Result<()>)
      requires Valid()
      modifies this
      ensures Valid()
      ensures Step(r, State()) == ProductRoutes.DeleteProduct(old(State()), req, decode)
    {
      ghost var before := State();
      ProductRoutes.DeleteProductPreservesValid(before, req, decode);
      var user := RequireAdmin(req.token, decode, "delete products");
      if user.Err? {
        return Err(user.error);
      }
      if req.id !in products {
        return Err(ProductRoutes.ProductMissing);
      }
      if OrderFor(State(), req.id).Some? {
        return Err(ProductRoutes.Uncaught);
      }
      products := products - {req.id};
      r := Ok(());
    }

    method PlaceOrder(req: OrderRoutes.PlaceOrderRequest) returns (r: Result<int>)
      requires Valid()
      modifies this
      ensures Valid()
      ensures Step(r, State()) == OrderRoutes.PlaceOrder(old(State()), req)
    {
      ghost var before := State();
      OrderRoutes.PlaceOrderPreservesValid(before, req);
      var found := ProductNamed(State(), req.productName);
      if found.None? {
        return Err(Internal(Some(OrderRoutes.UnknownProduct(req.productName))));
      }
      if req.quantity > products[found.value].stock {
        return Err(Internal(Some(OrderRoutes.StockShort)));
      }
      var id := nextOrder;
      orders := orders[id := Order(found.value, req.quantity, Pending)];
      nextOrder := nextOrder + 1;
      r := Ok(id);
    }

    method AcceptOrder(req: OrderRoutes.AcceptOrderRequest, decode: Decoder) returns (r: Result<int>)
      requires Valid()
      modifies this
      ensures Valid()
      ensures Step(r, State()) == OrderRoutes.AcceptOrder(old(State()), req, decode)
      ensures r.Ok? ==> r.value >= 0 && r.value == products[old(orders)[req.orderId].productId].stock
    {
      ghost var before := State();
      OrderRoutes.AcceptOrderPreservesValid(before, req, decode);
      var user := RequireAdmin(req.token, decode, "accept orders");
      if user.Err? {
        return Err(user.error);
      }
      if req.orderId !in orders || orders[req.orderId].status != Pending {
        return Err(OrderRoutes.OrderNotPending);
      }
      var order := orders[req.orderId];
      if order.productId !in products {
        return Err(OrderRoutes.OrderProductMissing);
      }
      if order.quantity > products[order.productId].stock {
        return Err(OrderRoutes.StockShortAtAccept);
      }
      orders := orders[req.orderId := order.(status := Accepted)];
      products := products[order.productId := products[order.productId].(stock := products[order.productId].stock - order.quantity)];
      r := Ok(products[order.productId].stock);
    }
  }
}
