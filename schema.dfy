/** The four tables of the store (users, categories, products, orders), each a
    map from primary key to row, with the next id its auto-increment key will
    hand out; the queries the handlers run against them; and the invariant the
    database keeps (unique emails and category names, foreign keys). */
module Schema {
  import opened Errors

  /** A product's price: a floating-point column the handlers store and return
      but never compute with. */
  type Price = real

  datatype OrderStatus = Pending | Accepted

  datatype User = User(email: string, password: string, isAdmin: bool)

  datatype Category = Category(name: string)

  /** `categoryId` is nullable: a deleted category's products lose their link. */
  datatype Product = Product(name: string, categoryId: Option<int>, price: Price, stock: int)

  datatype Order = Order(productId: int, quantity: int, status: OrderStatus)

  datatype Db = Db(
    users: map<int, User>, nextUser: int,
    categories: map<int, Category>, nextCategory: int,
    products: map<int, Product>, nextProduct: int,
    orders: map<int, Order>, nextOrder: int)

  /** What a handler returns together with the tables it leaves behind. */
  datatype Step<+T> = Step(result: Result<T>, db: Db)

  /** The tables as `create_all` leaves them: empty, keys starting at 1. */
  const Empty := Db(map[], 1, map[], 1, map[], 1, map[], 1)

  // ---------------------------------------------------------------------
  // The database invariant

  /** Every key was handed out by the table's counter, which never goes below 0. */
  ghost predicate KeysBelow<R>(m: map<int, R>, next: int)
  {
    0 <= next && forall k :: k in m ==> 0 <= k < next
  }

  ghost predicate UniqueEmails(users: map<int, User>)
  {
    forall i, j :: i in users && j in users && users[i].email == users[j].email ==> i == j
  }

  ghost predicate UniqueNames(categories: map<int, Category>)
  {
    forall i, j :: i in categories && j in categories && categories[i].name == categories[j].name ==> i == j
  }

  /** The foreign keys product -> category (nullable) and order -> product. */
  ghost predicate ForeignKeys(db: Db)
  {
    && (forall k :: k in db.products && db.products[k].categoryId.Some? ==>
          db.products[k].categoryId.value in db.categories)
    && (forall k :: k in db.orders ==> db.orders[k].productId in db.products)
  }

  ghost predicate Valid(db: Db)
  {
    && KeysBelow(db.users, db.nextUser)
    && KeysBelow(db.categories, db.nextCategory)
    && KeysBelow(db.products, db.nextProduct)
    && KeysBelow(db.orders, db.nextOrder)
    && UniqueEmails(db.users)
    && UniqueNames(db.categories)
    && ForeignKeys(db)
  }

  /** No operation turns an accepted order back: every order accepted in
      `db` is still there and still accepted in `db'`. */
  ghost predicate AcceptedKept(db: Db, db': Db)
  {
    forall k :: k in db.orders && db.orders[k].status == Accepted ==>
      k in db'.orders && db'.orders[k].status == Accepted
  }

  // ---------------------------------------------------------------------
  // Queries

  /** `query(...).filter(P).first()`: the lowest key in [from, bound) whose
      row satisfies P, if any. */
  function FirstMatch<R>(m: map<int, R>, P: R -> bool, from: int, bound: int): (k: Option<int>)
    decreases bound - from
    ensures k.Some? ==> from <= k.value < bound && k.value in m && P(m[k.value])
    ensures k.Some? ==> forall j :: from <= j < k.value && j in m ==> !P(m[j])
    ensures k.None? ==> forall j :: from <= j < bound && j in m ==> !P(m[j])
  {
    if from >= bound then None
    else if from in m && P(m[from]) then Some(from)
    else FirstMatch(m, P, from + 1, bound)
  }

  /** `query(...).all()`: the keys in [from, bound), ascending. */
  function AscendingKeys<R>(m: map<int, R>, from: int, bound: int): (ks: seq<int>)
    decreases bound - from
    ensures forall i :: 0 <= i < |ks| ==> ks[i] in m && from <= ks[i] < bound
    ensures forall i, j :: 0 <= i < j < |ks| ==> ks[i] < ks[j]
    ensures forall k :: k in m && from <= k < bound ==> k in ks
  {
    if from >= bound then []
    else if from in m then
      var rest := AscendingKeys(m, from + 1, bound);
      PrependKeepsAscending(from, rest);
      [from] + rest
    else AscendingKeys(m, from + 1, bound)
  }

  lemma PrependKeepsAscending(k: int, ks: seq<int>)
    requires forall i, j :: 0 <= i < j < |ks| ==> ks[i] < ks[j]
    requires forall i :: 0 <= i < |ks| ==> k < ks[i]
    ensures forall i, j :: 0 <= i < j < |[k] + ks| ==> ([k] + ks)[i] < ([k] + ks)[j]
  {
  }

  function UserWithEmail(db: Db, email: string): (k: Option<int>)
    ensures k.Some? ==> k.value in db.users && db.users[k.value].email == email
    ensures k.None? ==> forall j :: j in db.users && 0 <= j < db.nextUser ==> db.users[j].email != email
  {
    FirstMatch(db.users, (u: User) => u.email == email, 0, db.nextUser)
  }

  function CategoryNamed(db: Db, name: string): (k: Option<int>)
    ensures k.Some? ==> k.value in db.categories && db.categories[k.value].name == name
    ensures k.None? ==> forall j :: j in db.categories && 0 <= j < db.nextCategory ==> db.categories[j].name != name
  {
    FirstMatch(db.categories, (c: Category) => c.name == name, 0, db.nextCategory)
  }

  /** The lowest-keyed product with that name, in any category. */
  function ProductNamed(db: Db, name: string): (k: Option<int>)
    ensures k.Some? ==> k.value in db.products && db.products[k.value].name == name
    ensures k.Some? ==> forall j :: 0 <= j < k.value && j in db.products ==> db.products[j].name != name
    ensures k.None? ==> forall j :: j in db.products && 0 <= j < db.nextProduct ==> db.products[j].name != name
  {
    FirstMatch(db.products, (p: Product) => p.name == name, 0, db.nextProduct)
  }

  function ProductNamedIn(db: Db, name: string, categoryId: int): (k: Option<int>)
    ensures k.Some? ==> k.value in db.products && db.products[k.value].name == name
                        && db.products[k.value].categoryId == Some(categoryId)
    ensures k.None? ==> forall j :: j in db.products && 0 <= j < db.nextProduct ==>
                          !(db.products[j].name == name && db.products[j].categoryId == Some(categoryId))
  {
    FirstMatch(db.products, (p: Product) => p.name == name && p.categoryId == Some(categoryId), 0, db.nextProduct)
  }

  function OrderFor(db: Db, productId: int): (k: Option<int>)
    ensures k.Some? ==> k.value in db.orders && db.orders[k.value].productId == productId
    ensures k.None? ==> forall j :: j in db.orders && 0 <= j < db.nextOrder ==> db.orders[j].productId != productId
  {
    FirstMatch(db.orders, (o: Order) => o.productId == productId, 0, db.nextOrder)
  }

  // ---------------------------------------------------------------------
  // Inserts: `db.add(row)` followed by a commit takes the next key.

  function InsertCategory(db: Db, name: string): Db
  {
    db.(categories := db.categories[db.nextCategory := Category(name)], nextCategory := db.nextCategory + 1)
  }
}
