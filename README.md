# E-commerce backend: handlers over four tables

This project models the request handlers of a small e-commerce backend:
user signup and login, category and product administration, and the order
lifecycle. The database is four tables: users, categories, products and
orders. Each table is a map from primary key to row, with the next key its
auto-increment column hands out (`Schema.Db`).

- Each handler is a function from the tables and the request to a result
  and the tables it leaves (`Step`). The functions are in `UserRoutes`,
  `CategoryRoutes`, `ProductRoutes` and `OrderRoutes`.
- Each handler that writes is also a method of the class `Backend.Store`.
  The class holds the four tables and their counters as fields, and each
  method updates them in place. Each method is proved to return what the
  handler's function returns and to leave what it leaves. Each method also
  keeps the database invariant `Schema.Valid`: keys below their counters,
  unique emails, unique category names, and the foreign keys
  product → category and order → product.
- The handlers that only read are functions of `Store.State()`:
  `ListCategories`, `ListProducts`, `ListOrders` and `Login`.
- A handler's result is `Ok(value)` or an error kind. The kinds are
  Unauthenticated (401), Forbidden (403), NotFound (404), Duplicate (400),
  InsufficientStock (400) and Internal (500). Each kind but Internal
  carries the handler's detail text. Internal carries the exception a
  handler caught and re-raised, or nothing for an uncaught failure.
- Every admin-only handler first validates the token, then checks the
  admin flag (`Auth.RequireAdmin`). Only after that does it read a table.
- `Service` puts the writing endpoints behind one `Request` type. It proves
  what holds for every handler and for every sequence of requests:
  - the gate comes first;
  - a failure changes nothing, with one exception;
  - the invariant holds after every request;
  - an order is accepted at most once.

The library calls are parameters:
- the bcrypt hash (`Hasher`) and check (`Verifier`);
- `create_token` (`TokenIssuer`);
- JWT decoding (`Decoder`), an oracle that yields the claims, an expired
  signature or an invalid token.

The queries carry no ORDER BY, so the order of the rows they return is
the database's. The model fixes one order: `.first()` picks the row with
the lowest key, and `.all()` lists rows by ascending key.

Database behaviour the handlers rely on, assuming the MySQL database named
in config.py:8:
- Renaming a category to a name another category holds violates the unique
  constraint at commit. The result is an uncaught 500 and nothing changes.
- Deleting a product that an order references violates the order → product
  foreign key. The result is an uncaught 500 and nothing changes.
- Deleting a category sets its products' `category_id` to NULL. This is
  SQLAlchemy's default for the `Category.products` relationship when it has
  no delete cascade (MOD/models.py:30). The products stay, with no
  category, and drop out of the inner-join listing.

Behaviour of the handlers worth noting:
- `place_order` raises its 404 and 400 inside a `try`. The
  `except Exception` turns both into a 500 that carries the original
  exception, so place never answers 404 or 400.
- Nothing checks that an order's quantity is positive.
- Stock is not kept non-negative at all times: add and update store any
  stock value. Only the stock an accept leaves is proved non-negative.
- Deleting a category does not leave dangling product references. The ORM
  clears them, as described above.
- Duplicates are answered with status 400.

## Model

| member | source | states |
|---|---|---|
| Auth.CurrentUser | auth.py:22-32 | succeeds exactly for a non-empty token the decoder accepts, with its claims; an empty token fails "Token required", an expired one "Token expired", an invalid one "Invalid token", all Unauthenticated |
| Auth.RequireAdmin | routes/order.py:52-54 | succeeds exactly for a valid token whose claims carry the admin flag; token errors propagate unchanged; a valid non-admin caller is Forbidden("Only admins can …") |
| Schema.FirstMatch | routes/product.py:78 | `.first()`: the lowest key in range whose row matches, and no lower key matches; None only when no key in range matches |
| Schema.AscendingKeys | routes/category.py:79 | `.all()`: exactly the keys in range, strictly ascending |
| Schema.UserWithEmail | routes/user.py:12 | the key found holds that email; None means no user has it |
| Schema.CategoryNamed | routes/category.py:32 | the key found holds that name; None means no category has it |
| Schema.ProductNamed | routes/order.py:25 | the lowest-keyed product with that name, in any category; None means no product has it |
| Schema.ProductNamedIn | routes/product.py:46-49 | a product with that name in that category; None means there is none |
| Schema.OrderFor | MOD/models.py:36 | an order referencing the product; None means no order does (the foreign key check at delete) |
| Backend.Store.constructor | main.py:19 | the tables start empty, with keys from 1, and satisfy the invariant |
| Backend.Store.Signup | routes/user.py:10-20 | returns and leaves what `UserRoutes.Signup` prescribes; keeps the invariant |
| Backend.Store.AddCategory | routes/category.py:25-41 | returns and leaves what `CategoryRoutes.AddCategory` prescribes; keeps the invariant |
| Backend.Store.UpdateCategory | routes/category.py:44-58 | returns and leaves what `CategoryRoutes.UpdateCategory` prescribes; keeps the invariant |
| Backend.Store.DeleteCategory | routes/category.py:61-74 | returns and leaves what `CategoryRoutes.DeleteCategory` prescribes; keeps the invariant |
| Backend.Store.UpsertCategory | routes/product.py:38-43 | the key of the category with that name, reused or created as `ProductRoutes.UpsertCategory` prescribes |
| Backend.Store.AddProduct | routes/product.py:31-65 | returns and leaves what `ProductRoutes.AddProduct` prescribes; keeps the invariant |
| Backend.Store.UpdateProduct | routes/product.py:69-101 | returns and leaves what `ProductRoutes.UpdateProduct` prescribes, including the write kept before the 500; keeps the invariant |
| Backend.Store.DeleteProduct | routes/product.py:105-120 | returns and leaves what `ProductRoutes.DeleteProduct` prescribes; keeps the invariant |
| Backend.Store.PlaceOrder | routes/order.py:21-47 | returns and leaves what `OrderRoutes.PlaceOrder` prescribes; keeps the invariant |
| Backend.Store.AcceptOrder | routes/order.py:50-72 | returns and leaves what `OrderRoutes.AcceptOrder` prescribes; a success returns the product's new stock, which is ≥ 0; keeps the invariant |
| UserRoutes.Signup | routes/user.py:10-20 | `signup`: only the users table and its counter can change; a failure is "Email already registered" with nothing changed. Its behaviour is stated by SignupSucceedsIffEmailNew and SignupAddsOneUser |
| UserRoutes.Login | routes/user.py:22-29 | `login`: every failure is "Invalid credentials"; a success is a bearer token issued for the request email and the admin flag of a stored user with that email whose password verifies. LoginByStoredUser pins the user |
| UserRoutes.SignupSucceedsIffEmailNew | routes/user.py:12-14 | signup succeeds if and only if no stored user has the email |
| UserRoutes.SignupRejectsRegisteredEmail | routes/user.py:12-14 | a registered email fails "Email already registered" and adds no user |
| UserRoutes.SignupAddsOneUser | routes/user.py:16-20 | a success adds exactly one user under a fresh key, with the email, hash(password) and the requested admin flag; no other table changes |
| UserRoutes.SignupPreservesValid | routes/user.py:12-19 | the users table never holds two rows with the same email |
| UserRoutes.LoginByStoredUser | routes/user.py:24-29 | a verifying password yields a bearer token from the request email and the STORED admin flag; a failing one yields "Invalid credentials" |
| UserRoutes.LoginRejectsUnknownEmail | routes/user.py:24-26 | an unknown email yields the same "Invalid credentials" as a wrong password |
| CategoryRoutes.AddCategory | routes/category.py:25-41 | `add_category`: only the categories table and its counter can change; a success returns the name; a failure changes nothing. AddCategoryRejectsDuplicate and AddCategoryInsertsOne state the two outcomes |
| CategoryRoutes.UpdateCategory | routes/category.py:44-58 | `update_category`: only the categories table can change and its keys stay the same, so a rename never re-keys a row; a failure changes nothing. UpdateCategoryMissing and UpdateCategoryRenamesInPlace state the outcomes |
| CategoryRoutes.Detached | MOD/models.py:30 | the products after a category delete: the same keys; the products of that category get no category (None), with nothing else about them changed; every other product unchanged |
| CategoryRoutes.DeleteCategory | routes/category.py:61-74 | `delete_category`: only categories and products can change; categories only lose keys and products keep theirs; a failure changes nothing. DeleteCategoryRemovesExactly states the outcome |
| CategoryRoutes.ListCategories | routes/category.py:77-80 | `list_categories`: every entry is a stored category with its name. ListCategoriesExact adds order and completeness |
| CategoryRoutes.AddCategorySucceedsWhenNew | routes/category.py:32-41 | an admin adding a name no category holds succeeds and returns the name |
| CategoryRoutes.AddCategoryRejectsDuplicate | routes/category.py:32-34 | an existing name fails "Category already exists" and nothing changes |
| CategoryRoutes.AddCategoryInsertsOne | routes/category.py:36-41 | a success inserts exactly one category with that name under a fresh key and returns the name; nothing else changes |
| CategoryRoutes.AddCategoryPreservesValid | routes/category.py:32-41 | category names stay unique |
| CategoryRoutes.UpdateCategoryMissing | routes/category.py:50-52 | an unknown old name fails NotFound and nothing changes |
| CategoryRoutes.UpdateCategoryRenamesInPlace | routes/category.py:54-58 | a rename changes only that category's name and keeps its key, so products still reference it; a name another category holds fails and nothing changes |
| CategoryRoutes.UpdateCategoryPreservesValid | routes/category.py:54-58 | category names stay unique across renames |
| CategoryRoutes.DeleteCategoryMissing | routes/category.py:67-69 | an unknown name fails NotFound and nothing changes |
| CategoryRoutes.DeleteCategoryRemovesExactly | routes/category.py:71-74 | a success removes exactly that category; its products stay with no category; nothing else changes |
| CategoryRoutes.DeleteCategoryPreservesValid | routes/category.py:71-74 | the invariant holds after a delete: no product references a missing category |
| CategoryRoutes.ListCategoriesExact | routes/category.py:77-80 | exactly one {id, name} per stored category, in ascending key order |
| ProductRoutes.UpsertCategory | routes/product.py:38-43 | the result names a category with the requested name; only the categories table can change |
| ProductRoutes.AddProduct | routes/product.py:31-65 | `add_product`: users and orders never change; a success returns the product's name. AddProductRejectsDuplicate, AddProductFailureChangesNothing and AddProductInsertsOne state the outcomes |
| ProductRoutes.UpdateProduct | routes/product.py:69-101 | `update_product`: only categories and products can change, and no product is added or removed; a success returns the request's product and category names. UpdateProductMissing, UpdateProductWithCategory and UpdateProductWithoutCategory state the outcomes |
| ProductRoutes.DeleteProduct | routes/product.py:105-120 | `delete_product`: only products can change; a success removes exactly that existing key; a failure changes nothing. DeleteProductRemovesExactly says which failure when |
| ProductRoutes.ListProducts | routes/product.py:123-136 | `list_products`: every entry is the view of a product whose category exists, with that category's name. ListProductsIsJoin adds order and completeness |
| ProductRoutes.UpsertCategoryByName | routes/product.py:38-43 | an existing category is reused and nothing changes; otherwise exactly one category with that name is added under a fresh key |
| ProductRoutes.AddProductSucceedsWhenNoDuplicate | routes/product.py:38-65 | an admin add succeeds, returning the name, when no product with that name is in a category with the requested name |
| ProductRoutes.AddProductRejectsDuplicate | routes/product.py:46-52 | a product with that name already in the named category is refused and nothing changes |
| ProductRoutes.AddProductFailureChangesNothing | routes/product.py:38-52 | a failed add changes nothing, even though the upsert commits before the duplicate check |
| ProductRoutes.AddProductInsertsOne | routes/product.py:38-65 | a success leaves the categories table as the upsert leaves it (the existing category reused, or exactly one added) and inserts exactly one product under a fresh key, with the request's name, price and stock, in a category with the requested name; users and orders are unchanged |
| ProductRoutes.AddProductPreservesValid | routes/product.py:38-65 | the invariant holds after an add |
| ProductRoutes.UpdateProductMissing | routes/product.py:78-81 | a name no product has fails NotFound and nothing changes |
| ProductRoutes.UpdateProductWithCategory | routes/product.py:84-99 | the categories table is as the upsert leaves it; the first product with that name moves to the upserted category and gets the request's price and stock; other products, users and orders are unchanged |
| ProductRoutes.UpdateProductWithoutCategory | routes/product.py:84-101 | with an empty category name, the price and stock write is kept and the caller gets a 500 |
| ProductRoutes.UpdateProductPreservesValid | routes/product.py:84-99 | the invariant holds after an update |
| ProductRoutes.DeleteProductRemovesExactly | routes/product.py:112-120 | removes exactly the product with that key; fails NotFound when there is none; fails 500 when an order references it; a failure changes nothing |
| ProductRoutes.DeleteProductPreservesValid | routes/product.py:112-120 | no order is left referencing a missing product |
| ProductRoutes.Joined | routes/product.py:125-136 | every entry is the view of a listed product whose category exists; keys ascend; every such product appears |
| ProductRoutes.ListProductsIsJoin | routes/product.py:123-136 | the inner join: one entry per product whose category exists, carrying the category's name, in ascending key order |
| OrderRoutes.PlaceOrder | routes/order.py:21-47 | `place_order`: only the orders table and its counter can change; every failure is a 500 and changes nothing. PlaceAddsPendingOrder states a success |
| OrderRoutes.AcceptOrder | routes/order.py:50-72 | `accept_order`: only orders and products can change, and no row is added or removed; a failure changes nothing. AcceptDecrementsStock states a success |
| OrderRoutes.ListOrders | routes/order.py:75-87 | `list_orders`: a failure is an uncaught 500 and happens only when some order's product is missing; every entry of a success is a stored order with its quantity and status. ListOrdersExact adds names, order and completeness |
| OrderRoutes.PlaceUnknownProduct | routes/order.py:25-27 | an unknown product name creates no order and fails 500 wrapping "Product '…' not found" |
| OrderRoutes.PlaceSucceedsWhenStocked | routes/order.py:25-43 | placing at most the stock of the first product with that name succeeds under the next order key |
| OrderRoutes.PlaceOverStock | routes/order.py:30-31 | a quantity above the found product's stock creates no order and fails 500 wrapping "Not enough stock available" |
| OrderRoutes.PlaceFailsOnlyInternal | routes/order.py:23-47 | every place failure is a 500 (never 404 or 400) and changes nothing |
| OrderRoutes.PlaceAddsPendingOrder | routes/order.py:34-43 | a success adds exactly one Pending order for the found product and quantity under the fresh key it returns; stock and all other rows are unchanged |
| OrderRoutes.PlaceOrderPreservesValid | routes/order.py:34-43 | the new order references an existing product |
| OrderRoutes.AcceptNotPending | routes/order.py:56-58 | an absent or non-Pending order fails the same NotFound and nothing changes |
| OrderRoutes.AcceptRechecksStock | routes/order.py:60-65 | a missing product or a quantity above stock fails and nothing changes; with the foreign keys the product is never missing |
| OrderRoutes.AcceptSucceedsWhenStocked | routes/order.py:56-72 | an admin accept of a Pending order whose quantity is at most its product's stock succeeds and returns the stock less the quantity |
| OrderRoutes.AcceptDecrementsStock | routes/order.py:64-72 | a success sets that order Accepted, takes exactly its quantity off its product's stock, and returns the new stock, which is ≥ 0; nothing else changes |
| OrderRoutes.AcceptTwiceFails | routes/order.py:56-58 | after a successful accept, accepting the same order again never succeeds; for an admin it is NotFound |
| OrderRoutes.AcceptOrderPreservesValid | routes/order.py:64-72 | the invariant holds after an accept |
| OrderRoutes.OversellCaughtAtAccept | routes/order.py:30-69 | two placements that together exceed the stock both succeed; the first accept takes the stock, the second fails InsufficientStock; the stock stays ≥ 0 |
| OrderRoutes.ListOrdersExact | routes/order.py:75-87 | with the foreign keys, exactly one entry per order, with its product's name, quantity and status, in ascending key order |
| Service.GateRunsFirst | routes/product.py:33-35 | for every admin-only endpoint, a non-admin caller gets an answer that depends on the token alone, whatever the tables hold: the validation error, or for a valid non-admin token Forbidden("Only admins can " + the endpoint's action, as `ActionOf` lists them); nothing changes |
| Service.FailureChangesNothing | routes/order.py:45-47 | every failing request leaves the tables unchanged, except `update_product` with an empty category name, which keeps its write and fails 500 |
| Service.DispatchPreservesValid | MOD/models.py:5-41 | every writing endpoint keeps the database invariant |
| Service.DispatchKeepsAccepted | routes/order.py:68-69 | no request turns an accepted order back or removes it |
| Service.StepKeepsAccepted | routes/order.py:68-69 | each request of a sequence keeps every order accepted before it accepted |
| Service.RunPreservesValid | MOD/models.py:5-41 | the invariant holds after any sequence of requests |
| Service.AcceptedStaysAccepted | routes/order.py:56-58 | an order accepted at some point in a sequence stays accepted |
| Service.AcceptedAtMostOnce | routes/order.py:56-58 | in any sequence of requests, at most one accept of a given order succeeds |
| Service.AddBooks | routes/category.py:25-41 | from empty tables an admin adds "Books" under key 1, and the listing shows exactly it |
| Service.AddAtlas | routes/product.py:31-65 | an admin then adds "Atlas" to "Books" under key 1, and the product listing shows exactly it with its category name |
| Service.PlaceAtlas | routes/order.py:21-47 | an order for 2 of "Atlas" is placed under key 1, Pending |
| Service.BooksWalkthrough | routes/order.py:50-72 | from empty tables: add "Books", add "Atlas" (9.99, stock 3) to it, place 2, accept; the listings show them, the order goes Pending then Accepted, and the stock ends at 1 |

## Left out

- Password hashing and checking, and token creation, are parameters about which nothing is assumed. So bcrypt's fresh salt per call, the hash/verify round trip and the token round trip are not modelled.
- Auth.CurrentUser: the token's 24-hour expiry (auth.py:14) and the clock are not modelled. The decoder oracle decides whether a token has expired.
- The success messages ("Order placed successfully" and the like) are left out. A success returns only the data the response carries: the new order id, the remaining stock, a name, or the updated product's name and category.
- The text of the 500 that `place_order` re-raises is the library's rendering of the caught exception. The model carries the caught exception itself.
- The database is assumed to enforce its unique and foreign-key constraints, as the MySQL database named in config.py does. Against a database that does not enforce foreign keys, deleting a product that orders reference would succeed and leave the orders dangling.
- Connection failures, other store failures at commit, and session rollback are not modelled. Each handler is one atomic change of the tables, or two where it commits twice.
- Names and emails are compared by exact string equality, in the lookups and in the uniqueness the invariant states. The database's collation may compare them case- or accent-insensitively, so that "books" would find "Books". Under such a collation `add_category`, `signup`, and the product-name lookups treat as equal some strings the model keeps apart.
- Concurrency and transaction isolation are left out. Requests are served one after another. The unreserved stock between place and accept appears as the sequential scenario `OversellCaughtAtAccept`.
- Price is a floating-point column that is only stored and returned. It is modelled as a `real` with no arithmetic.
- The INT and VARCHAR(255) column limits are not modelled: stock, quantity and keys are unbounded integers, and strings are unbounded.
- Request validation by the schema library is not modelled: the email format check and a null `is_admin` at signup (schemas.py).
- The application wiring is not modelled: main.py (CORS, router mounting, static files, the root route), config.py (environment lookup), and the debug print at routes/product.py:71.
