# Store backend core, modelled in Dafny

This project models the in-memory behaviour of the service layer of a small
e-commerce backend written in TypeScript on TypeORM: the product entity and its
`available` derivation, `productService`, `cartService` and `orderService`. The
database is replaced by one `Store` object whose fields are the tables (products,
carts, cart items, orders), the set of registered users, and counters that stand for
the generated primary keys. Each service function becomes a method over the store
that returns `Ok(value)` or `Err(status)`, where `status` is the HTTP status the
client finally receives (400, 404 or 500).

Files and modules:

- `app_errors.dfy` (`AppErrors`): `Option`, `Result` and the status codes.
- `product.dfy` (`Product`): the product row, `Available`, the hook's effect
  `Derived`, the class-validator constraints `IsValid`, and the entity class
  `ProductEntity` with the `updateAvailableQuantity` hook as a method that assigns
  `available` in place.
- `records.dfy` (`Records`): cart items, order items and orders, and pure functions
  over the cart-item table: the `findOne` lookup `Find`, the effect of add, update,
  remove and clear, the `cart.items` relation, the `getCart` projection, and the order
  total `TotalPrice` (the `reduce`) with the reference sum `Sum`.
- `store.dfy` (`Tables`): the `Store` class, its invariant `Valid()`, and one
  method per repository write (`save`, `remove`, `delete`).
- `product_service.dfy`, `cart_service.dfy`, `order_service.dfy`: the three services.

What the invariant `Valid()` keeps: every stored product passed validation and
satisfies `available == max(0, stock - reserved)`; titles are unique; each user has at
most one cart; every cart item belongs to an existing cart and refers to an existing
product; cart-item ids are distinct and there is at most one item per (cart, product);
every order belongs to a registered user and refers to existing products. Every
state-changing method requires and ensures it.

What the code does not do:

- There is no reservation ledger. Nothing reserves, releases or deducts stock, there
  is no stock check when adding to a cart, and there is no checkout that turns a cart
  into an order. `reserved` changes only through `addProduct`, `updateProduct` and
  `updateStock`. Cart operations never touch products, and orders never touch
  products or carts.
- `createOrder` takes each item's price from the request (`productPrice`), not from
  the product, and only checks that the product exists.
- An order's status is set to `"pending"` and never changed: `updateOrder` is a stub.
- `deleteOrder` does not restore anything.

Status codes, as the error handler (`src/middleware/errorHandler.ts:2`) turns thrown
errors into responses:

- `getProduct`, `updateProduct`, `updateStock` and `deleteProduct` catch every error,
  including their own 404 and 400 AppErrors, and re-throw it as 500.
- `addProduct` lets its 400 AppErrors through and turns anything else into 500.
- `createOrder` throws a plain `Error` for an unknown user. It carries no status, so
  the client gets 500, not 404.
- `removeProductFromCart` and `updateProductToCart` read `user.cart.id`. For a user
  without a cart this throws a TypeError, so the client gets 500.

Two database constraints from the entity declarations are modelled, because the
services' results depend on them:

- The `title` column is unique (`src/entities/Product.ts:21`). An `updateProduct` that
  gives a product another product's title fails on save, and the client gets 500.
- Cart items and order items refer to products through a `ManyToOne` foreign key
  without `onDelete` (`src/entities/CartItem.ts:14`, `src/entities/OrderItem.ts:13`).
  Deleting a product that is still referenced therefore fails on delete, and the
  client gets 500. This is also why `getCart` can always resolve an item's product.

`src/entities/Order.ts` is not part of this model. The shape of an order (id, owner,
items, total, status) is taken from its uses in `src/services/order.service.ts`.

## Model

| member | source | states |
|---|---|---|
| `Product.Available` | src/entities/Product.ts:63-65 | the result is never negative and is `stock - reserved` or 0, whichever is larger; it is 0 whenever `reserved >= stock`; it is at most `stock` when stock and reserved are both non-negative |
| `Product.Derived` | src/entities/Product.ts:61-65 | after the hook, `available` is re-derived from stock and reserved, and every other column is unchanged |
| `Product.DerivedIdempotent` | src/entities/Product.ts:63-65 | running the hook twice gives the same row as running it once |
| `Product.DerivedIsDerived` | src/entities/Product.ts:61-65 | after the hook the row satisfies the derivation, and the hook changes nothing on a row that already does |
| `Product.IsValid` | src/entities/Product.ts:21-59 | the class-validator constraints: title and category at least 2 characters, description and image non-empty, price, stock, reserved and available at least 0 |
| `Product.NegativeFailsValidation` | src/entities/Product.ts:30-59 | a product with a negative price, stock, reserved or available count fails validation |
| `Product.SavedProductBounds` | src/entities/Product.ts:44-65 | a validated product that went through the hook has between 0 and `stock` units available, and 0 exactly when `reserved >= stock` |
| `Product.ProductEntity.constructor` | src/services/product.service.ts:19 | `new Product()` gives an entity with placeholder values (empty text, 0), all of which `addProduct` then assigns |
| `Product.ProductEntity.Load` | src/services/product.service.ts:85 | the loaded entity holds exactly the stored row |
| `Product.ProductEntity.UpdateAvailableQuantity` | src/entities/Product.ts:61-65 | the hook sets `available` to `max(0, stock - reserved)` in place and changes no other field |
| `Records.Find` | src/services/cart.service.ts:29-31 | the result is the first item of the given cart for the given product, or none when no item of that cart is for that product |
| `Records.FindIsOnly` | src/services/cart.service.ts:29-31 | when items are unique per (cart, product), any matching item is the one the lookup returns |
| `Records.SetQuantity` | src/services/cart.service.ts:111 | only the item at the given position changes, and only its quantity, which becomes the given value; its id, cart and product stay |
| `Records.RemovedAt` | src/services/cart.service.ts:93 | removing one item keeps all the others, in order |
| `Records.SetQuantityEffect` | src/services/cart.service.ts:106-112 | overwriting the found item's quantity makes the held quantity exactly the given value, leaves every other (cart, product) quantity unchanged, and keeps items unique |
| `Records.Added` | src/services/cart.service.ts:29-46 | find-or-create-then-increment: every existing item keeps its id, cart and product, and exactly one item is appended precisely when the cart held no item for the product |
| `Records.AddedEffect` | src/services/cart.service.ts:29-46 | find-or-create-then-increment raises the held quantity by exactly the requested amount (from 0 for a new item), leaves every other (cart, product) quantity unchanged, and never creates a second item for the same pair |
| `Records.AppendedEffect` | src/services/cart.service.ts:37-46 | appending an item for a pair that has none makes it the pair's only item and leaves every other pair's quantity unchanged |
| `Records.RemovedEffect` | src/services/cart.service.ts:88-95 | removing the found item leaves no item for that (cart, product) and every other pair's quantity unchanged, and keeps items unique |
| `Records.RemovedKeepsOther` | src/services/cart.service.ts:93 | for every pair the removed item does not hold, the lookup still finds an item exactly when it did before, finds the same item (its position may shift down by one), and the held quantity is unchanged |
| `Records.RemovedUnique` | src/services/cart.service.ts:93 | removing an item keeps items unique per (cart, product) and ids distinct |
| `Records.ItemsOfCart` | src/services/cart.service.ts:62-70 | the loaded `cart.items` are exactly the table's items of that cart |
| `Records.WithoutCart` | src/services/cart.service.ts:125 | after the delete, the table holds exactly the items of other carts |
| `Records.WithoutCartEmpties` | src/services/cart.service.ts:124-126 | after clearing a cart it has no items |
| `Records.WithoutCartEffect` | src/services/cart.service.ts:124-126 | after clearing a cart every other cart's items are the same, in the same order |
| `Records.WithoutCartKeepsKeys` | src/services/cart.service.ts:125 | clearing a cart keeps items unique per (cart, product) and ids distinct |
| `Records.ItemsOfCartUnique` | src/services/cart.service.ts:70-76 | one cart's items are unique per product when the table is unique per (cart, product) |
| `Records.Lines` | src/services/cart.service.ts:70-76 | the projection has one entry per item, in item order, with the item's product id and quantity and the product's title, price and image |
| `Records.CartViewAgrees` | src/services/cart.service.ts:68-78 | the projection of a cart is its cart view: each entry's quantity is the one the lookup finds for its product in that cart, and no product appears twice |
| `Records.TotalPrice` | src/services/order.service.ts:54-57 | the `reduce` from the left, starting at 0, adding price times quantity for each item in order (its meaning is stated by `Records.TotalPriceIsSum`) |
| `Records.TotalPriceIsSum` | src/services/order.service.ts:54-57 | the `reduce` from the left equals the sum of price times quantity over the items |
| `Records.TotalPriceAppend` | src/services/order.service.ts:54-57 | the total of two item lists put together is the sum of their totals |
| `Records.TotalPriceNonNegative` | src/services/order.service.ts:54-57 | non-negative prices and quantities give a non-negative total |
| `Tables.Store.InsertProduct` | src/services/product.service.ts:48 | saving a new valid, derived product with an unused title adds exactly that row under the next id and keeps the invariant |
| `Tables.Store.ReplaceProduct` | src/services/product.service.ts:124 | saving an existing product replaces exactly that row and keeps the invariant |
| `Tables.Store.DeleteProductRow` | src/services/product.service.ts:138 | deleting a product nothing refers to removes exactly that row and keeps the invariant |
| `Tables.Store.CreateCart` | src/services/cart.service.ts:19-22 | creating a cart links the user to a new cart id and changes nothing else |
| `Tables.Store.InsertCartItem` | src/services/cart.service.ts:37-46 | saving a new item appends it under the next id and keeps items unique |
| `Tables.Store.SaveQuantity` | src/services/cart.service.ts:111-112 | saving an item with a new quantity changes only that item's quantity |
| `Tables.Store.RemoveCartItem` | src/services/cart.service.ts:93 | removing an item deletes exactly that item |
| `Tables.Store.DeleteItemsOfCart` | src/services/cart.service.ts:124-126 | deleting by cart removes exactly that cart's items |
| `Tables.Store.InsertOrder` | src/services/order.service.ts:59 | saving an order adds exactly that order under the next id |
| `Tables.Store.DeleteOrderRow` | src/services/order.service.ts:76 | removing an order deletes exactly that order |
| `ProductService.AssignChanges` | src/services/product.service.ts:94-111 | title, description, price, category and image are always overwritten, stock and reserved only when given |
| `ProductService.AssignStock` | src/services/product.service.ts:154-162 | only stock and reserved are overwritten, each only when given |
| `ProductService.Candidate` | src/services/product.service.ts:16-27 | the entity `addProduct` builds: fields copied from the body, `reserved` 0 when absent, and `available` already derived from stock and reserved |
| `ProductService.TitleTaken` | src/services/product.service.ts:43-46 | some stored product already has the title, so `addProduct` answers 400 |
| `ProductService.TitleTakenByOther` | src/entities/Product.ts:21 | a product other than the one being saved has the title, so the unique column rejects the save; this implies the title is taken, and is the same as taken when the product's own title differs or the product is new |
| `ProductService.AddProduct` | src/services/product.service.ts:7-57 | 400 when validation fails, 400 when the title is taken, 500 on any other storage failure, saving nothing in each case; otherwise the saved row has `reserved` defaulting to 0, `available == max(0, stock - reserved)` and a new id, and nothing else changes |
| `ProductService.GetProduct` | src/services/product.service.ts:71-81 | the stored product when it exists, otherwise 500 |
| `ProductService.UpdateProduct` | src/services/product.service.ts:83-129 | on success the row has the new title, description, price, category and image, stock and reserved replaced only when given, and `available` re-derived; a missing product, a validation failure or a title clash gives 500 and changes nothing |
| `ProductService.UpdateStock` | src/services/product.service.ts:147-183 | on success only stock and reserved change, each only when given, and `available` is re-derived; every failure gives 500 and changes nothing |
| `ProductService.DeleteProduct` | src/services/product.service.ts:131-144 | removes exactly the given product when it exists and nothing refers to it, otherwise 500 and nothing changes |
| `CartService.AddProductToCart` | src/services/cart.service.ts:8-59 | unknown user: 404, nothing changes; a missing cart is created before the product check, so an unknown product gives 404 but leaves the new cart; otherwise the held quantity grows by exactly the requested amount, other pairs are unchanged, products and orders are untouched, and the answer carries the item's new quantity and the product's id, title and price |
| `CartService.GetCart` | src/services/cart.service.ts:60-79 | unknown user: 404; no cart: `{ items: [] }`; otherwise the cart view of the user's cart, in stored order |
| `CartService.RemoveProductFromCart` | src/services/cart.service.ts:80-96 | unknown user: 404; no cart: 500; product not in the cart: 404; otherwise exactly that item is removed and every other pair is unchanged |
| `CartService.UpdateProductToCart` | src/services/cart.service.ts:97-115 | the same failures as removal; otherwise the item's quantity becomes exactly the given value, every other pair is unchanged, and the saved item is returned |
| `CartService.ClearCart` | src/services/cart.service.ts:116-129 | unknown user: 404; otherwise "Cart cleared", with the user's cart (if any) emptied and every other cart's items unchanged |
| `OrderService.GetOrders` | src/services/order.service.ts:9-18 | unknown user: 404; otherwise exactly the orders owned by the user |
| `OrderService.GetOrderById` | src/services/order.service.ts:19-30 | unknown user, missing order, or an order owned by someone else: 404; otherwise that order |
| `OrderService.ItemFor` | src/services/order.service.ts:46-49 | the order item carries the request's product id, quantity and price, so it contributes price times quantity from the request to the total |
| `OrderService.CreateOrder` | src/services/order.service.ts:31-61 | unknown user: 500 before anything is built; a missing product: 404 and no order saved; otherwise one "pending" order owned by the user, with one item per request entry in request order, quantity and price copied from the request, total equal to the sum of price times quantity, saved under a new id; products and carts unchanged |
| `OrderService.DeleteOrder` | src/services/order.service.ts:66-78 | the same 404s as lookup by id; otherwise exactly that order is removed and no product changes |

## Left out

- Controllers, routes, Swagger documentation, authentication, access control, image
  upload and the user service: HTTP plumbing and calls into libraries. Users are a
  set of ids given to the `Store` constructor; nothing here creates or deletes users.
- `getProducts`: a plain listing of the product table, outside the modelled core.
- `updateOrder`: a stub that returns `{}` and touches nothing, so there is nothing
  to model.
- Error messages: only the status of each error is modelled.
- `Number()` coercion, `NaN` and absent request fields: numeric inputs are integers,
  and an absent text field is the empty string (both fail the same validators).
- Decimal prices: prices are integers (cents), so the order total is exact.
- Storage failures outside `addProduct`: a failing repository call carries no status,
  so in every service function it ends as 500 at `src/middleware/errorHandler.ts:2`.
  Only `addProduct` takes a `storageFault` flag for it. Everywhere else the model
  assumes the repository succeeds.
- Concurrency and interleaving of the asynchronous calls: every operation runs alone
  against the store.
- Order-item ids and the row order in which relations are loaded. The model treats
  the cart-item table as ordered by insertion and returns a cart's items in that
  order.
- Deleting users: no code in the repository deletes a user, so the schema's cascade
  from a user to their cart (`src/entities/Cart.ts:16`) and from a cart to its items
  (`src/entities/CartItem.ts:11`) is not modelled.
- `CartService.AddProductToCart`, `CartService.UpdateProductToCart`,
  `ProductService.AddProduct`, `ProductService.UpdateProduct`,
  `ProductService.UpdateStock` and `OrderService.CreateOrder`: the `stock`,
  `reserved`, `available` and `quantity` columns (`src/entities/Product.ts:44-59`,
  `src/entities/CartItem.ts:17-19`, `src/entities/OrderItem.ts:16-17`) are unbounded
  integers here. On Postgres they are 32-bit `integer` columns, so a save that puts
  a value outside -2147483648..2147483647 into one fails, and the client gets 500.
  Examples are adding 1 to a cart quantity of 2147483647, setting stock to
  3000000000, or ordering 3000000000 of a product (the save at
  `src/services/order.service.ts:59`). The model answers `Ok` for all three.
- `ProductService.UpdateStock`: validation is modelled as a predicate over the
  column values, with the ORM abstracted away. TypeORM returns a Postgres `decimal`
  column such as `price` (`src/entities/Product.ts:30`) as a string. `updateStock`
  never reassigns `price`, so `validate(product)` at
  `src/services/product.service.ts:166` sees a string, `@IsNumber()` rejects it, and
  the catch at `:179-181` turns that into 500. Against a real database every
  `updateStock` call would therefore fail, while the model's `UpdateStock` succeeds
  whenever the stored values satisfy the constraints. This rests on library
  behaviour that lies outside the modelled code.
- Logging: `console.error` (`src/services/product.service.ts:54,67,79,127,141,180`)
  and `console.log` (`src/services/cart.service.ts:98`,
  `src/services/order.service.ts:74`) are output only and are not modelled.
- `Product.IsValid`: text is a Dafny string, a sequence of Unicode characters, and
  the `@MinLength(2)` checks on title and category (`src/entities/Product.ts:22,36`)
  count those characters. class-validator measures length on a JavaScript string
  differently: it counts a surrogate pair as one and skips the variation selectors
  U+FE0E and U+FE0F. So on text that contains a variation selector the two can
  disagree. The title "❤️" (U+2764 U+FE0F) has length 2 here and passes, where
  `addProduct` would answer 400. Titles are compared for equality exactly, as
  Postgres compares them.
