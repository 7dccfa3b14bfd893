/** `cartService`: the user's single cart and its items. None of these operations
    reads or writes a product's stock, reserved or available count. */
module CartService {
  import opened AppErrors
  import opened Records
  import opened Tables

  /** The `product` part of `addProductToCart`'s answer. */
  datatype ProductSummary = ProductSummary(id: nat, name: string, price: int)

  /** What `addProductToCart` returns: the item's new quantity and the product. */
  datatype AddedToCart = AddedToCart(userId: nat, productId: nat, quantity: int, product: ProductSummary)

  /** What `getCart` returns: `{ items: [] }` for a user without a cart, otherwise the
      list of entries. */
  datatype CartView = NoCart | Entries(lines: seq<CartLine>)

  /** `addProductToCart`. An unknown user fails with 404 and nothing changes. A user
      without a cart gets one first, so that an unknown product (404) still leaves a new
      empty cart behind. Otherwise the item for the product is created with the given
      quantity or has it added to its quantity. */
  method AddProductToCart(st: Store, userId: nat, productId: nat, quantity: int) returns (r: Result<AddedToCart>)
    requires st.Valid()
    modifies st
    ensures st.Valid() && ProductTableUnchanged(st) && OrderTableUnchanged(st)
    ensures userId !in st.users ==> r == Err(NotFound) && CartTablesUnchanged(st)
    ensures userId in st.users ==>
      && userId in st.carts
      && (userId in old(st.carts) ==> st.carts == old(st.carts) && st.nextCartId == old(st.nextCartId))
      && (userId !in old(st.carts) ==>
            st.carts == old(st.carts)[userId := old(st.nextCartId)] && st.nextCartId == old(st.nextCartId) + 1)
    ensures r.Ok? <==> userId in st.users && productId in st.products
    ensures r.Err? ==>
      r.status == NotFound && st.cartItems == old(st.cartItems) && st.nextCartItemId == old(st.nextCartItemId)
    ensures r.Ok? ==>
      var cart := st.carts[userId];
      var p := st.products[productId];
      && st.cartItems == Added(old(st.cartItems), cart, productId, quantity, old(st.nextCartItemId))
      && QuantityIn(st.cartItems, cart, productId) == QuantityIn(old(st.cartItems), cart, productId) + quantity
      && (forall c, q | !(c == cart && q == productId) ::
            QuantityIn(st.cartItems, c, q) == QuantityIn(old(st.cartItems), c, q))
      && r.value == AddedToCart(userId, productId, QuantityIn(st.cartItems, cart, productId),
                                ProductSummary(p.id, p.title, p.price))
  {
    if userId !in st.users {
      return Err(NotFound);
    }
    var cart: nat;
    if userId in st.carts {
      cart := st.carts[userId];
    } else {
      cart := st.CreateCart(userId);
    }
    if productId !in st.products {
      return Err(NotFound);
    }
    var product := st.products[productId];
    ghost var before := st.cartItems;
    ghost var freshId := st.nextCartItemId;
    var found := Find(st.cartItems, cart, product.id);
    var item: CartItem;
    if found.Some? {
      item := st.SaveQuantity(found.value, st.cartItems[found.value].quantity + quantity);
    } else {
      item := st.InsertCartItem(cart, product.id, quantity);
      FindIsFirst(st.cartItems, cart, productId, |before|);
    }
    AddedEffect(before, cart, productId, quantity, freshId);
    r := Ok(AddedToCart(userId, productId, item.quantity, ProductSummary(product.id, product.title, product.price)));
  }

  /** `getCart`: 404 for an unknown user, `{ items: [] }` for a user without a cart,
      otherwise one entry per item of the user's cart, in stored order, with the
      product's current title, price and image. */
  method GetCart(st: Store, userId: nat) returns (r: Result<CartView>)
    requires st.Valid()
    ensures userId !in st.users ==> r == Err(NotFound)
    ensures userId in st.users && userId !in st.carts ==> r == Ok(NoCart)
    ensures userId in st.users && userId in st.carts ==> r.Ok? && r.value.Entries?
    ensures r.Ok? && r.value.Entries? ==>
      userId in st.carts && IsCartView(r.value.lines, st.cartItems, st.products, st.carts[userId])
  {
    if userId !in st.users {
      return Err(NotFound);
    }
    if userId !in st.carts {
      return Ok(NoCart);
    }
    var cart := st.carts[userId];
    CartViewAgrees(st.cartItems, st.products, cart);
    var own := ItemsOfCart(st.cartItems, cart);
    var lines := Lines(own, st.products);
    r := Ok(Entries(lines));
  }

  /** `removeProductFromCart`: 404 for an unknown user; a user without a cart makes
      `user.cart.id` throw a TypeError, answered with 500; 404 when the product is
      not in the cart; otherwise that one item is deleted and every other item stays. */
  method RemoveProductFromCart(st: Store, userId: nat, productId: nat) returns (r: Result<string>)
    requires st.Valid()
    modifies st
    ensures st.Valid() && ProductTableUnchanged(st) && OrderTableUnchanged(st)
    ensures st.carts == old(st.carts) && st.nextCartId == old(st.nextCartId)
    ensures st.nextCartItemId == old(st.nextCartItemId)
    ensures userId !in st.users ==> r == Err(NotFound)
    ensures userId in st.users && userId !in st.carts ==> r == Err(ServerError)
    ensures userId in st.users && userId in st.carts ==>
      (r.Ok? <==> Find(old(st.cartItems), st.carts[userId], productId).Some?)
    ensures r.Err? ==> st.cartItems == old(st.cartItems)
    ensures r.Err? && userId in st.carts ==> r.status == NotFound
    ensures r.Ok? ==>
      var cart := st.carts[userId];
      && st.cartItems == RemovedAt(old(st.cartItems), Find(old(st.cartItems), cart, productId).value)
      && Find(st.cartItems, cart, productId).None?
      && (forall c, q | !(c == cart && q == productId) ::
            QuantityIn(st.cartItems, c, q) == QuantityIn(old(st.cartItems), c, q))
      && r.value == "Product removed from cart"
  {
    if userId !in st.users {
      return Err(NotFound);
    }
    if userId !in st.carts {
      return Err(ServerError);
    }
    var cart := st.carts[userId];
    var found := Find(st.cartItems, cart, productId);
    if found.None? {
      return Err(NotFound);
    }
    RemovedEffect(st.cartItems, cart, productId);
    st.RemoveCartItem(found.value);
    r := Ok("Product removed from cart");
  }

  /** `updateProductToCart`: the same failures as `removeProductFromCart`; otherwise the
      item's quantity becomes exactly the given value (no increment, no bound) and the
      saved item is returned. */
  method UpdateProductToCart(st: Store, userId: nat, productId: nat, quantity: int) returns (r: Result<CartItem>)
    requires st.Valid()
    modifies st
    ensures st.Valid() && ProductTableUnchanged(st) && OrderTableUnchanged(st)
    ensures st.carts == old(st.carts) && st.nextCartId == old(st.nextCartId)
    ensures st.nextCartItemId == old(st.nextCartItemId)
    ensures userId !in st.users ==> r == Err(NotFound)
    ensures userId in st.users && userId !in st.carts ==> r == Err(ServerError)
    ensures userId in st.users && userId in st.carts ==>
      (r.Ok? <==> Find(old(st.cartItems), st.carts[userId], productId).Some?)
    ensures r.Err? ==> st.cartItems == old(st.cartItems)
    ensures r.Err? && userId in st.carts ==> r.status == NotFound
    ensures r.Ok? ==>
      var cart := st.carts[userId];
      var i := Find(old(st.cartItems), cart, productId).value;
      && st.cartItems == SetQuantity(old(st.cartItems), i, quantity)
      && r.value == st.cartItems[i] && r.value.quantity == quantity
      && QuantityIn(st.cartItems, cart, productId) == quantity
      && (forall c, q | !(c == cart && q == productId) ::
            QuantityIn(st.cartItems, c, q) == QuantityIn(old(st.cartItems), c, q))
  {
    if userId !in st.users {
      return Err(NotFound);
    }
    if userId !in st.carts {
      return Err(ServerError);
    }
    var cart := st.carts[userId];
    var found := Find(st.cartItems, cart, productId);
    if found.None? {
      return Err(NotFound);
    }
    SetQuantityEffect(st.cartItems, cart, productId, quantity);
    var item := st.SaveQuantity(found.value, quantity);
    r := Ok(item);
  }

  /** `clearCart`: 404 for an unknown user; otherwise "Cart cleared", having deleted
      every item of the user's cart (if there is one) and no item of any other cart. */
  method ClearCart(st: Store, userId: nat) returns (r: Result<string>)
    requires st.Valid()
    modifies st
    ensures st.Valid() && ProductTableUnchanged(st) && OrderTableUnchanged(st)
    ensures st.carts == old(st.carts) && st.nextCartId == old(st.nextCartId)
    ensures st.nextCartItemId == old(st.nextCartItemId)
    ensures userId !in st.users ==> r == Err(NotFound) && st.cartItems == old(st.cartItems)
    ensures userId in st.users ==> r == Ok("Cart cleared")
    ensures userId in st.users && userId !in st.carts ==> st.cartItems == old(st.cartItems)
    ensures userId in st.users && userId in st.carts ==>
      var cart := st.carts[userId];
      && st.cartItems == WithoutCart(old(st.cartItems), cart)
      && ItemsOfCart(st.cartItems, cart) == []
      && (forall other | other != cart :: ItemsOfCart(st.cartItems, other) == ItemsOfCart(old(st.cartItems), other))
  {
    if userId !in st.users {
      return Err(NotFound);
    }
    if userId in st.carts {
      var cart := st.carts[userId];
      ghost var before := st.cartItems;
      st.DeleteItemsOfCart(cart);
      WithoutCartEmpties(before, cart);
      forall other | other != cart
        ensures ItemsOfCart(st.cartItems, other) == ItemsOfCart(before, other)
      {
        WithoutCartEffect(before, cart, other);
      }
    }
    r := Ok("Cart cleared");
  }
}
