/** The repositories behind the services, held in memory: the product, cart,
    cart-item and order tables, the registered users, and the counters that play the
    part of the tables' generated primary keys. */
module Tables {
  import opened Product
  import opened Records

  class Store {
    /** Ids of registered users. Users are created elsewhere; nothing here adds any. */
    const users: set<nat>
    var products: map<nat, ProductRow>
    var nextProductId: nat
    /** The one-to-one user/cart link: user id to cart id. */
    var carts: map<nat, nat>
    var nextCartId: nat
    var cartItems: seq<CartItem>
    var nextCartItemId: nat
    var orders: map<nat, Order>
    var nextOrderId: nat

    /** What the schema and the services keep true of the tables. */
    ghost predicate Valid()
      reads this
    {
      && ProductsValid()
      && CartsValid()
      && CartItemsValid()
      && OrdersValid()
    }

    /** Every stored product is keyed by its id, passed validation, went through the
        hook, and has a title no other product has (the unique title column). */
    ghost predicate ProductsValid()
      reads this
    {
      && (forall id | id in products ::
            products[id].id == id && id < nextProductId
            && IsValid(products[id]) && IsDerived(products[id]))
      && (forall a, b | a in products && b in products && a != b :: products[a].title != products[b].title)
    }

    /** Carts belong to registered users, and no two users share a cart. */
    ghost predicate CartsValid()
      reads this
    {
      && (forall u | u in carts :: u in users && carts[u] < nextCartId)
      && (forall u, v | u in carts && v in carts && u != v :: carts[u] != carts[v])
    }

    /** Each item belongs to an existing cart and refers to an existing product (the
        foreign keys), ids are distinct, and one item at most per (cart, product). */
    ghost predicate CartItemsValid()
      reads this
    {
      && (forall x | x in cartItems ::
            x.cart in carts.Values && x.cart < nextCartId && x.product in products && x.id < nextCartItemId)
      && DistinctIds(cartItems)
      && UniquePerCartProduct(cartItems)
    }

    /** Orders are keyed by id, belong to registered users and refer to existing products. */
    ghost predicate OrdersValid()
      reads this
    {
      forall id | id in orders ::
        && orders[id].id == id && id < nextOrderId && orders[id].user in users
        && forall k | 0 <= k < |orders[id].items| :: orders[id].items[k].product in products
    }

    /** Some cart item or order item refers to product `id`. */
    predicate Referenced(id: nat)
      reads this
    {
      || (exists k | 0 <= k < |cartItems| :: cartItems[k].product == id)
      || (exists o | o in orders :: exists k | 0 <= k < |orders[o].items| :: orders[o].items[k].product == id)
    }

    /** `productRepo.save` of a new product under the next generated id. */
    method InsertProduct(row: ProductRow)
      requires Valid()
      requires row.id == nextProductId && IsValid(row) && IsDerived(row)
      requires forall id | id in products :: products[id].title != row.title
      modifies this
      ensures Valid()
      ensures products == old(products)[row.id := row] && row.id !in old(products)
      ensures nextProductId == old(nextProductId) + 1
      ensures carts == old(carts) && nextCartId == old(nextCartId)
      ensures cartItems == old(cartItems) && nextCartItemId == old(nextCartItemId)
      ensures orders == old(orders) && nextOrderId == old(nextOrderId)
    {
      products := products[row.id := row];
      nextProductId := nextProductId + 1;
    }

    /** `productRepo.save` of an existing product. */
    method ReplaceProduct(row: ProductRow)
      requires Valid()
      requires row.id in products && IsValid(row) && IsDerived(row)
      requires forall id | id in products && id != row.id :: products[id].title != row.title
      modifies this
      ensures Valid()
      ensures products == old(products)[row.id := row]
      ensures nextProductId == old(nextProductId)
      ensures carts == old(carts) && nextCartId == old(nextCartId)
      ensures cartItems == old(cartItems) && nextCartItemId == old(nextCartItemId)
      ensures orders == old(orders) && nextOrderId == old(nextOrderId)
    {
      products := products[row.id := row];
    }

    /** `productRepo.delete(id)` of a product nothing refers to. */
    method DeleteProductRow(id: nat)
      requires Valid() && !Referenced(id)
      modifies this
      ensures Valid()
      ensures products == old(products) - {id}
      ensures nextProductId == old(nextProductId)
      ensures carts == old(carts) && nextCartId == old(nextCartId)
      ensures cartItems == old(cartItems) && nextCartItemId == old(nextCartItemId)
      ensures orders == old(orders) && nextOrderId == old(nextOrderId)
    {
      products := products - {id};
    }

    /** `cartRepo.save` of a new, empty cart for user `u`. */
    method CreateCart(u: nat) returns (cart: nat)
      requires Valid() && u in users && u !in carts
      modifies this
      ensures Valid()
      ensures cart == old(nextCartId) && carts == old(carts)[u := cart]
      ensures nextCartId == old(nextCartId) + 1
      ensures products == old(products) && nextProductId == old(nextProductId)
      ensures cartItems == old(cartItems) && nextCartItemId == old(nextCartItemId)
      ensures orders == old(orders) && nextOrderId == old(nextOrderId)
    {
      cart := nextCartId;
      forall x | x in cartItems ensures x.cart in carts[u := cart].Values {
        var v :| v in carts && carts[v] == x.cart;
        assert carts[u := cart][v] == x.cart;
      }
      carts := carts[u := cart];
      nextCartId := nextCartId + 1;
    }

    /** `cartItemRepo.save` of a new item of `cart` for `product`, under the next id. */
    method InsertCartItem(cart: nat, product: nat, quantity: int) returns (item: CartItem)
      requires Valid() && cart in carts.Values && product in products
      requires Find(cartItems, cart, product).None?
      modifies this
      ensures Valid()
      ensures item == CartItem(old(nextCartItemId), cart, product, quantity)
      ensures cartItems == old(cartItems) + [item]
      ensures nextCartItemId == old(nextCartItemId) + 1
      ensures products == old(products) && nextProductId == old(nextProductId)
      ensures carts == old(carts) && nextCartId == old(nextCartId)
      ensures orders == old(orders) && nextOrderId == old(nextOrderId)
    {
      var v :| v in carts && carts[v] == cart;
      item := CartItem(nextCartItemId, cart, product, quantity);
      cartItems := cartItems + [item];
      nextCartItemId := nextCartItemId + 1;
    }

    /** `cartItemRepo.save` of the item at position `i` with a new quantity. */
    method SaveQuantity(i: nat, quantity: int) returns (item: CartItem)
      requires Valid() && i < |cartItems|
      modifies this
      ensures Valid()
      ensures item == old(cartItems[i]).(quantity := quantity)
      ensures cartItems == SetQuantity(old(cartItems), i, quantity)
      ensures nextCartItemId == old(nextCartItemId)
      ensures products == old(products) && nextProductId == old(nextProductId)
      ensures carts == old(carts) && nextCartId == old(nextCartId)
      ensures orders == old(orders) && nextOrderId == old(nextOrderId)
    {
      item := cartItems[i].(quantity := quantity);
      forall a, b | 0 <= a < b < |cartItems|
        ensures SetQuantity(cartItems, i, quantity)[a].id != SetQuantity(cartItems, i, quantity)[b].id
        ensures !SameSlot(SetQuantity(cartItems, i, quantity)[a], SetQuantity(cartItems, i, quantity)[b])
      {
      }
      cartItems := SetQuantity(cartItems, i, quantity);
    }

    /** `cartItemRepo.remove` of the item at position `i`. */
    method RemoveCartItem(i: nat)
      requires Valid() && i < |cartItems|
      modifies this
      ensures Valid()
      ensures cartItems == RemovedAt(old(cartItems), i)
      ensures nextCartItemId == old(nextCartItemId)
      ensures products == old(products) && nextProductId == old(nextProductId)
      ensures carts == old(carts) && nextCartId == old(nextCartId)
      ensures orders == old(orders) && nextOrderId == old(nextOrderId)
    {
      RemovedUnique(cartItems, i);
      cartItems := RemovedAt(cartItems, i);
    }

    /** `cartItemRepo.delete({ cart })`. */
    method DeleteItemsOfCart(cart: nat)
      requires Valid()
      modifies this
      ensures Valid()
      ensures cartItems == WithoutCart(old(cartItems), cart)
      ensures nextCartItemId == old(nextCartItemId)
      ensures products == old(products) && nextProductId == old(nextProductId)
      ensures carts == old(carts) && nextCartId == old(nextCartId)
      ensures orders == old(orders) && nextOrderId == old(nextOrderId)
    {
      WithoutCartKeepsKeys(cartItems, cart);
      cartItems := WithoutCart(cartItems, cart);
    }

    /** `orderRepo.save` of a new order under the next generated id. */
    method InsertOrder(order: Order)
      requires Valid() && order.id == nextOrderId && order.user in users
      requires forall k | 0 <= k < |order.items| :: order.items[k].product in products
      modifies this
      ensures Valid()
      ensures orders == old(orders)[order.id := order] && order.id !in old(orders)
      ensures nextOrderId == old(nextOrderId) + 1
      ensures products == old(products) && nextProductId == old(nextProductId)
      ensures carts == old(carts) && nextCartId == old(nextCartId)
      ensures cartItems == old(cartItems) && nextCartItemId == old(nextCartItemId)
    {
      orders := orders[order.id := order];
      nextOrderId := nextOrderId + 1;
    }

    /** `orderRepo.remove` of order `id` (its items go with it). */
    method DeleteOrderRow(id: nat)
      requires Valid()
      modifies this
      ensures Valid()
      ensures orders == old(orders) - {id}
      ensures nextOrderId == old(nextOrderId)
      ensures products == old(products) && nextProductId == old(nextProductId)
      ensures carts == old(carts) && nextCartId == old(nextCartId)
      ensures cartItems == old(cartItems) && nextCartItemId == old(nextCartItemId)
    {
      orders := orders - {id};
    }

    /** A store with the given registered users and empty tables. */
    constructor (registered: set<nat>)
      ensures Valid()
      ensures users == registered
      ensures products == map[] && carts == map[] && cartItems == [] && orders == map[]
    {
      users := registered;
      products, nextProductId := map[], 0;
      carts, nextCartId := map[], 0;
      cartItems, nextCartItemId := [], 0;
      orders, nextOrderId := map[], 0;
    }
  }

  /** The product table and its key counter are as they were. */
  twostate predicate ProductTableUnchanged(st: Store)
    reads st
  {
    st.products == old(st.products) && st.nextProductId == old(st.nextProductId)
  }

  /** The cart table, the cart-item table and their key counters are as they were. */
  twostate predicate CartTablesUnchanged(st: Store)
    reads st
  {
    && st.carts == old(st.carts) && st.nextCartId == old(st.nextCartId)
    && st.cartItems == old(st.cartItems) && st.nextCartItemId == old(st.nextCartItemId)
  }

  /** The order table and its key counter are as they were. */
  twostate predicate OrderTableUnchanged(st: Store)
    reads st
  {
    st.orders == old(st.orders) && st.nextOrderId == old(st.nextOrderId)
  }
}
