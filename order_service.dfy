/** `orderService`: create orders from a list of requested lines, and read or delete a
    user's own orders. Orders never touch stock, reserved counts or carts. */
module OrderService {
  import opened AppErrors
  import opened Records
  import opened Tables

  /** One entry of the `createOrder` request body; the price comes from the request. */
  datatype RequestItem = RequestItem(productId: nat, quantity: int, productPrice: int)

  /** The order item built for a request entry. */
  function ItemFor(line: RequestItem): (r: OrderItem)
    ensures r.product == line.productId && r.quantity == line.quantity && r.price == line.productPrice
    ensures Sum([r]) == line.productPrice * line.quantity
  {
    OrderItem(line.productId, line.quantity, line.productPrice)
  }

  /** Order `id` exists and belongs to `userId`. */
  predicate OwnedBy(orders: map<nat, Order>, id: nat, userId: nat) {
    id in orders && orders[id].user == userId
  }

  /** `getOrders`: 404 for an unknown user, otherwise exactly the user's orders. */
  method GetOrders(st: Store, userId: nat) returns (r: Result<map<nat, Order>>)
    requires st.Valid()
    ensures r.Err? <==> userId !in st.users
    ensures r.Err? ==> r.status == NotFound
    ensures r.Ok? ==> forall id :: id in r.value <==> OwnedBy(st.orders, id, userId)
    ensures r.Ok? ==> forall id | id in r.value :: id in st.orders && r.value[id] == st.orders[id] && r.value[id].user == userId
  {
    if userId !in st.users {
      return Err(NotFound);
    }
    r := Ok(map id | id in st.orders && st.orders[id].user == userId :: st.orders[id]);
  }

  /** `getOrderById`: 404 for an unknown user and for an order that is missing or
      belongs to someone else. */
  method GetOrderById(st: Store, userId: nat, orderId: nat) returns (r: Result<Order>)
    requires st.Valid()
    ensures userId !in st.users ==> r == Err(NotFound)
    ensures r.Ok? <==> userId in st.users && OwnedBy(st.orders, orderId, userId)
    ensures r.Ok? ==> r.value == st.orders[orderId] && r.value.id == orderId && r.value.user == userId
    ensures r.Err? ==> r.status == NotFound
  {
    if userId !in st.users {
      return Err(NotFound);
    }
    if !(orderId in st.orders && st.orders[orderId].user == userId) {
      return Err(NotFound);
    }
    r := Ok(st.orders[orderId]);
  }

  /** `createOrder`. An unknown user throws a plain `Error`, answered with 500, before
      anything is built. Each request entry must name an existing product (else 404 and
      no order is saved) and becomes one order item, in request order, with the
      request's quantity and price. The order starts "pending" and its total is the sum
      of price times quantity. */
  method CreateOrder(st: Store, userId: nat, request: seq<RequestItem>) returns (r: Result<Order>)
    requires st.Valid()
    modifies st
    ensures st.Valid() && ProductTableUnchanged(st) && CartTablesUnchanged(st)
    ensures userId !in st.users ==> r == Err(ServerError)
    ensures userId in st.users && (exists k | 0 <= k < |request| :: request[k].productId !in st.products)
      ==> r == Err(NotFound)
    ensures r.Ok? <==> userId in st.users && forall k | 0 <= k < |request| :: request[k].productId in st.products
    ensures r.Err? ==> OrderTableUnchanged(st)
    ensures r.Ok? ==>
      && r.value.id == old(st.nextOrderId) && r.value.id !in old(st.orders)
      && st.orders == old(st.orders)[r.value.id := r.value]
      && st.nextOrderId == old(st.nextOrderId) + 1
      && r.value.user == userId && r.value.status == "pending"
      && |r.value.items| == |request|
      && (forall k | 0 <= k < |request| :: r.value.items[k] == ItemFor(request[k]))
      && r.value.totalPrice == Sum(r.value.items)
  {
    if userId !in st.users {
      return Err(ServerError);
    }
    var items: seq<OrderItem> := [];
    var i := 0;
    while i < |request|
      modifies {}
      invariant 0 <= i <= |request|
      invariant |items| == i
      invariant forall k | 0 <= k < i :: items[k] == ItemFor(request[k]) && request[k].productId in st.products
    {
      var line := request[i];
      if line.productId !in st.products {
        return Err(NotFound);
      }
      var product := st.products[line.productId];
      items := items + [OrderItem(product.id, line.quantity, line.productPrice)];
      i := i + 1;
    }
    var total := TotalPrice(items);
    TotalPriceIsSum(items);
    var order := Order(st.nextOrderId, userId, items, total, "pending");
    st.InsertOrder(order);
    r := Ok(order);
  }

  /** `deleteOrder`: the same 404s as `getOrderById`; otherwise exactly that order is
      removed, and no stock or reserved count is restored. */
  method DeleteOrder(st: Store, userId: nat, orderId: nat) returns (r: Result<string>)
    requires st.Valid()
    modifies st
    ensures st.Valid() && ProductTableUnchanged(st) && CartTablesUnchanged(st)
    ensures st.nextOrderId == old(st.nextOrderId)
    ensures r.Ok? <==> userId in st.users && OwnedBy(old(st.orders), orderId, userId)
    ensures r.Err? ==> r.status == NotFound && st.orders == old(st.orders)
    ensures r.Ok? ==> st.orders == old(st.orders) - {orderId} && r.value == "Order deleted successfully"
  {
    if userId !in st.users {
      return Err(NotFound);
    }
    if !(orderId in st.orders && st.orders[orderId].user == userId) {
      return Err(NotFound);
    }
    st.DeleteOrderRow(orderId);
    r := Ok("Order deleted successfully");
  }
}
