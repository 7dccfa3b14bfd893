/** The cart and order records and the pure functions over the cart-item and order
    tables that the services use: a lookup by cart and product, the effect of each
    cart mutation, the relations the ORM loads, and the order total. */
module Records {
  import opened AppErrors
  import opened Product

  /** A row of the cart-item table: an item of cart `cart` for product `product`. */
  datatype CartItem = CartItem(id: nat, cart: nat, product: nat, quantity: int)

  /** A line of an order: the product, the quantity and the unit price charged. */
  datatype OrderItem = OrderItem(product: nat, quantity: int, price: int)

  datatype Order = Order(id: nat, user: nat, items: seq<OrderItem>, totalPrice: int, status: string)

  /** One entry of the cart view. */
  datatype CartLine = CartLine(productId: nat, productName: string, productPrice: int, quantity: int, image: string)

  // ---------------------------------------------------------------------------
  // Cart items

  /** The item belongs to cart `cart` and is for product `product`. */
  predicate Holds(item: CartItem, cart: nat, product: nat) {
    item.cart == cart && item.product == product
  }

  /** The two items are for the same (cart, product) pair. */
  predicate SameSlot(a: CartItem, b: CartItem) {
    Holds(a, b.cart, b.product)
  }

  /** No two items share a (cart, product) pair. */
  predicate UniquePerCartProduct(items: seq<CartItem>) {
    forall i, j | 0 <= i < j < |items| :: !SameSlot(items[i], items[j])
  }

  /** No two items share an id (the primary key). */
  predicate DistinctIds(items: seq<CartItem>) {
    forall i, j | 0 <= i < j < |items| :: items[i].id != items[j].id
  }

  /** `cartItemRepo.findOne({ cart, product })`: the position of the first item of
      `cart` for `product`, if there is one. */
  function Find(items: seq<CartItem>, cart: nat, product: nat): (r: Option<nat>)
    ensures r.Some? ==> r.value < |items| && Holds(items[r.value], cart, product)
    ensures r.Some? ==> forall k | 0 <= k < r.value :: !Holds(items[k], cart, product)
    ensures r.None? ==> forall k | 0 <= k < |items| :: !Holds(items[k], cart, product)
  {
    if |items| == 0 then None
    else if Holds(items[0], cart, product) then Some(0)
    else match Find(items[1..], cart, product)
      case None => None
      case Some(i) => Some(i + 1)
  }

  /** The first matching position determines `Find`. */
  lemma FindIsFirst(items: seq<CartItem>, cart: nat, product: nat, k: nat)
    requires k < |items| && Holds(items[k], cart, product)
    requires forall j | 0 <= j < k :: !Holds(items[j], cart, product)
    ensures Find(items, cart, product) == Some(k)
  {
  }

  /** Under uniqueness the only matching position is the one `Find` returns. */
  lemma FindIsOnly(items: seq<CartItem>, cart: nat, product: nat, k: nat)
    requires UniquePerCartProduct(items)
    requires k < |items| && Holds(items[k], cart, product)
    ensures Find(items, cart, product) == Some(k)
  {
    forall j | 0 <= j < k
      ensures !Holds(items[j], cart, product)
    {
      assert !SameSlot(items[j], items[k]);
    }
    FindIsFirst(items, cart, product, k);
  }

  /** The quantity held for `product` in `cart`, 0 when there is no such item. */
  function QuantityIn(items: seq<CartItem>, cart: nat, product: nat): int {
    match Find(items, cart, product)
    case Some(i) => items[i].quantity
    case None => 0
  }

  /** The item at `i` with its quantity overwritten (`cartItem.quantity = quantity`). */
  function SetQuantity(items: seq<CartItem>, i: nat, quantity: int): (r: seq<CartItem>)
    requires i < |items|
    ensures |r| == |items| && r[i].quantity == quantity
    ensures r[i].id == items[i].id && SameSlot(r[i], items[i])
    ensures forall k | 0 <= k < |items| && k != i :: r[k] == items[k]
  {
    items[i := items[i].(quantity := quantity)]
  }

  /** Find-or-create-then-increment, as `addProductToCart` does it; `freshId` is the id
      the table assigns to a newly created item. */
  function Added(items: seq<CartItem>, cart: nat, product: nat, quantity: int, freshId: nat): (r: seq<CartItem>)
    ensures |r| == |items| || |r| == |items| + 1
    ensures |r| == |items| + 1 <==> Find(items, cart, product).None?
    ensures forall k | 0 <= k < |items| :: r[k].id == items[k].id && SameSlot(r[k], items[k])
  {
    match Find(items, cart, product)
    case Some(i) => SetQuantity(items, i, items[i].quantity + quantity)
    case None => items + [CartItem(freshId, cart, product, quantity)]
  }

  /** The table without the item at `i` (`cartItemRepo.remove`). */
  function RemovedAt(items: seq<CartItem>, i: nat): (r: seq<CartItem>)
    requires i < |items|
    ensures |r| == |items| - 1
    ensures forall k | 0 <= k < i :: r[k] == items[k]
    ensures forall k | i <= k < |r| :: r[k] == items[k + 1]
  {
    items[..i] + items[i + 1..]
  }

  /** Overwriting one item's quantity sets the held quantity to exactly that value,
      leaves every other (cart, product) pair as it was, and keeps the table unique. */
  lemma SetQuantityEffect(items: seq<CartItem>, cart: nat, product: nat, quantity: int)
    requires Find(items, cart, product).Some?
    ensures var r := SetQuantity(items, Find(items, cart, product).value, quantity);
      && Find(r, cart, product) == Find(items, cart, product)
      && QuantityIn(r, cart, product) == quantity
      && (forall c, p | !(c == cart && p == product) :: QuantityIn(r, c, p) == QuantityIn(items, c, p))
      && (UniquePerCartProduct(items) ==> UniquePerCartProduct(r))
  {
    var i := Find(items, cart, product).value;
    var r := SetQuantity(items, i, quantity);
    FindIsFirst(r, cart, product, i);
    forall c, p | !(c == cart && p == product)
      ensures QuantityIn(r, c, p) == QuantityIn(items, c, p)
    {
      match Find(items, c, p)
      case Some(j) =>
        FindIsFirst(r, c, p, j);
      case None =>
        assert forall k | 0 <= k < |r| :: !Holds(r[k], c, p);
    }
    if UniquePerCartProduct(items) {
      forall a, b | 0 <= a < b < |r| ensures !SameSlot(r[a], r[b]) {
        assert SameSlot(r[a], r[b]) <==> SameSlot(items[a], items[b]);
      }
    }
  }

  /** `addProductToCart` raises the held quantity by exactly the requested amount
      (from 0 when the item is new), leaves every other (cart, product) pair alone and
      never creates a second item for the same pair. */
  lemma {:induction false} AddedEffect(items: seq<CartItem>, cart: nat, product: nat, quantity: int, freshId: nat)
    ensures var r := Added(items, cart, product, quantity, freshId);
      && Find(r, cart, product).Some?
      && QuantityIn(r, cart, product) == QuantityIn(items, cart, product) + quantity
      && (forall c, p | !(c == cart && p == product) :: QuantityIn(r, c, p) == QuantityIn(items, c, p))
      && (UniquePerCartProduct(items) ==> UniquePerCartProduct(r))
  {
    match Find(items, cart, product)
    case Some(i) =>
      SetQuantityEffect(items, cart, product, items[i].quantity + quantity);
    case None =>
      AppendedEffect(items, CartItem(freshId, cart, product, quantity));
  }

  /** Appending an item for a pair that has none makes it the pair's item, leaves every
      other pair alone, and keeps the table unique. */
  lemma AppendedEffect(items: seq<CartItem>, x: CartItem)
    requires Find(items, x.cart, x.product).None?
    ensures var r := items + [x];
      && Find(r, x.cart, x.product) == Some(|items|)
      && (forall c, p | !(c == x.cart && p == x.product) :: QuantityIn(r, c, p) == QuantityIn(items, c, p))
      && (UniquePerCartProduct(items) ==> UniquePerCartProduct(r))
  {
    var r := items + [x];
    FindIsFirst(r, x.cart, x.product, |items|);
    forall c, p | !(c == x.cart && p == x.product)
      ensures QuantityIn(r, c, p) == QuantityIn(items, c, p)
    {
      match Find(items, c, p)
      case Some(j) =>
        FindIsFirst(r, c, p, j);
      case None =>
        assert forall k | 0 <= k < |r| :: !Holds(r[k], c, p);
    }
    if UniquePerCartProduct(items) {
      forall a, b | 0 <= a < b < |r| ensures !SameSlot(r[a], r[b]) {
        if b == |items| {
          assert !Holds(items[a], x.cart, x.product);
        }
      }
    }
  }

  /** Removing the item `Find` returned leaves no item for that pair (given uniqueness),
      and every other pair keeps its item and quantity. */
  lemma RemovedEffect(items: seq<CartItem>, cart: nat, product: nat)
    requires UniquePerCartProduct(items)
    requires Find(items, cart, product).Some?
    ensures var r := RemovedAt(items, Find(items, cart, product).value);
      && Find(r, cart, product).None?
      && (forall c, p | !(c == cart && p == product) :: QuantityIn(r, c, p) == QuantityIn(items, c, p))
      && UniquePerCartProduct(r)
  {
    var i := Find(items, cart, product).value;
    var r := RemovedAt(items, i);
    forall k | 0 <= k < |r| ensures !Holds(r[k], cart, product) {
      if k >= i {
        assert !SameSlot(items[i], items[k + 1]);
      }
    }
    forall c, p | !(c == cart && p == product)
      ensures QuantityIn(r, c, p) == QuantityIn(items, c, p)
    {
      RemovedKeepsOther(items, i, c, p);
    }
    RemovedUnique(items, i);
  }

  /** Removing position `i` keeps, for any pair the item at `i` does not hold, whether
      the lookup finds an item, which item it finds (its position may shift down by
      one), and so the quantity held. */
  lemma RemovedKeepsOther(items: seq<CartItem>, i: nat, c: nat, p: nat)
    requires i < |items| && !Holds(items[i], c, p)
    ensures Find(RemovedAt(items, i), c, p).Some? <==> Find(items, c, p).Some?
    ensures Find(items, c, p).Some? ==>
      RemovedAt(items, i)[Find(RemovedAt(items, i), c, p).value] == items[Find(items, c, p).value]
    ensures QuantityIn(RemovedAt(items, i), c, p) == QuantityIn(items, c, p)
  {
    var r := RemovedAt(items, i);
    match Find(items, c, p)
    case Some(j) =>
      if j < i {
        FindIsFirst(r, c, p, j);
      } else {
        forall k | 0 <= k < j - 1 ensures !Holds(r[k], c, p) {
          if k >= i { assert r[k] == items[k + 1]; }
        }
        assert r[j - 1] == items[j];
        FindIsFirst(r, c, p, j - 1);
      }
    case None =>
      forall k | 0 <= k < |r| ensures !Holds(r[k], c, p) {
        if k >= i { assert r[k] == items[k + 1]; }
      }
  }

  /** Removing an item keeps the table unique and its ids distinct. */
  lemma RemovedUnique(items: seq<CartItem>, i: nat)
    requires i < |items|
    ensures UniquePerCartProduct(items) ==> UniquePerCartProduct(RemovedAt(items, i))
    ensures DistinctIds(items) ==> DistinctIds(RemovedAt(items, i))
  {
    var r := RemovedAt(items, i);
    forall a, b | 0 <= a < b < |r|
      ensures r[a] == items[if a < i then a else a + 1] && r[b] == items[if b < i then b else b + 1]
    {
    }
  }

  /** `cart.items`: the items of `cart`, in table order. */
  function ItemsOfCart(items: seq<CartItem>, cart: nat): (r: seq<CartItem>)
    ensures forall x :: x in r <==> x in items && x.cart == cart
    ensures |r| <= |items|
  {
    if |items| == 0 then []
    else if items[0].cart == cart then [items[0]] + ItemsOfCart(items[1..], cart)
    else ItemsOfCart(items[1..], cart)
  }

  /** `cartItemRepo.delete({ cart })`: the table without the items of `cart`. */
  function WithoutCart(items: seq<CartItem>, cart: nat): (r: seq<CartItem>)
    ensures forall x :: x in r <==> x in items && x.cart != cart
    ensures |r| <= |items|
  {
    if |items| == 0 then []
    else if items[0].cart == cart then WithoutCart(items[1..], cart)
    else [items[0]] + WithoutCart(items[1..], cart)
  }

  /** Clearing a cart leaves it with no items. */
  lemma {:induction false} WithoutCartEmpties(items: seq<CartItem>, cart: nat)
    ensures ItemsOfCart(WithoutCart(items, cart), cart) == []
  {
    if |items| > 0 {
      WithoutCartEmpties(items[1..], cart);
      if items[0].cart != cart {
        assert WithoutCart(items, cart) == [items[0]] + WithoutCart(items[1..], cart);
        assert ([items[0]] + WithoutCart(items[1..], cart))[1..] == WithoutCart(items[1..], cart);
      }
    }
  }

  /** Clearing one cart leaves every other cart's items exactly as they were, in the
      same order. */
  lemma {:induction false} WithoutCartEffect(items: seq<CartItem>, cart: nat, other: nat)
    requires other != cart
    ensures ItemsOfCart(WithoutCart(items, cart), other) == ItemsOfCart(items, other)
  {
    if |items| > 0 {
      WithoutCartEffect(items[1..], cart, other);
      if items[0].cart != cart {
        assert WithoutCart(items, cart) == [items[0]] + WithoutCart(items[1..], cart);
        assert ([items[0]] + WithoutCart(items[1..], cart))[1..] == WithoutCart(items[1..], cart);
      }
    }
  }

  /** Putting an item in front of a unique table with distinct ids, when it shares
      neither its slot nor its id with any of them, keeps both properties. */
  lemma ConsKeepsKeys(x: CartItem, t: seq<CartItem>)
    requires UniquePerCartProduct(t) && DistinctIds(t)
    requires forall y | y in t :: !SameSlot(x, y) && x.id != y.id
    ensures UniquePerCartProduct([x] + t) && DistinctIds([x] + t)
  {
    var r := [x] + t;
    forall a, b | 0 <= a < b < |r| ensures !SameSlot(r[a], r[b]) && r[a].id != r[b].id {
      assert r[b] == t[b - 1];
      if a > 0 {
        assert r[a] == t[a - 1];
      }
    }
  }

  /** Dropping the first item keeps the table unique and its ids distinct, and the
      first item shares neither slot nor id with the rest. */
  lemma TailKeepsKeys(items: seq<CartItem>)
    requires |items| > 0 && UniquePerCartProduct(items) && DistinctIds(items)
    ensures UniquePerCartProduct(items[1..]) && DistinctIds(items[1..])
    ensures forall y | y in items[1..] :: !SameSlot(items[0], y) && items[0].id != y.id
  {
    var t := items[1..];
    forall i, j | 0 <= i < j < |t| ensures !SameSlot(t[i], t[j]) && t[i].id != t[j].id {
      assert t[i] == items[i + 1] && t[j] == items[j + 1];
    }
    forall y | y in t ensures !SameSlot(items[0], y) && items[0].id != y.id {
      var m :| 0 <= m < |t| && t[m] == y;
      assert items[m + 1] == y;
    }
  }

  /** Clearing a cart keeps the table unique and its ids distinct. */
  lemma {:induction false} WithoutCartKeepsKeys(items: seq<CartItem>, cart: nat)
    requires UniquePerCartProduct(items) && DistinctIds(items)
    ensures UniquePerCartProduct(WithoutCart(items, cart)) && DistinctIds(WithoutCart(items, cart))
  {
    if |items| > 0 {
      TailKeepsKeys(items);
      WithoutCartKeepsKeys(items[1..], cart);
      if items[0].cart != cart {
        ConsKeepsKeys(items[0], WithoutCart(items[1..], cart));
      }
    }
  }

  /** Filtering a unique table keeps it unique. */
  lemma {:induction false} ItemsOfCartUnique(items: seq<CartItem>, cart: nat)
    requires UniquePerCartProduct(items)
    ensures UniquePerCartProduct(ItemsOfCart(items, cart))
  {
    if |items| > 0 {
      assert UniquePerCartProduct(items[1..]) by {
        forall i, j | 0 <= i < j < |items[1..]| ensures !SameSlot(items[1..][i], items[1..][j]) {
          assert items[1..][i] == items[i + 1] && items[1..][j] == items[j + 1];
        }
      }
      ItemsOfCartUnique(items[1..], cart);
      if items[0].cart == cart {
        var t := ItemsOfCart(items[1..], cart);
        var r := [items[0]] + t;
        forall j | 0 <= j < |t| ensures !SameSlot(items[0], t[j]) {
          assert t[j] in items[1..];
          var m :| 0 <= m < |items[1..]| && items[1..][m] == t[j];
          assert items[m + 1] == t[j];
        }
        forall a, b | 0 <= a < b < |r| ensures !SameSlot(r[a], r[b]) {
          if a == 0 {
            assert r[b] == t[b - 1];
          } else {
            assert r[a] == t[a - 1] && r[b] == t[b - 1];
          }
        }
      }
    }
  }

  /** The cart-view entry of one item, from the product the item refers to. */
  function LineOf(item: CartItem, p: ProductRow): CartLine {
    CartLine(item.product, p.title, p.price, item.quantity, p.image)
  }

  /** `items.map(...)` in `getCart`: one entry per item, in the same order. */
  function Lines(items: seq<CartItem>, products: map<nat, ProductRow>): (r: seq<CartLine>)
    requires forall k | 0 <= k < |items| :: items[k].product in products
    ensures |r| == |items|
    ensures forall k | 0 <= k < |r| ::
      r[k].productId == items[k].product && r[k].quantity == items[k].quantity
    ensures forall k | 0 <= k < |r| :: r[k] == LineOf(items[k], products[items[k].product])
  {
    if |items| == 0 then []
    else [LineOf(items[0], products[items[0].product])] + Lines(items[1..], products)
  }

  /** `view` is the cart view of `cart`: one entry per item of the cart, in table order,
      with that item's product data; each entry carries the quantity that `findOne`
      finds for its product in that cart, and no product appears twice. */
  predicate IsCartView(view: seq<CartLine>, items: seq<CartItem>, products: map<nat, ProductRow>, cart: nat) {
    var own := ItemsOfCart(items, cart);
    && |view| == |own|
    && (forall k | 0 <= k < |own| :: own[k].product in products && view[k] == LineOf(own[k], products[own[k].product]))
    && (forall k | 0 <= k < |view| :: QuantityIn(items, cart, view[k].productId) == view[k].quantity)
    && (forall a, b | 0 <= a < b < |view| :: view[a].productId != view[b].productId)
  }

  /** The projection `getCart` computes is the cart view. */
  lemma CartViewAgrees(items: seq<CartItem>, products: map<nat, ProductRow>, cart: nat)
    requires UniquePerCartProduct(items)
    requires forall x | x in items :: x.product in products
    ensures var own := ItemsOfCart(items, cart);
      && (forall k | 0 <= k < |own| :: own[k].product in products)
      && IsCartView(Lines(own, products), items, products, cart)
  {
    var own := ItemsOfCart(items, cart);
    forall k | 0 <= k < |own| ensures own[k].product in products {
      assert own[k] in items;
    }
    var view := Lines(own, products);
    forall k | 0 <= k < |view|
      ensures QuantityIn(items, cart, view[k].productId) == view[k].quantity
    {
      assert own[k] in items;
      var m :| 0 <= m < |items| && items[m] == own[k];
      FindIsOnly(items, cart, own[k].product, m);
    }
    ItemsOfCartUnique(items, cart);
    forall a, b | 0 <= a < b < |view| ensures view[a].productId != view[b].productId {
      assert !SameSlot(own[a], own[b]);
      assert own[a] in items && own[b] in items;
    }
  }

  // ---------------------------------------------------------------------------
  // Orders

  /** `items.reduce((total, item) => total + item.price * item.quantity, 0)`, a fold
      from the left. */
  function TotalPrice(items: seq<OrderItem>): int {
    if |items| == 0 then 0
    else TotalPrice(items[..|items| - 1]) + items[|items| - 1].price * items[|items| - 1].quantity
  }

  /** The sum of price times quantity, taken from the right: the reference definition. */
  function Sum(items: seq<OrderItem>): int {
    if |items| == 0 then 0 else items[0].price * items[0].quantity + Sum(items[1..])
  }

  lemma {:induction false} SumSnoc(items: seq<OrderItem>, x: OrderItem)
    ensures Sum(items + [x]) == Sum(items) + x.price * x.quantity
  {
    if |items| > 0 {
      assert (items + [x])[1..] == items[1..] + [x];
      SumSnoc(items[1..], x);
    }
  }

  /** The left fold computes the plain sum of price times quantity. */
  lemma {:induction false} TotalPriceIsSum(items: seq<OrderItem>)
    ensures TotalPrice(items) == Sum(items)
  {
    if |items| > 0 {
      var init, last := items[..|items| - 1], items[|items| - 1];
      TotalPriceIsSum(init);
      SumSnoc(init, last);
      assert init + [last] == items;
    }
  }

  /** The total of two item lists put together is the sum of their totals. */
  lemma {:induction false} TotalPriceAppend(a: seq<OrderItem>, b: seq<OrderItem>)
    ensures TotalPrice(a + b) == TotalPrice(a) + TotalPrice(b)
  {
    if |b| == 0 {
      assert a + b == a;
    } else {
      var init := b[..|b| - 1];
      assert (a + b)[..|a + b| - 1] == a + init;
      TotalPriceAppend(a, init);
    }
  }

  /** Non-negative prices and quantities give a non-negative total. */
  lemma {:induction false} TotalPriceNonNegative(items: seq<OrderItem>)
    requires forall k | 0 <= k < |items| :: items[k].price >= 0 && items[k].quantity >= 0
    ensures TotalPrice(items) >= 0
  {
    if |items| > 0 {
      TotalPriceNonNegative(items[..|items| - 1]);
    }
  }
}
