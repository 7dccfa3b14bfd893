/** `productService`: create, read, update and delete products. Every function except
    `addProduct` catches whatever it throws and re-throws it as a 500 error. */
module ProductService {
  import opened AppErrors
  import opened Product
  import opened Tables

  /** The request body of `addProduct`; `reserved` may be absent. */
  datatype NewProduct = NewProduct(
    title: string, description: string, price: int, category: string, image: string,
    stock: int, reserved: Option<int>)

  /** The request body of `updateProduct`; `stock` and `reserved` may be absent. */
  datatype ProductChanges = ProductChanges(
    title: string, description: string, price: int, category: string, image: string,
    stock: Option<int>, reserved: Option<int>)

  /** The request body of `updateStock`. */
  datatype StockChanges = StockChanges(stock: Option<int>, reserved: Option<int>)

  /** The entity `addProduct` validates: `reserved` defaults to 0 and `available` is
      set explicitly before validation. The id is assigned on insert. */
  function Candidate(body: NewProduct): (r: ProductRow)
    ensures IsDerived(r)
    ensures body.reserved.None? ==> r.reserved == 0
    ensures body.reserved.Some? ==> r.reserved == body.reserved.value
    ensures r.title == body.title && r.price == body.price && r.stock == body.stock
    ensures r.description == body.description && r.category == body.category && r.image == body.image
  {
    var reserved := body.reserved.GetOr(0);
    ProductRow(0, body.title, body.description, body.price, body.category, body.image,
               body.stock, reserved, Available(body.stock, reserved))
  }

  /** The loaded entity after `updateProduct` has assigned its fields, before the hook:
      `available` still holds its stored value. */
  function Assigned(row: ProductRow, ch: ProductChanges): ProductRow {
    row.(title := ch.title, description := ch.description, price := ch.price,
         category := ch.category, image := ch.image,
         stock := ch.stock.GetOr(row.stock), reserved := ch.reserved.GetOr(row.reserved))
  }

  /** The loaded entity after `updateStock` has assigned its fields, before the hook. */
  function StockAssigned(row: ProductRow, ch: StockChanges): ProductRow {
    row.(stock := ch.stock.GetOr(row.stock), reserved := ch.reserved.GetOr(row.reserved))
  }

  /** The field assignments of `updateProduct`. */
  method AssignChanges(p: ProductEntity, ch: ProductChanges)
    modifies p
    ensures p.Row() == Assigned(old(p.Row()), ch)
  {
    p.title := ch.title;
    p.description := ch.description;
    p.price := ch.price;
    p.category := ch.category;
    if ch.stock.Some? {
      p.stock := ch.stock.value;
    }
    if ch.reserved.Some? {
      p.reserved := ch.reserved.value;
    }
    p.image := ch.image;
  }

  /** The field assignments of `updateStock`. */
  method AssignStock(p: ProductEntity, ch: StockChanges)
    modifies p
    ensures p.Row() == StockAssigned(old(p.Row()), ch)
  {
    if ch.stock.Some? {
      p.stock := ch.stock.value;
    }
    if ch.reserved.Some? {
      p.reserved := ch.reserved.value;
    }
  }

  /** `productRepo.findOneBy({ title })` finds a product. */
  predicate TitleTaken(products: map<nat, ProductRow>, title: string) {
    exists id | id in products :: products[id].title == title
  }

  /** A product other than `id` already has `title`, so the unique title column
      rejects the save. */
  predicate TitleTakenByOther(products: map<nat, ProductRow>, id: nat, title: string)
    ensures TitleTakenByOther(products, id, title) ==> TitleTaken(products, title)
    ensures id in products && products[id].title != title ==>
      (TitleTakenByOther(products, id, title) <==> TitleTaken(products, title))
    ensures id !in products ==> (TitleTakenByOther(products, id, title) <==> TitleTaken(products, title))
  {
    exists other | other in products :: other != id && products[other].title == title
  }

  /** `addProduct`. Validation failures and duplicate titles are AppErrors with status
      400 and propagate unchanged; `storageFault` stands for the repository failing
      in any other way, which is re-thrown as 500. Nothing is saved on failure. */
  method AddProduct(st: Store, body: NewProduct, storageFault: bool) returns (r: Result<ProductRow>)
    requires st.Valid()
    modifies st
    ensures st.Valid() && CartTablesUnchanged(st) && OrderTableUnchanged(st)
    ensures !IsValid(Candidate(body)) ==> r == Err(BadRequest)
    ensures IsValid(Candidate(body)) && TitleTaken(old(st.products), body.title) ==> r == Err(BadRequest)
    ensures IsValid(Candidate(body)) && !TitleTaken(old(st.products), body.title) && storageFault
      ==> r == Err(ServerError)
    ensures r.Ok? <==> IsValid(Candidate(body)) && !TitleTaken(old(st.products), body.title) && !storageFault
    ensures r.Err? ==> ProductTableUnchanged(st)
    ensures r.Ok? ==>
      && r.value == Candidate(body).(id := old(st.nextProductId))
      && r.value.id !in old(st.products)
      && st.products == old(st.products)[r.value.id := r.value]
  {
    var p := new ProductEntity();
    p.title := body.title;
    p.description := body.description;
    p.price := body.price;
    p.category := body.category;
    p.stock := body.stock;
    p.reserved := body.reserved.GetOr(0);
    p.available := Available(p.stock, p.reserved);
    p.image := body.image;
    if !IsValid(p.Row()) {
      return Err(BadRequest);
    }
    if TitleTaken(st.products, p.title) {
      return Err(BadRequest);
    }
    if storageFault {
      return Err(ServerError);
    }
    p.id := st.nextProductId;
    p.UpdateAvailableQuantity();
    var row := p.Row();
    st.InsertProduct(row);
    r := Ok(row);
  }

  /** `getProduct`: the stored product, or 500 (the 404 "not found" is re-thrown). */
  method GetProduct(st: Store, id: nat) returns (r: Result<ProductRow>)
    requires st.Valid()
    ensures r.Ok? <==> id in st.products
    ensures r.Ok? ==> r.value == st.products[id] && r.value.id == id
    ensures r.Ok? ==> IsValid(r.value) && IsDerived(r.value)
    ensures r.Err? ==> r.status == ServerError
  {
    if id !in st.products {
      return Err(ServerError);
    }
    r := Ok(st.products[id]);
  }

  /** `updateProduct`: title, description, price, category and image are always
      overwritten, stock and reserved only when given; the hook re-derives
      `available`. "Not found", a validation failure and a title clash on save are
      all re-thrown as 500, and then nothing changes. */
  method UpdateProduct(st: Store, id: nat, ch: ProductChanges) returns (r: Result<ProductRow>)
    requires st.Valid()
    modifies st
    ensures st.Valid() && CartTablesUnchanged(st) && OrderTableUnchanged(st)
    ensures st.nextProductId == old(st.nextProductId)
    ensures r.Ok? <==>
      && id in old(st.products)
      && IsValid(Assigned(old(st.products)[id], ch))
      && !TitleTakenByOther(old(st.products), id, ch.title)
    ensures r.Err? ==> r.status == ServerError && ProductTableUnchanged(st)
    ensures r.Ok? ==> st.products == old(st.products)[id := r.value]
    ensures r.Ok? ==>
      var was := old(st.products)[id];
      && r.value.id == id
      && r.value.title == ch.title && r.value.description == ch.description
      && r.value.price == ch.price && r.value.category == ch.category && r.value.image == ch.image
      && r.value.stock == (if ch.stock.Some? then ch.stock.value else was.stock)
      && r.value.reserved == (if ch.reserved.Some? then ch.reserved.value else was.reserved)
      && r.value.available == Available(r.value.stock, r.value.reserved)
  {
    if id !in st.products {
      return Err(ServerError);
    }
    var p := new ProductEntity.Load(st.products[id]);
    AssignChanges(p, ch);
    if !IsValid(p.Row()) {
      return Err(ServerError);
    }
    if TitleTakenByOther(st.products, id, p.title) {
      return Err(ServerError);
    }
    p.UpdateAvailableQuantity();
    var row := p.Row();
    st.ReplaceProduct(row);
    r := Ok(row);
  }

  /** `updateStock`: only stock and reserved change, each only when given, and the hook
      re-derives `available`; every failure is re-thrown as 500. */
  method UpdateStock(st: Store, id: nat, ch: StockChanges) returns (r: Result<ProductRow>)
    requires st.Valid()
    modifies st
    ensures st.Valid() && CartTablesUnchanged(st) && OrderTableUnchanged(st)
    ensures st.nextProductId == old(st.nextProductId)
    ensures r.Ok? <==> id in old(st.products) && IsValid(StockAssigned(old(st.products)[id], ch))
    ensures r.Err? ==> r.status == ServerError && ProductTableUnchanged(st)
    ensures r.Ok? ==> st.products == old(st.products)[id := r.value]
    ensures r.Ok? ==>
      var was := old(st.products)[id];
      && r.value == was.(stock := r.value.stock, reserved := r.value.reserved, available := r.value.available)
      && r.value.stock == (if ch.stock.Some? then ch.stock.value else was.stock)
      && r.value.reserved == (if ch.reserved.Some? then ch.reserved.value else was.reserved)
      && r.value.available == Available(r.value.stock, r.value.reserved)
  {
    if id !in st.products {
      return Err(ServerError);
    }
    var p := new ProductEntity.Load(st.products[id]);
    AssignStock(p, ch);
    if !IsValid(p.Row()) {
      return Err(ServerError);
    }
    p.UpdateAvailableQuantity();
    var row := p.Row();
    st.ReplaceProduct(row);
    r := Ok(row);
  }

  /** `deleteProduct`: removes exactly the product `id`. A missing product is re-thrown
      as 500, and so is the foreign-key violation when a cart item or an order item
      still refers to it. */
  method DeleteProduct(st: Store, id: nat) returns (r: Result<string>)
    requires st.Valid()
    modifies st
    ensures st.Valid() && CartTablesUnchanged(st) && OrderTableUnchanged(st)
    ensures st.nextProductId == old(st.nextProductId)
    ensures r.Ok? <==> id in old(st.products) && !old(st.Referenced(id))
    ensures r.Ok? ==> st.products == old(st.products) - {id} && r.value == "Product deleted successfully"
    ensures r.Err? ==> r.status == ServerError && ProductTableUnchanged(st)
  {
    if id !in st.products {
      return Err(ServerError);
    }
    if st.Referenced(id) {
      return Err(ServerError);
    }
    st.DeleteProductRow(id);
    r := Ok("Product deleted successfully");
  }
}
