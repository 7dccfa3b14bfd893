/** The product entity: its columns, the class-validator constraints on them, and the
    hook that derives `available` from `stock` and `reserved` before every save. */
module Product {

  /** A product as stored in the product table. Prices are whole numbers (cents). */
  datatype ProductRow = ProductRow(
    id: nat,
    title: string,
    description: string,
    price: int,
    category: string,
    image: string,
    stock: int,
    reserved: int,
    available: int)

  /** Units still free to sell: `stock - reserved`, clamped at zero. */
  function Available(stock: int, reserved: int): (a: int)
    ensures a >= 0 && a >= stock - reserved
    ensures a == 0 || a == stock - reserved
    ensures reserved >= stock ==> a == 0
    ensures stock >= 0 && reserved >= 0 ==> a <= stock
  {
    if stock - reserved > 0 then stock - reserved else 0
  }

  /** The row after the insert/update hook has run: only `available` is replaced. */
  function Derived(p: ProductRow): (q: ProductRow)
    ensures q.available == Available(p.stock, p.reserved)
    ensures q.(available := p.available) == p
  {
    p.(available := Available(p.stock, p.reserved))
  }

  /** Running the hook twice leaves the same row as running it once. */
  lemma DerivedIdempotent(p: ProductRow)
    ensures Derived(Derived(p)) == Derived(p)
  {
  }

  /** The row satisfies the derivation, i.e. the hook has nothing left to change. */
  predicate IsDerived(p: ProductRow) {
    p.available == Available(p.stock, p.reserved)
  }

  lemma DerivedIsDerived(p: ProductRow)
    ensures IsDerived(Derived(p))
    ensures IsDerived(p) <==> Derived(p) == p
  {
  }

  /** `validate(product)` reports no error: title and category have at least two
      characters, description and image are not empty, and the four numeric columns
      are at least 0. */
  predicate IsValid(p: ProductRow) {
    && |p.title| >= 2
    && |p.description| > 0
    && p.price >= 0
    && |p.category| >= 2
    && |p.image| > 0
    && p.stock >= 0
    && p.reserved >= 0
    && p.available >= 0
  }

  /** A negative price, stock, reserved or available count fails validation. */
  lemma NegativeFailsValidation(p: ProductRow)
    requires p.price < 0 || p.stock < 0 || p.reserved < 0 || p.available < 0
    ensures !IsValid(p)
  {
  }

  /** A stored product that passed validation and went through the hook holds between
      0 and `stock` free units. */
  lemma SavedProductBounds(p: ProductRow)
    requires IsValid(p) && IsDerived(p)
    ensures 0 <= p.available <= p.stock
    ensures p.available == 0 <==> p.reserved >= p.stock
  {
  }

  /** The in-memory entity object the services load, assign field by field and save. */
  class ProductEntity {
    var id: nat
    var title: string
    var description: string
    var price: int
    var category: string
    var image: string
    var stock: int
    var reserved: int
    var available: int

    function Row(): ProductRow
      reads this
    {
      ProductRow(id, title, description, price, category, image, stock, reserved, available)
    }

    /** `new Product()`. TypeORM leaves the fields unset; here they hold placeholders
        (empty text, 0), and `addProduct` assigns every one of them before use. */
    constructor ()
      ensures Row() == ProductRow(0, "", "", 0, "", "", 0, 0, 0)
    {
      id, title, description, price, category, image := 0, "", "", 0, "", "";
      stock, reserved, available := 0, 0, 0;
    }

    /** The entity `findOneBy` hands back for a stored row. */
    constructor Load(row: ProductRow)
      ensures Row() == row
    {
      id, title, description, price, category, image :=
        row.id, row.title, row.description, row.price, row.category, row.image;
      stock, reserved, available := row.stock, row.reserved, row.available;
    }

    /** The `@BeforeInsert` / `@BeforeUpdate` hook. */
    method UpdateAvailableQuantity()
      modifies this
      ensures available == Available(stock, reserved)
      ensures Row() == Derived(old(Row()))
    {
      available := Available(stock, reserved);
    }
  }
}
