/**
  The Product value object of smart-cart-vite/src/models/Product.js.

  A product is built once from a loosely typed record whose keys may be missing;
  JavaScript's `||` replaces every falsy value (a missing key, "" or 0) by a default.
  Nothing mutates a product afterwards, so it is a datatype here.
*/
module Products {
  import opened Wrappers

  /** A reading of the client's clock, as `new Date()` gives it, in milliseconds; stands for a `Date`. */
  type Timestamp = int

  /**
    The input record of the constructor, and the plain object `toJSON` returns.
    `None` is a key that is absent (or `null`).
  */
  datatype ProductData = ProductData(
    id: Option<string>,
    name: Option<string>,
    brand: Option<string>,
    price: Option<real>,
    originalPrice: Option<real>,
    store: Option<string>,
    storeId: Option<string>,
    imageUrl: Option<string>,
    unit: Option<string>,
    quantity: Option<real>,
    inStock: Option<bool>,
    category: Option<string>,
    upc: Option<string>,
    sku: Option<string>,
    lastUpdated: Option<Timestamp>)

  /** The record of no fields at all, `{}`. */
  const EmptyData := ProductData(None, None, None, None, None, None, None, None, None, None, None, None, None, None, None)

  datatype ProductFields = ProductFields(
    id: Option<string>,
    name: string,
    brand: string,
    price: real,
    originalPrice: real,
    store: string,
    storeId: string,
    imageUrl: Option<string>,
    unit: string,
    quantity: real,
    inStock: bool,
    category: string,
    upc: Option<string>,
    sku: Option<string>,
    lastUpdated: Timestamp)

  const DefaultUnit := "each"
  const DefaultQuantity := 1.0

  /**
    The field values the constructor can produce: a `|| null` field is never "",
    `unit` and `quantity` are never falsy, and `originalPrice` falls back to `price`,
    so it is 0 only when the price is 0 too.
  */
  ghost predicate Normalized(p: ProductFields) {
    && p.id != Some("")
    && p.imageUrl != Some("")
    && p.upc != Some("")
    && p.sku != Some("")
    && p.unit != ""
    && p.quantity != 0.0
    && (p.originalPrice == 0.0 ==> p.price == 0.0)
  }

  /** Every instance of `Product` comes out of its constructor. */
  type Product = p: ProductFields | Normalized(p)
    witness ProductFields(None, "", "", 0.0, 0.0, "", "", None, DefaultUnit, DefaultQuantity, true, "", None, None, 0)


  /** `x || null` on a string-valued key. */
  function OrNull(x: Option<string>): (r: Option<string>)
    ensures x.Some? && x.value != "" ==> r == x
    ensures !(x.Some? && x.value != "") ==> r.None?
    ensures r != Some("")
  {
    if x.Some? && x.value != "" then x else None
  }

  /** `x || d` on a number-valued key. */
  function OrNumber(x: Option<real>, d: real): (r: real)
    ensures x.Some? && x.value != 0.0 ==> r == x.value
    ensures !(x.Some? && x.value != 0.0) ==> r == d
    ensures r == 0.0 ==> d == 0.0
  {
    if x.Some? && x.value != 0.0 then x.value else d
  }

  /**
    The constructor. `now` is the clock reading `new Date()` takes when the record
    has no `lastUpdated` (a `Date` object is never falsy).
  */
  function NewProduct(d: ProductData, now: Timestamp): (p: Product)
    ensures p.id == OrNull(d.id) && p.imageUrl == OrNull(d.imageUrl) && p.upc == OrNull(d.upc) && p.sku == OrNull(d.sku)
    ensures p.name == OrString(d.name, "") && p.brand == OrString(d.brand, "") && p.category == OrString(d.category, "")
    ensures p.store == OrString(d.store, "") && p.storeId == OrString(d.storeId, "")
    ensures p.price == (if d.price.Some? then d.price.value else 0.0)
    ensures p.originalPrice == (if d.originalPrice.Some? && d.originalPrice.value != 0.0 then d.originalPrice.value else p.price)
    ensures p.quantity == (if d.quantity.Some? && d.quantity.value != 0.0 then d.quantity.value else DefaultQuantity)
    ensures p.unit == (if d.unit.Some? && d.unit.value != "" then d.unit.value else DefaultUnit)
    ensures p.inStock == (d.inStock != Some(false))
    ensures p.lastUpdated == (if d.lastUpdated.Some? then d.lastUpdated.value else now)
  {
    ProductFields(
      OrNull(d.id),
      OrString(d.name, ""),
      OrString(d.brand, ""),
      OrNumber(d.price, 0.0),
      OrNumber(d.originalPrice, OrNumber(d.price, 0.0)),
      OrString(d.store, ""),
      OrString(d.storeId, ""),
      OrNull(d.imageUrl),
      OrString(d.unit, DefaultUnit),
      OrNumber(d.quantity, DefaultQuantity),
      if d.inStock.Some? then d.inStock.value else true,
      OrString(d.category, ""),
      OrNull(d.upc),
      OrNull(d.sku),
      if d.lastUpdated.Some? then d.lastUpdated.value else now)
  }

  /** Unit price: the price divided by a positive quantity, otherwise the price itself. */
  function PricePerUnit(p: Product): (r: real)
    ensures p.quantity > 0.0 ==> r * p.quantity == p.price
    ensures p.quantity < 0.0 ==> r == p.price
  {
    if p.quantity > 0.0 then p.price / p.quantity else p.price
  }

  /** JavaScript's `Math.round`: the nearest integer, halves rounded up. */
  function Round(x: real): (r: int)
    ensures r as real - 0.5 <= x < r as real + 0.5
  {
    (x + 0.5).Floor
  }

  /** `originalPrice > price`; a product on sale has a positive original price unless its price is negative. */
  predicate IsOnSale(p: Product)
    ensures IsOnSale(p) && p.price >= 0.0 ==> p.originalPrice > 0.0
  {
    p.originalPrice > p.price
  }

  /** The fraction of the original price saved, as a whole percentage. */
  function DiscountPercentage(p: Product): (r: int)
    ensures !IsOnSale(p) ==> r == 0
    ensures IsOnSale(p) ==>
      r as real - 0.5 <= 100.0 * (p.originalPrice - p.price) / p.originalPrice < r as real + 0.5
    ensures IsOnSale(p) && p.price >= 0.0 ==> 0 <= r <= 100
  {
    if p.originalPrice <= p.price then 0
    else
      var percent := (p.originalPrice - p.price) / p.originalPrice * 100.0;
      assert percent == 100.0 * (p.originalPrice - p.price) / p.originalPrice;
      assert p.price >= 0.0 ==> 0.0 < percent <= 100.0 by {
        if p.price >= 0.0 {
          RatioBounds(p.originalPrice - p.price, p.originalPrice);
        }
      }
      Round(percent)
  }

  lemma RatioBounds(part: real, whole: real)
    requires 0.0 < part <= whole
    ensures 0.0 < part / whole * 100.0 <= 100.0
  {
    assert part / whole <= 1.0;
  }

  /** `isValid` as a boolean (the source returns the last operand of its `&&`). */
  predicate IsValid(p: Product) {
    p.name != "" && p.price >= 0.0 && p.store != ""
  }

  /** `{ ...this }`: every field, under its own key. */
  function ToJSON(p: Product): (d: ProductData)
    ensures d.id == p.id && d.imageUrl == p.imageUrl && d.upc == p.upc && d.sku == p.sku
    ensures d.name == Some(p.name) && d.brand == Some(p.brand) && d.category == Some(p.category)
    ensures d.price == Some(p.price) && d.originalPrice == Some(p.originalPrice)
    ensures d.store == Some(p.store) && d.storeId == Some(p.storeId)
    ensures d.unit == Some(p.unit) && d.quantity == Some(p.quantity)
    ensures d.inStock == Some(p.inStock) && d.lastUpdated == Some(p.lastUpdated)
  {
    ProductData(
      p.id, Some(p.name), Some(p.brand), Some(p.price), Some(p.originalPrice),
      Some(p.store), Some(p.storeId), p.imageUrl, Some(p.unit), Some(p.quantity),
      Some(p.inStock), Some(p.category), p.upc, p.sku, Some(p.lastUpdated))
  }

  /** Building a product from its own JSON gives the product back, whatever the clock says. */
  lemma RebuildFromJSON(p: Product, now: Timestamp)
    ensures NewProduct(ToJSON(p), now) == p
  {
  }

  /** Without an `originalPrice`, a new product is at its original price: not on sale, no discount. */
  lemma NewProductNotOnSale(d: ProductData, now: Timestamp)
    requires d.originalPrice.None?
    ensures !IsOnSale(NewProduct(d, now)) && DiscountPercentage(NewProduct(d, now)) == 0
  {
  }

  /** The defaults of the empty record. */
  lemma EmptyDataDefaults(now: Timestamp)
    ensures var p := NewProduct(EmptyData, now);
      && p.price == 0.0 && p.originalPrice == 0.0 && p.quantity == 1.0 && p.unit == "each"
      && p.inStock && p.name == "" && p.store == "" && p.id.None? && p.lastUpdated == now
      && PricePerUnit(p) == p.price
  {
  }

  /** A product built from a record is valid iff the record names it and its store and has no negative price. */
  lemma NewProductValidity(d: ProductData, now: Timestamp)
    ensures IsValid(NewProduct(d, now)) <==>
      && d.name.Some? && d.name.value != ""
      && d.store.Some? && d.store.value != ""
      && (d.price.Some? ==> d.price.value >= 0.0)
  {
  }
}
