/**
 * The offline add-product helper
 * (components/AddProductModal/utils/handle-add-product.ts): it stamps the
 * new product and puts it at the front of the module-level mock list.
 */
module HandleAddProduct {
  import opened JsString
  import opened ProductTypes

  const MockUserId := "user1"

  /** `{ ...newProductData, id, userId, createdAt: now, updatedAt: now }`. */
  function Stamp(data: NewProduct, id: string, userId: string, now: string): (p: Product)
    ensures p.id == id && p.userId == userId && p.createdAt == now && p.updatedAt == now
  {
    Product(id, userId, data.name, data.brand, data.category, data.description, data.imageUrl,
            data.latestPrice, data.latestCurrency, data.latestStore, data.latestPurchaseDate, data.priceHistory,
            data.averagePrice, data.lowestPrice, data.highestPrice, data.trend, data.tags, now, now, data.ocrRawText)
  }

  /** The fields of a product other than id, owner and timestamps (`Omit<Product, …>`). */
  function Unstamp(p: Product): NewProduct {
    NewProduct(p.name, p.brand, p.category, p.description, p.imageUrl, p.latestPrice, p.latestCurrency,
               p.latestStore, p.latestPurchaseDate, p.priceHistory, p.averagePrice, p.lowestPrice,
               p.highestPrice, p.trend, p.tags, p.ocrRawText)
  }

  /** Stamping copies every supplied field: taking the stamp off gives the data back. */
  lemma StampKeepsData(data: NewProduct, id: string, userId: string, now: string)
    ensures Unstamp(Stamp(data, id, userId, now)) == data
  {
  }

  class MockProducts {
    var products: seq<Product>

    constructor (initial: seq<Product>)
      ensures products == initial
    {
      products := initial;
    }

    /**
     * `handleAddProduct(newProductData)`: `nowIso` is `new Date().toISOString()`
     * and `nowMs` is `Date.now()`, whose decimal string becomes the id.
     */
    method HandleAddProduct(data: NewProduct, nowIso: string, nowMs: nat)
      modifies this
      ensures products == [Stamp(data, NatToString(nowMs), MockUserId, nowIso)] + old(products)
      ensures |products| == |old(products)| + 1 && products[1..] == old(products)
      ensures Unstamp(products[0]) == data && products[0].createdAt == products[0].updatedAt
    {
      var newProduct := Stamp(data, NatToString(nowMs), MockUserId, nowIso);
      StampKeepsData(data, NatToString(nowMs), MockUserId, nowIso);
      products := [newProduct] + products;
    }
  }
}
