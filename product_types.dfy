/** The product and price-entry records exchanged with the server (types/product.ts). */
module ProductTypes {
  import opened Wrappers

  /** `TRENDS`: the direction of the latest price change. */
  datatype Trend = Up | Down | Stable

  datatype Location = Location(lat: real, lng: real)

  datatype PriceEntry = PriceEntry(
    priceEntryId: string,
    date: string,
    store: Option<string>,
    location: Option<Location>,
    price: real,
    currency: string)

  /** A product as sent for creation: every field of `Product` except id, owner and timestamps. */
  datatype NewProduct = NewProduct(
    name: string,
    brand: Option<string>,
    category: string,
    description: Option<string>,
    imageUrl: Option<string>,
    latestPrice: real,
    latestCurrency: string,
    latestStore: Option<string>,
    latestPurchaseDate: Option<string>,
    priceHistory: seq<PriceEntry>,
    averagePrice: Option<real>,
    lowestPrice: Option<real>,
    highestPrice: Option<real>,
    trend: Option<Trend>,
    tags: Option<seq<string>>,
    ocrRawText: Option<string>)

  datatype Product = Product(
    id: string,
    userId: string,
    name: string,
    brand: Option<string>,
    category: string,
    description: Option<string>,
    imageUrl: Option<string>,
    latestPrice: real,
    latestCurrency: string,
    latestStore: Option<string>,
    latestPurchaseDate: Option<string>,
    priceHistory: seq<PriceEntry>,
    averagePrice: Option<real>,
    lowestPrice: Option<real>,
    highestPrice: Option<real>,
    trend: Option<Trend>,
    tags: Option<seq<string>>,
    createdAt: string,
    updatedAt: string,
    ocrRawText: Option<string>)

  /**
   * `ModifiedProduct = Partial<Product>` as the client builds it: `None` is a
   * field that is absent (or `undefined`, which JSON drops) from the patch.
   */
  datatype ModifiedProduct = ModifiedProduct(
    name: Option<string>,
    brand: Option<string>,
    category: Option<string>,
    description: Option<string>,
    imageUrl: Option<string>,
    latestPrice: Option<real>,
    latestCurrency: Option<string>,
    latestStore: Option<string>,
    latestPurchaseDate: Option<string>,
    priceHistory: Option<seq<PriceEntry>>,
    tags: Option<seq<string>>)

  /** The empty patch; payloads are written as updates of it. */
  const NoChanges := ModifiedProduct(None, None, None, None, None, None, None, None, None, None, None)

  /** The priceEntryId values of a history, in order. */
  function EntryIds(history: seq<PriceEntry>): (ids: seq<string>)
    ensures |ids| == |history|
    ensures forall i :: 0 <= i < |history| ==> ids[i] == history[i].priceEntryId
  {
    if history == [] then [] else [history[0].priceEntryId] + EntryIds(history[1..])
  }

  /** No two entries of the history share an id (the server's intent for priceEntryId). */
  predicate UniqueIds(history: seq<PriceEntry>) {
    forall i, j :: 0 <= i < j < |history| ==> history[i].priceEntryId != history[j].priceEntryId
  }
}
