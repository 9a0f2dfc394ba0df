/** The add-product mutation (hooks/use-add-product.ts). */
module UseAddProduct {
  import opened Wrappers
  import opened Effects
  import opened ProductTypes
  import opened QueryKeys
  import opened QueryCache

  const AddedTitle := "✅ Product added"

  /** What the mutation shows: the request, then the invalidation and the toast, or the alert. */
  function AddProductEffects(newProduct: NewProduct, response: Result<Product, Thrown>): seq<Effect> {
    [Call(AddProductCall(newProduct))]
    + if response.Ok? then [CacheInvalidate(ProductsKeys), Toast(AddedTitle, response.value.name + " was successfully created.")]
      else [Alert(FailureTitle, AlertMessage(response.error))]
  }

  /** `mutateAsync(newProduct)`: on success the product list is invalidated, then a toast names the product. */
  method AddProduct(cache: Cache, newProduct: NewProduct, response: Result<Product, Thrown>)
    returns (effects: seq<Effect>, result: Result<Product, Thrown>)
    modifies cache
    ensures result == response
    ensures response.Ok? ==> cache.entries == Invalidated(old(cache.entries), ProductsKeys)
    ensures response.Err? ==> cache.entries == old(cache.entries)
    ensures effects == AddProductEffects(newProduct, response)
  {
    effects := [Call(AddProductCall(newProduct))];
    result := response;
    match response
    case Ok(data) =>
      var e := cache.Invalidate(ProductsKeys);
      effects := effects + [e, Toast(AddedTitle, data.name + " was successfully created.")];
    case Err(err) =>
      effects := effects + [Alert(FailureTitle, AlertMessage(err))];
  }

  /** Invalidating the list leaves every product-detail entry and the user entry as they were. */
  lemma SuccessLeavesOtherEntries(entries: Entries, productId: string)
    ensures var r := Invalidated(entries, ProductsKeys);
      && (GetProductKeys(productId) in entries ==> r[GetProductKeys(productId)] == entries[GetProductKeys(productId)])
      && (UserQueryKeys in entries ==> r[UserQueryKeys] == entries[UserQueryKeys])
      && (ProductsKeys in entries ==> r[ProductsKeys] == Stale)
  {
    ProductsFilterSelective(productId);
  }
}
