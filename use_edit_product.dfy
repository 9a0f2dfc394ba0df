/** The edit-product mutation (hooks/use-edit-product.ts). */
module UseEditProduct {
  import opened Wrappers
  import opened Effects
  import opened ProductTypes
  import opened QueryKeys
  import opened QueryCache

  const ModifiedTitle := "✅ Product modified"

  /** The cache after a successful edit: the detail key of the returned product, then the list. */
  function EditedEntries(entries: Entries, returnedId: string): Entries {
    Invalidated(Invalidated(entries, GetProductKeys(returnedId)), ProductsKeys)
  }

  /** What the mutation shows: the request, then both invalidations and the toast, or the alert. */
  function EditProductEffects(productId: string, modifiedProduct: ModifiedProduct, response: Result<Product, Thrown>): seq<Effect> {
    [Call(EditProductCall(productId, modifiedProduct))]
    + if response.Ok? then
        [CacheInvalidate(GetProductKeys(response.value.id)), CacheInvalidate(ProductsKeys),
         Toast(ModifiedTitle, response.value.name + " was successfully modified.")]
      else [Alert(FailureTitle, AlertMessage(response.error))]
  }

  /**
   * `mutateAsync({ productId, modifiedProduct })`. On success both
   * invalidations finish before the toast; the detail key uses the id the
   * server returned, not the argument.
   */
  method EditProduct(cache: Cache, productId: string, modifiedProduct: ModifiedProduct, response: Result<Product, Thrown>)
    returns (effects: seq<Effect>, result: Result<Product, Thrown>)
    modifies cache
    ensures result == response
    ensures response.Ok? ==> cache.entries == EditedEntries(old(cache.entries), response.value.id)
    ensures response.Err? ==> cache.entries == old(cache.entries)
    ensures effects == EditProductEffects(productId, modifiedProduct, response)
  {
    effects := [Call(EditProductCall(productId, modifiedProduct))];
    result := response;
    match response
    case Ok(data) =>
      var e1 := cache.Invalidate(GetProductKeys(data.id));
      var e2 := cache.Invalidate(ProductsKeys);
      effects := effects + [e1, e2, Toast(ModifiedTitle, data.name + " was successfully modified.")];
    case Err(err) =>
      effects := effects + [Alert(FailureTitle, AlertMessage(err))];
  }

  /**
   * A successful edit marks stale exactly the returned product's detail entry
   * and the list entry; other products' details and the user entry are kept.
   */
  lemma EditTouchesDetailAndList(entries: Entries, returnedId: string, otherId: string)
    requires otherId != returnedId
    ensures var r := EditedEntries(entries, returnedId);
      && r.Keys == entries.Keys
      && (GetProductKeys(returnedId) in entries ==> r[GetProductKeys(returnedId)] == Stale)
      && (ProductsKeys in entries ==> r[ProductsKeys] == Stale)
      && (GetProductKeys(otherId) in entries ==> r[GetProductKeys(otherId)] == entries[GetProductKeys(otherId)])
      && (UserQueryKeys in entries ==> r[UserQueryKeys] == entries[UserQueryKeys])
  {
    DetailFilterIsExact(returnedId, otherId);
    OtherFiltersSelective(returnedId);
    ProductsFilterSelective(returnedId);
    ProductsFilterSelective(otherId);
  }
}
