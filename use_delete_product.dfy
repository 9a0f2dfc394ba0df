/** The delete-product mutation (hooks/use-delete-product.ts). */
module UseDeleteProduct {
  import opened Wrappers
  import opened Effects
  import opened QueryKeys
  import opened QueryCache

  const DeletedTitle := "✅ Product deleted"

  /** The server's reply to a delete, whose body the hook ignores. */
  datatype DeleteReply = DeleteReply(message: string)

  /** What the mutation shows: the request, then the invalidation and the toast, or the alert. */
  function DeleteProductEffects(productId: string, response: Result<DeleteReply, Thrown>): seq<Effect> {
    [Call(DeleteProductCall(productId))]
    + if response.Ok? then [CacheInvalidate(ProductsKeys), Toast(DeletedTitle, "")]
      else [Alert(FailureTitle, AlertMessage(response.error))]
  }

  /** `mutateAsync(productId)`: on success only the list is invalidated, then a toast is shown. */
  method DeleteProduct(cache: Cache, productId: string, response: Result<DeleteReply, Thrown>)
    returns (effects: seq<Effect>, result: Result<DeleteReply, Thrown>)
    modifies cache
    ensures result == response
    ensures response.Ok? ==> cache.entries == Invalidated(old(cache.entries), ProductsKeys)
    ensures response.Err? ==> cache.entries == old(cache.entries)
    ensures effects == DeleteProductEffects(productId, response)
  {
    effects := [Call(DeleteProductCall(productId))];
    result := response;
    match response
    case Ok(_) =>
      var e := cache.Invalidate(ProductsKeys);
      effects := effects + [e, Toast(DeletedTitle, "")];
    case Err(err) =>
      effects := effects + [Alert(FailureTitle, AlertMessage(err))];
  }

  /** The deleted product's own detail entry is left as it was (it is orphaned, not invalidated). */
  lemma DeleteLeavesDetailEntry(entries: Entries, productId: string)
    requires GetProductKeys(productId) in entries
    ensures Invalidated(entries, ProductsKeys)[GetProductKeys(productId)] == entries[GetProductKeys(productId)]
  {
    ProductsFilterSelective(productId);
  }
}
