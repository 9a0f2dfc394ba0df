/** The query-cache keys (constants/query-keys.ts) and how a key filter matches keys. */
module QueryKeys {

  type QueryKey = seq<string>

  const UserQueryKeys: QueryKey := ["user", "auth"]
  const ProductsKeys: QueryKey := ["products"]
  const ProductKeys: QueryKey := ["productInfo"]

  /** `getProductKeys(id)`: the detail key of one product, `[...PRODUCT_KEYS, id]`. */
  function GetProductKeys(productId: string): (k: QueryKey)
    ensures |k| == 2 && ProductKeys <= k && k[1] == productId
  {
    ProductKeys + [productId]
  }

  /**
   * A key filter matches every key it is a prefix of (the query library's
   * default, non-exact matching used by invalidate, remove and reset).
   */
  predicate Matches(filter: QueryKey, key: QueryKey) {
    filter <= key
  }

  /** Distinct product ids give distinct detail keys. */
  lemma ProductKeysInjective(a: string, b: string)
    ensures GetProductKeys(a) == GetProductKeys(b) <==> a == b
  {
    if GetProductKeys(a) == GetProductKeys(b) {
      assert GetProductKeys(a)[1] == GetProductKeys(b)[1];
    }
  }

  /** A detail-key filter matches exactly the detail key of the same product. */
  lemma DetailFilterIsExact(a: string, b: string)
    ensures Matches(GetProductKeys(a), GetProductKeys(b)) <==> a == b
  {
    if Matches(GetProductKeys(a), GetProductKeys(b)) {
      assert GetProductKeys(b)[..2] == GetProductKeys(b);
      ProductKeysInjective(a, b);
    }
  }

  /** The product-list filter matches no product-detail key and not the user key. */
  lemma ProductsFilterSelective(productId: string)
    ensures !Matches(ProductsKeys, GetProductKeys(productId))
    ensures !Matches(ProductsKeys, UserQueryKeys)
    ensures Matches(ProductsKeys, ProductsKeys)
  {
    assert GetProductKeys(productId)[0] == "productInfo";
    assert "productInfo" != "products" by {
      assert "productInfo"[7] != "products"[7];
    }
    assert "user" != "products" by {
      assert "user"[0] != "products"[0];
    }
  }

  /** Neither the detail filter nor the user filter matches a key of another kind. */
  lemma OtherFiltersSelective(productId: string)
    ensures !Matches(GetProductKeys(productId), ProductsKeys)
    ensures !Matches(GetProductKeys(productId), UserQueryKeys)
    ensures !Matches(UserQueryKeys, ProductsKeys)
    ensures !Matches(UserQueryKeys, GetProductKeys(productId))
  {
    assert "productInfo" != "user" by {
      assert "productInfo"[0] != "user"[0];
    }
    assert "user" != "productInfo" by {
      assert "user"[0] != "productInfo"[0];
    }
    assert GetProductKeys(productId)[0] != UserQueryKeys[0];
  }
}
