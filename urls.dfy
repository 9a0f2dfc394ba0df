/** The server endpoints (constants/urls.ts), built from the base URL the environment configures. */
module Urls {
  import opened Wrappers

  /** `process.env.EXPO_PUBLIC_BASE_PRICE_TRACKER_API_URL || ''`. */
  function BaseUrl(envValue: Option<string>): (base: string)
    ensures base == envValue.GetOr("")
  {
    if envValue.Some? && envValue.value != "" then envValue.value else ""
  }

  function LoginUrl(base: string): string { base + "/sign-in" }

  /** `GET_URLS_URL` in the source: the current-user endpoint. */
  function GetUserUrl(base: string): string { base + "/get-user" }

  function RefreshTokenUrl(base: string): string { base + "/refresh-token" }

  function GetProductsUrl(base: string): string { base + "/products" }

  function AddProductUrl(base: string): string { base + "/products" }

  function ProductByIdUrl(base: string, productId: string): string {
    base + "/products/" + productId
  }

  /** Listing and creating products share one endpoint; a product's URL extends it by "/" and the id. */
  lemma ProductUrlsShape(base: string, productId: string)
    ensures GetProductsUrl(base) == AddProductUrl(base)
    ensures ProductByIdUrl(base, productId) == GetProductsUrl(base) + "/" + productId
  {
  }

  /** Every endpoint starts with the base URL. */
  lemma EndpointsUnderBase(base: string, productId: string)
    ensures base <= LoginUrl(base) && base <= GetUserUrl(base) && base <= RefreshTokenUrl(base)
    ensures base <= GetProductsUrl(base) && base <= AddProductUrl(base)
    ensures base <= ProductByIdUrl(base, productId)
  {
  }

  /** The product id can be read back from a product URL: different ids, different URLs. */
  lemma ProductUrlInjective(base: string, a: string, b: string)
    ensures ProductByIdUrl(base, a) == ProductByIdUrl(base, b) <==> a == b
  {
    var prefix := base + "/products/";
    if ProductByIdUrl(base, a) == ProductByIdUrl(base, b) {
      assert a == ProductByIdUrl(base, a)[|prefix|..];
      assert b == ProductByIdUrl(base, b)[|prefix|..];
    }
  }

  /** The three auth endpoints and the products endpoint are pairwise different. */
  lemma EndpointsDistinct(base: string)
    ensures LoginUrl(base) != GetUserUrl(base)
    ensures LoginUrl(base) != RefreshTokenUrl(base)
    ensures GetUserUrl(base) != RefreshTokenUrl(base)
    ensures GetProductsUrl(base) !in {LoginUrl(base), GetUserUrl(base), RefreshTokenUrl(base)}
  {
    var n := |base|;
    assert LoginUrl(base)[n + 1] == 's' && GetUserUrl(base)[n + 1] == 'g';
    assert RefreshTokenUrl(base)[n + 1] == 'r' && GetProductsUrl(base)[n + 1] == 'p';
  }
}
