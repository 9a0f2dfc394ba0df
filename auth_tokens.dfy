/**
 * The second token-storage module (utils/auth.ts). It declares its own key
 * names, equal to those of ManageTokens, so both modules work on the same
 * three entries of the secure store.
 */
module AuthTokens {
  import opened Wrappers
  import opened Effects
  import opened UserTypes
  import opened SecureStore
  import ManageTokens

  const AccessTokenKey := "accessToken"
  const IdTokenKey := "idToken"
  const RefreshTokenKey := "refreshToken"

  /** The key names agree with those of ManageTokens. */
  lemma SameKeys()
    ensures AccessTokenKey == ManageTokens.AccessTokenKey
    ensures IdTokenKey == ManageTokens.IdTokenKey
    ensures RefreshTokenKey == ManageTokens.RefreshTokenKey
  {
  }

  /** `storeTokens`, with the same effect on the store as ManageTokens.StoreTokens. */
  method StoreTokens(store: Store, t: Tokens) returns (effects: seq<Effect>)
    modifies store`items
    ensures store.items == ManageTokens.WithTokens(old(store.items), t)
    ensures effects == ManageTokens.WriteEffects(t)
  {
    var e1 := store.SetItem(AccessTokenKey, t.accessToken);
    var e2 := store.SetItem(IdTokenKey, t.idToken);
    var e3 := store.SetItem(RefreshTokenKey, t.refreshToken);
    effects := [e1, e2, e3];
  }

  /** `getStoredToken`: the access token, null when absent. */
  method GetStoredToken(store: Store) returns (r: Result<Option<string>, StoreError>)
    ensures store.unavailable ==> r.Err?
    ensures !store.unavailable ==> r == Ok(ManageTokens.View(store.items).accessToken)
  {
    r := store.GetItem(AccessTokenKey);
  }

  /** `clearTokens`, with the same effect on the store as ManageTokens.ClearTokens. */
  method ClearTokens(store: Store) returns (effects: seq<Effect>)
    modifies store`items
    ensures store.items == ManageTokens.WithoutTokens(old(store.items))
    ensures effects == ManageTokens.DeleteEffects()
  {
    var e1 := store.DeleteItem(AccessTokenKey);
    var e2 := store.DeleteItem(IdTokenKey);
    var e3 := store.DeleteItem(RefreshTokenKey);
    effects := [e1, e2, e3];
  }

  /**
   * Whichever module stored a bundle, `getStoredToken` then reads its access
   * token back; after either module cleared, it reads null.
   */
  lemma StoredTokenAfterStore(items: map<string, string>, t: Tokens)
    ensures Lookup(ManageTokens.WithTokens(items, t), AccessTokenKey) == Some(t.accessToken)
    ensures Lookup(ManageTokens.WithoutTokens(items), AccessTokenKey) == None
  {
    ManageTokens.StoreThenRead(items, t);
  }
}
