/**
 * The login mutation (hooks/use-login.ts). The server's answer is a
 * parameter; on success the tokens are stored and then the user entry is
 * invalidated, on failure the tokens are cleared and then the user entry is
 * removed.
 */
module UseLogin {
  import opened Wrappers
  import opened Effects
  import opened UserTypes
  import opened QueryKeys
  import opened SecureStore
  import opened QueryCache
  import ManageTokens

  /** The effects of one login attempt, in order. */
  function LoginEffects(username: string, password: string, response: Result<User, Thrown>): seq<Effect> {
    [Call(SignInCall(username, password))]
    + if response.Ok? then ManageTokens.WriteEffects(response.value.tokens) + [CacheInvalidate(UserQueryKeys)]
      else ManageTokens.DeleteEffects() + [CacheRemove(UserQueryKeys)]
  }

  /** `mutateAsync({ username, password })`: resolves with the server's user or rejects with its error. */
  method Login(store: Store, cache: Cache, username: string, password: string, response: Result<User, Thrown>)
    returns (effects: seq<Effect>, result: Result<User, Thrown>)
    modifies store`items, cache
    ensures result == response
    ensures effects == LoginEffects(username, password, response)
    ensures response.Ok? ==> store.items == ManageTokens.WithTokens(old(store.items), response.value.tokens)
    ensures response.Ok? ==> cache.entries == Invalidated(old(cache.entries), UserQueryKeys)
    ensures response.Err? ==> store.items == ManageTokens.WithoutTokens(old(store.items))
    ensures response.Err? ==> cache.entries == Removed(old(cache.entries), UserQueryKeys)
  {
    effects := [Call(SignInCall(username, password))];
    result := response;
    match response
    case Ok(data) =>
      var stored := ManageTokens.StoreTokens(store, data.tokens);
      var e := cache.Invalidate(UserQueryKeys);
      effects := effects + stored + [e];
    case Err(_) =>
      var cleared := ManageTokens.ClearTokens(store);
      var e := cache.Remove(UserQueryKeys);
      effects := effects + cleared + [e];
  }

  /**
   * The credentials are sent unchanged, and every store write comes before
   * the cache operation, which is the last effect.
   */
  lemma LoginOrdering(username: string, password: string, response: Result<User, Thrown>)
    ensures var es := LoginEffects(username, password, response);
      && |es| == 5
      && es[0] == Call(SignInCall(username, password))
      && (forall i :: 1 <= i < 4 ==> es[i].StoreSet? || es[i].StoreDelete?)
      && (response.Ok? <==> es[4] == CacheInvalidate(UserQueryKeys))
      && (response.Err? <==> es[4] == CacheRemove(UserQueryKeys))
  {
  }

  /** After a failed login the user entry is gone, not merely stale. */
  lemma FailedLoginDropsUser(entries: Entries)
    ensures UserQueryKeys !in Removed(entries, UserQueryKeys)
    ensures UserQueryKeys in entries ==> Invalidated(entries, UserQueryKeys)[UserQueryKeys] == Stale
  {
  }

  /** After a successful login the store holds exactly the returned bundle. */
  lemma SuccessfulLoginStoresBundle(items: map<string, string>, u: User)
    ensures ManageTokens.View(ManageTokens.WithTokens(items, u.tokens))
         == ManageTokens.StoredTokens(Some(u.tokens.accessToken), Some(u.tokens.idToken), Some(u.tokens.refreshToken))
  {
    ManageTokens.StoreThenRead(items, u.tokens);
  }
}
