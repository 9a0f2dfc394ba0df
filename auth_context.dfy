/**
 * The authentication provider (contexts/AuthContext.tsx). `user` is the
 * current result of the user query; whether the stored session is signed in
 * is decided by a check the model takes as a parameter.
 */
module AuthContext {
  import opened Wrappers
  import opened Effects
  import opened UserTypes
  import opened QueryKeys
  import opened SecureStore
  import opened QueryCache
  import ManageTokens
  import UseLogin

  class AuthProvider {
    var hasToken: bool
    var user: Option<UserInfo>
    const store: Store
    const cache: Cache

    constructor (s: Store, c: Cache, initialUser: Option<UserInfo>)
      ensures store == s && cache == c && user == initialUser
      ensures !hasToken
    {
      store := s;
      cache := c;
      user := initialUser;
      hasToken := false;
    }

    /** `isAuthenticated: !!user && hasToken`. */
    predicate IsAuthenticated()
      reads this
    {
      user.Some? && hasToken
    }

    /** `login(username, password)`: runs the login mutation with the same arguments. */
    method Login(username: string, password: string, response: Result<User, Thrown>)
      returns (effects: seq<Effect>, result: Result<User, Thrown>)
      modifies store`items, cache
      ensures result == response
      ensures effects == UseLogin.LoginEffects(username, password, response)
      ensures response.Ok? ==> store.items == ManageTokens.WithTokens(old(store.items), response.value.tokens)
      ensures response.Ok? ==> cache.entries == Invalidated(old(cache.entries), UserQueryKeys)
      ensures response.Err? ==> store.items == ManageTokens.WithoutTokens(old(store.items))
      ensures response.Err? ==> cache.entries == Removed(old(cache.entries), UserQueryKeys)
    {
      effects, result := UseLogin.Login(store, cache, username, password, response);
    }

    /** `logout()`: clears the three tokens, then resets the user entry; `hasToken` is not touched. */
    method Logout() returns (effects: seq<Effect>)
      modifies store`items, cache
      ensures store.items == ManageTokens.WithoutTokens(old(store.items))
      ensures cache.entries == ResetEntries(old(cache.entries), UserQueryKeys)
      ensures effects == ManageTokens.DeleteEffects() + [CacheReset(UserQueryKeys)]
    {
      var cleared := ManageTokens.ClearTokens(store);
      var e := cache.Reset(UserQueryKeys);
      effects := cleared + [e];
    }

    /** A new result of the user query. */
    method SetUser(u: Option<UserInfo>)
      modifies this`user
      ensures user == u
    {
      user := u;
    }

    /**
     * The effect run at start-up and whenever `user` changes: a signed-in
     * session sets `hasToken`, any other calls `logout`.
     */
    method CheckSession(isSignedIn: bool) returns (effects: seq<Effect>)
      modifies this`hasToken, store`items, cache
      ensures isSignedIn ==> hasToken && effects == []
      ensures isSignedIn ==> store.items == old(store.items) && cache.entries == old(cache.entries)
      ensures !isSignedIn ==> hasToken == old(hasToken)
      ensures !isSignedIn ==> effects == ManageTokens.DeleteEffects() + [CacheReset(UserQueryKeys)]
      ensures !isSignedIn ==> store.items == ManageTokens.WithoutTokens(old(store.items))
      ensures !isSignedIn ==> cache.entries == ResetEntries(old(cache.entries), UserQueryKeys)
      ensures old(hasToken) ==> hasToken
    {
      if isSignedIn {
        hasToken := isSignedIn;
        effects := [];
      } else {
        effects := Logout();
      }
    }
  }

  /** Logging out twice leaves the store and the cache as logging out once. */
  lemma LogoutIdempotent(items: map<string, string>, entries: Entries)
    ensures ManageTokens.WithoutTokens(ManageTokens.WithoutTokens(items)) == ManageTokens.WithoutTokens(items)
    ensures ResetEntries(ResetEntries(entries, UserQueryKeys), UserQueryKeys) == ResetEntries(entries, UserQueryKeys)
  {
    OperationsIdempotent(entries, UserQueryKeys);
  }

  /** After logout no token field can be read back. */
  lemma LogoutLeavesNoToken(items: map<string, string>)
    ensures ManageTokens.View(ManageTokens.WithoutTokens(items)) == ManageTokens.StoredTokens(None, None, None)
  {
  }
}
