/**
 * Credential storage (utils/manage-tokens.ts): the three tokens live in the
 * secure store under fixed key names and are written, read and deleted one
 * key at a time.
 */
module ManageTokens {
  import opened Wrappers
  import opened Effects
  import opened UserTypes
  import opened SecureStore

  const AccessTokenKey := "accessToken"
  const IdTokenKey := "idToken"
  const RefreshTokenKey := "refreshToken"

  /** What `getStoredTokens` reports: each field null when its key is absent. */
  datatype StoredTokens = StoredTokens(accessToken: Option<string>, idToken: Option<string>, refreshToken: Option<string>)

  /** The store contents after writing the bundle, key after key. */
  function WithTokens(items: map<string, string>, t: Tokens): map<string, string> {
    items[AccessTokenKey := t.accessToken][IdTokenKey := t.idToken][RefreshTokenKey := t.refreshToken]
  }

  /** The store contents after deleting the three keys. */
  function WithoutTokens(items: map<string, string>): map<string, string> {
    items - {AccessTokenKey, IdTokenKey, RefreshTokenKey}
  }

  /** The three keys as read from the store contents. */
  function View(items: map<string, string>): StoredTokens {
    StoredTokens(Lookup(items, AccessTokenKey), Lookup(items, IdTokenKey), Lookup(items, RefreshTokenKey))
  }

  function WriteEffects(t: Tokens): seq<Effect> {
    [StoreSet(AccessTokenKey, t.accessToken), StoreSet(IdTokenKey, t.idToken), StoreSet(RefreshTokenKey, t.refreshToken)]
  }

  function DeleteEffects(): seq<Effect> {
    [StoreDelete(AccessTokenKey), StoreDelete(IdTokenKey), StoreDelete(RefreshTokenKey)]
  }

  /** `storeTokens`: access, id and refresh token, in that order. */
  method StoreTokens(store: Store, t: Tokens) returns (effects: seq<Effect>)
    modifies store`items
    ensures store.items == WithTokens(old(store.items), t)
    ensures effects == WriteEffects(t)
  {
    var e1 := store.SetItem(AccessTokenKey, t.accessToken);
    var e2 := store.SetItem(IdTokenKey, t.idToken);
    var e3 := store.SetItem(RefreshTokenKey, t.refreshToken);
    effects := [e1, e2, e3];
  }

  /** `getStoredTokens`: null overall only when a read is rejected; absent keys are null fields. */
  method GetStoredTokens(store: Store) returns (r: Option<StoredTokens>)
    ensures store.unavailable ==> r.None?
    ensures !store.unavailable ==> r == Some(View(store.items))
  {
    var a := store.GetItem(AccessTokenKey);
    var i := store.GetItem(IdTokenKey);
    var f := store.GetItem(RefreshTokenKey);
    if a.Err? || i.Err? || f.Err? {
      r := None;
    } else {
      r := Some(StoredTokens(a.value, i.value, f.value));
    }
  }

  /** `getAccessToken`: reads the access-token key only. */
  method GetAccessToken(store: Store) returns (r: Result<Option<string>, StoreError>)
    ensures store.unavailable ==> r.Err?
    ensures !store.unavailable ==> r == Ok(View(store.items).accessToken)
  {
    r := store.GetItem(AccessTokenKey);
  }

  /** `getIdToken`: reads the id-token key only. */
  method GetIdToken(store: Store) returns (r: Result<Option<string>, StoreError>)
    ensures store.unavailable ==> r.Err?
    ensures !store.unavailable ==> r == Ok(View(store.items).idToken)
  {
    r := store.GetItem(IdTokenKey);
  }

  /** `clearTokens`: deletes access, id and refresh token, in that order. */
  method ClearTokens(store: Store) returns (effects: seq<Effect>)
    modifies store`items
    ensures store.items == WithoutTokens(old(store.items))
    ensures effects == DeleteEffects()
  {
    var e1 := store.DeleteItem(AccessTokenKey);
    var e2 := store.DeleteItem(IdTokenKey);
    var e3 := store.DeleteItem(RefreshTokenKey);
    effects := [e1, e2, e3];
  }

  /** Storing a bundle and reading it back gives the bundle, whatever the store held before. */
  lemma StoreThenRead(items: map<string, string>, t: Tokens)
    ensures View(WithTokens(items, t)) == StoredTokens(Some(t.accessToken), Some(t.idToken), Some(t.refreshToken))
  {
    var m := WithTokens(items, t);
    assert m[AccessTokenKey] == t.accessToken by {
      assert AccessTokenKey != IdTokenKey && AccessTokenKey != RefreshTokenKey by {
        assert AccessTokenKey[0] != IdTokenKey[0] && AccessTokenKey[0] != RefreshTokenKey[0];
      }
    }
    assert m[IdTokenKey] == t.idToken by {
      assert IdTokenKey != RefreshTokenKey by {
        assert IdTokenKey[0] != RefreshTokenKey[0];
      }
    }
  }

  /** After clearing, all three fields read as null. */
  lemma ClearThenRead(items: map<string, string>)
    ensures View(WithoutTokens(items)) == StoredTokens(None, None, None)
  {
  }

  /** Clearing twice is clearing once. */
  lemma ClearIdempotent(items: map<string, string>)
    ensures WithoutTokens(WithoutTokens(items)) == WithoutTokens(items)
  {
  }

  /** Storing and clearing touch only the three token keys. */
  lemma OtherKeysUntouched(items: map<string, string>, t: Tokens, k: string)
    requires k != AccessTokenKey && k != IdTokenKey && k != RefreshTokenKey
    ensures Lookup(WithTokens(items, t), k) == Lookup(items, k)
    ensures Lookup(WithoutTokens(items), k) == Lookup(items, k)
  {
  }

  /** A later bundle replaces an earlier one completely. */
  lemma StoreOverwrites(items: map<string, string>, t1: Tokens, t2: Tokens)
    ensures View(WithTokens(WithTokens(items, t1), t2)) == View(WithTokens(items, t2))
  {
    StoreThenRead(WithTokens(items, t1), t2);
    StoreThenRead(items, t2);
  }
}
