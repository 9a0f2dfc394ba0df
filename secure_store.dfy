/**
 * The device's encrypted key-value store (expo-secure-store) as the core
 * sees it: string values under string keys, written and deleted one key at a
 * time. `unavailable` stands for a platform store that rejects reads.
 */
module SecureStore {
  import opened Wrappers
  import opened Effects

  datatype StoreError = ReadRejected

  /** The value stored under `key`, `None` (null) when there is none. */
  function Lookup(items: map<string, string>, key: string): (r: Option<string>)
    ensures r.Some? <==> key in items
    ensures r.Some? ==> r.value == items[key]
  {
    if key in items then Some(items[key]) else None
  }

  class Store {
    var items: map<string, string>
    var unavailable: bool

    constructor (initial: map<string, string>, rejectsReads: bool)
      ensures items == initial && unavailable == rejectsReads
    {
      items := initial;
      unavailable := rejectsReads;
    }

    /** `setItemAsync(key, value)`. */
    method SetItem(key: string, value: string) returns (e: Effect)
      modifies this`items
      ensures items == old(items)[key := value]
      ensures e == StoreSet(key, value)
    {
      items := items[key := value];
      e := StoreSet(key, value);
    }

    /** `deleteItemAsync(key)`; deleting an absent key is allowed. */
    method DeleteItem(key: string) returns (e: Effect)
      modifies this`items
      ensures items == old(items) - {key}
      ensures e == StoreDelete(key)
    {
      items := items - {key};
      e := StoreDelete(key);
    }

    /** `getItemAsync(key)`: null for an absent key; the promise rejects only when the store does. */
    method GetItem(key: string) returns (r: Result<Option<string>, StoreError>)
      ensures unavailable ==> r == Err(ReadRejected)
      ensures !unavailable ==> r == Ok(Lookup(items, key))
    {
      if unavailable {
        r := Err(ReadRejected);
      } else {
        r := Ok(Lookup(items, key));
      }
    }
  }
}
