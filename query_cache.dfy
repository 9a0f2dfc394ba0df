/**
 * The query cache as an abstract store of entries keyed by query key. Only
 * the three operations the core calls are modelled, each applied to every
 * entry whose key the filter matches: invalidate (mark stale, to be
 * re-fetched), remove (drop the entry) and reset (back to its initial,
 * data-less state).
 */
module QueryCache {
  import opened QueryKeys
  import opened Effects

  datatype EntryState = Fresh | Stale | Initial

  type Entries = map<QueryKey, EntryState>

  function Invalidated(entries: Entries, filter: QueryKey): (r: Entries)
    ensures r.Keys == entries.Keys
    ensures forall k :: k in r && Matches(filter, k) ==> r[k] == Stale
    ensures forall k :: k in r && !Matches(filter, k) ==> r[k] == entries[k]
  {
    map k | k in entries :: if Matches(filter, k) then Stale else entries[k]
  }

  function Removed(entries: Entries, filter: QueryKey): (r: Entries)
    ensures forall k :: k in r <==> k in entries && !Matches(filter, k)
    ensures forall k :: k in r ==> r[k] == entries[k]
  {
    map k | k in entries && !Matches(filter, k) :: entries[k]
  }

  function ResetEntries(entries: Entries, filter: QueryKey): (r: Entries)
    ensures r.Keys == entries.Keys
    ensures forall k :: k in r && Matches(filter, k) ==> r[k] == Initial
    ensures forall k :: k in r && !Matches(filter, k) ==> r[k] == entries[k]
  {
    map k | k in entries :: if Matches(filter, k) then Initial else entries[k]
  }

  /** Each operation is idempotent: applying it twice is applying it once. */
  lemma OperationsIdempotent(entries: Entries, filter: QueryKey)
    ensures Invalidated(Invalidated(entries, filter), filter) == Invalidated(entries, filter)
    ensures Removed(Removed(entries, filter), filter) == Removed(entries, filter)
    ensures ResetEntries(ResetEntries(entries, filter), filter) == ResetEntries(entries, filter)
  {
    assert Removed(Removed(entries, filter), filter).Keys == Removed(entries, filter).Keys;
  }

  class Cache {
    var entries: Entries

    constructor (initial: Entries)
      ensures entries == initial
    {
      entries := initial;
    }

    /** `invalidateQueries({ queryKey: filter })`. */
    method Invalidate(filter: QueryKey) returns (e: Effect)
      modifies this
      ensures entries == Invalidated(old(entries), filter)
      ensures e == CacheInvalidate(filter)
    {
      entries := Invalidated(entries, filter);
      e := CacheInvalidate(filter);
    }

    /** `removeQueries({ queryKey: filter })`. */
    method Remove(filter: QueryKey) returns (e: Effect)
      modifies this
      ensures entries == Removed(old(entries), filter)
      ensures e == CacheRemove(filter)
    {
      entries := Removed(entries, filter);
      e := CacheRemove(filter);
    }

    /** `resetQueries({ queryKey: filter })`. */
    method Reset(filter: QueryKey) returns (e: Effect)
      modifies this
      ensures entries == ResetEntries(old(entries), filter)
      ensures e == CacheReset(filter)
    {
      entries := ResetEntries(entries, filter);
      e := CacheReset(filter);
    }
  }
}
