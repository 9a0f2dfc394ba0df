/**
 * One row of the price history on the product page
 * (components/ProductDetails/PriceEntries/PriceEntry/PriceEntry.tsx):
 * deleting the row's entry and the guard that hides the options menu.
 */
module PriceEntryRow {
  import opened Wrappers
  import opened Effects
  import opened ProductTypes
  import opened QueryCache
  import opened UseEditProduct

  /** `priceHistory.filter((entry) => entry.priceEntryId !== id)`. */
  function RemoveEntry(history: seq<PriceEntry>, id: string): (r: seq<PriceEntry>)
    ensures |r| <= |history|
  {
    if history == [] then []
    else if history[0].priceEntryId == id then RemoveEntry(history[1..], id)
    else [history[0]] + RemoveEntry(history[1..], id)
  }

  /** Exactly the entries with a different id remain. */
  lemma {:induction false} RemoveEntryMembers(history: seq<PriceEntry>, id: string)
    ensures forall e :: e in RemoveEntry(history, id) <==> e in history && e.priceEntryId != id
  {
    if history != [] {
      RemoveEntryMembers(history[1..], id);
      assert history == [history[0]] + history[1..];
    }
  }

  /** The filter works piecewise, so the remaining entries keep their relative order. */
  lemma {:induction false} RemoveDistributes(a: seq<PriceEntry>, b: seq<PriceEntry>, id: string)
    ensures RemoveEntry(a + b, id) == RemoveEntry(a, id) + RemoveEntry(b, id)
  {
    if a == [] {
      assert a + b == b;
    } else {
      var ab := a + b;
      assert ab[0] == a[0];
      assert ab[1..] == a[1..] + b;
      RemoveDistributes(a[1..], b, id);
      if a[0].priceEntryId == id {
        assert RemoveEntry(ab, id) == RemoveEntry(ab[1..], id);
        assert RemoveEntry(a, id) == RemoveEntry(a[1..], id);
      } else {
        assert RemoveEntry(ab, id) == [a[0]] + RemoveEntry(ab[1..], id);
        assert RemoveEntry(a, id) == [a[0]] + RemoveEntry(a[1..], id);
      }
    }
  }

  /** Entries are kept unchanged: with no entry carrying the id, nothing is removed. */
  lemma {:induction false} RemoveAbsent(history: seq<PriceEntry>, id: string)
    requires forall i :: 0 <= i < |history| ==> history[i].priceEntryId != id
    ensures RemoveEntry(history, id) == history
  {
    if history != [] {
      RemoveAbsent(history[1..], id);
    }
  }

  lemma RemoveAround(before: seq<PriceEntry>, e: PriceEntry, after: seq<PriceEntry>)
    requires RemoveEntry(before, e.priceEntryId) == before && RemoveEntry(after, e.priceEntryId) == after
    ensures RemoveEntry(before + [e] + after, e.priceEntryId) == before + after
  {
    var id := e.priceEntryId;
    assert RemoveEntry([e], id) == [] by {
      assert [e][1..] == [];
    }
    RemoveDistributes(before + [e], after, id);
    RemoveDistributes(before, [e], id);
    assert before + [] == before;
  }

  /** With unique ids, deleting entry i removes exactly position i, so the history gets one shorter. */
  lemma RemoveUnique(history: seq<PriceEntry>, i: nat)
    requires UniqueIds(history) && i < |history|
    ensures RemoveEntry(history, history[i].priceEntryId) == history[..i] + history[i + 1..]
    ensures |RemoveEntry(history, history[i].priceEntryId)| == |history| - 1
  {
    var e := history[i];
    var before, after := history[..i], history[i + 1..];
    assert history == before + [e] + after;
    forall k | 0 <= k < |before| ensures before[k].priceEntryId != e.priceEntryId {
      assert before[k] == history[k];
    }
    forall k | 0 <= k < |after| ensures after[k].priceEntryId != e.priceEntryId {
      assert after[k] == history[i + 1 + k];
    }
    RemoveAbsent(before, e.priceEntryId);
    RemoveAbsent(after, e.priceEntryId);
    RemoveAround(before, e, after);
  }

  /** The delete patch: `{ priceHistory: updatedHistory }` and no other field. */
  function DeletePayload(history: seq<PriceEntry>, id: string): (m: ModifiedProduct)
    ensures m.priceHistory == Some(RemoveEntry(history, id))
    ensures m.(priceHistory := None) == NoChanges
  {
    NoChanges.(priceHistory := Some(RemoveEntry(history, id)))
  }

  /** `priceHistory.length === 1 ? null : <MoreOptionsMenu … />`. */
  predicate ShowsMenu(history: seq<PriceEntry>) {
    |history| != 1
  }

  /**
   * Where the menu is offered, deleting one entry of a history with unique
   * ids never leaves it empty; the only entry of a one-entry history cannot
   * be deleted.
   */
  lemma MenuNeverEmptiesHistory(history: seq<PriceEntry>, i: nat)
    requires UniqueIds(history) && i < |history|
    ensures ShowsMenu(history) ==> RemoveEntry(history, history[i].priceEntryId) != []
    ensures !ShowsMenu(history) ==> |history| == 1
  {
    RemoveUnique(history, i);
  }

  /**
   * `onDelete`: sends the filtered history through the edit mutation, whose
   * invalidations and toast, or alert, are the whole trace. A rejected
   * mutation is caught and dropped after the hook's alert.
   */
  method OnDelete(cache: Cache, productId: string, item: PriceEntry, priceHistory: seq<PriceEntry>,
                  response: Result<Product, Thrown>)
    returns (effects: seq<Effect>)
    modifies cache
    ensures effects == EditProductEffects(productId, DeletePayload(priceHistory, item.priceEntryId), response)
    ensures response.Ok? ==> cache.entries == EditedEntries(old(cache.entries), response.value.id)
    ensures response.Err? ==> cache.entries == old(cache.entries)
  {
    var modifiedProduct := DeletePayload(priceHistory, item.priceEntryId);
    var result;
    effects, result := EditProduct(cache, productId, modifiedProduct, response);
  }
}
