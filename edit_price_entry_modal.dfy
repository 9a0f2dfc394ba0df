/**
 * The modal that edits one price entry of the product on screen
 * (components/EditPriceEntryModal/EditPriceEntryModal.tsx).
 */
module EditPriceEntryModal {
  import opened Wrappers
  import opened Platform
  import opened Effects
  import opened ProductTypes
  import opened QueryCache
  import opened Forms
  import opened ConvertDates
  import opened UseEditProduct

  /** `modfiedPriceEntry`: the fields the form overrides. */
  datatype EntryEdit = EntryEdit(price: real, currency: string, date: string, store: string)

  /** `{ ...entry, ...modfiedPriceEntry }`. */
  function ApplyEdit(entry: PriceEntry, edit: EntryEdit): (r: PriceEntry)
    ensures r.priceEntryId == entry.priceEntryId && r.location == entry.location
    ensures r.price == edit.price && r.currency == edit.currency && r.date == edit.date
    ensures r.store == Some(edit.store)
  {
    entry.(price := edit.price, currency := edit.currency, date := edit.date, store := Some(edit.store))
  }

  /** The `priceHistory.map` that rewrites the entries carrying the edited id. */
  function ReplaceEntry(history: seq<PriceEntry>, id: string, edit: EntryEdit): (r: seq<PriceEntry>)
    ensures |r| == |history|
    ensures forall i :: 0 <= i < |history| && history[i].priceEntryId != id ==> r[i] == history[i]
    ensures forall i :: 0 <= i < |history| && history[i].priceEntryId == id ==> r[i] == ApplyEdit(history[i], edit)
  {
    if history == [] then []
    else
      var head := if history[0].priceEntryId == id then ApplyEdit(history[0], edit) else history[0];
      [head] + ReplaceEntry(history[1..], id, edit)
  }

  /** The edit keeps every id in place, so the history's order and uniqueness survive it. */
  lemma ReplaceKeepsIds(history: seq<PriceEntry>, id: string, edit: EntryEdit)
    ensures EntryIds(ReplaceEntry(history, id, edit)) == EntryIds(history)
    ensures UniqueIds(history) ==> UniqueIds(ReplaceEntry(history, id, edit))
  {
    var r := ReplaceEntry(history, id, edit);
    assert forall i :: 0 <= i < |r| ==> r[i].priceEntryId == history[i].priceEntryId;
  }

  /** With unique ids exactly the entry at position i changes, and no other. */
  lemma ReplaceOnlyTarget(history: seq<PriceEntry>, i: nat, edit: EntryEdit)
    requires UniqueIds(history) && i < |history|
    ensures var r := ReplaceEntry(history, history[i].priceEntryId, edit);
      r == history[..i] + [ApplyEdit(history[i], edit)] + history[i + 1..]
  {
    var r := ReplaceEntry(history, history[i].priceEntryId, edit);
    var s := history[..i] + [ApplyEdit(history[i], edit)] + history[i + 1..];
    assert |r| == |s|;
    forall k | 0 <= k < |r| ensures r[k] == s[k] {
      if k < i {
        assert s[k] == history[k];
      } else if k > i {
        assert s[k] == history[k];
      }
    }
  }

  /**
   * The patch `handleSubmit` sends: `Err` with the alert text when the price
   * is blank or not a number, otherwise only `priceHistory`, which is absent
   * when the product has not been loaded (`productInfo?.priceHistory.map`).
   */
  function SubmitPayload(form: FormData, product: Option<Product>, entry: PriceEntry, nowIso: string, rt: Runtime)
    : (r: Result<ModifiedProduct, string>)
    ensures r.Err? <==> ParsePrice(form.price, rt).None?
    ensures r.Err? ==> r.error == PriceRequired
    ensures r.Ok? ==> r.value.(priceHistory := None) == NoChanges
    ensures r.Ok? ==> (r.value.priceHistory.Some? <==> product.Some?)
    ensures r.Ok? && product.Some? ==>
              var edit := EntryEdit(ParsePrice(form.price, rt).value, form.currency,
                                    if form.date == "" then nowIso else form.date, form.store);
              r.value.priceHistory.value == ReplaceEntry(product.value.priceHistory, entry.priceEntryId, edit)
  {
    match ParsePrice(form.price, rt)
    case None => Err(PriceRequired)
    case Some(price) =>
      var edit := EntryEdit(price, form.currency, if form.date == "" then nowIso else form.date, form.store);
      var updated := if product.Some? then Some(ReplaceEntry(product.value.priceHistory, entry.priceEntryId, edit)) else None;
      Ok(NoChanges.(priceHistory := updated))
  }

  /** The form the modal opens with, filled from the entry. */
  function InitialForm(entry: PriceEntry, rt: Runtime): (f: FormData)
    ensures f.currency == (if entry.currency == "" then Euro else entry.currency)
    ensures f.store == entry.store.GetOr("")
    ensures f.price == rt.numberToString(entry.price)
    ensures f.date == FormatDate(entry.date, false, rt)
    ensures f.name == f.brand == f.category == f.description == f.imageUrl == "" && f.tags == []
  {
    FormData("", "", "", rt.numberToString(entry.price), if entry.currency == "" then Euro else entry.currency,
             entry.store.GetOr(""), FormatDate(entry.date, false, rt), "", "", [])
  }

  /**
   * Submitting the form untouched writes the entry's date back as its long
   * locale rendering (or the current timestamp when that rendering is empty),
   * not in the format it was stored in.
   */
  lemma UntouchedDateIsReformatted(entry: PriceEntry, product: Product, nowIso: string, rt: Runtime, i: nat)
    requires UniqueIds(product.priceHistory) && i < |product.priceHistory| && product.priceHistory[i] == entry
    requires ParsePrice(InitialForm(entry, rt).price, rt).Some?
    ensures var r := SubmitPayload(InitialForm(entry, rt), Some(product), entry, nowIso, rt);
      var formatted := FormatDate(entry.date, false, rt);
      r.Ok? && r.value.priceHistory.value[i].date == (if formatted == "" then nowIso else formatted)
  {
  }

  class EditPriceEntryModalState {
    var form: FormData

    constructor (entry: PriceEntry, rt: Runtime)
      ensures form == InitialForm(entry, rt)
    {
      form := InitialForm(entry, rt);
    }

    /**
     * `handleSubmit`. An invalid price alerts and sends nothing. Otherwise the
     * patch goes through the edit mutation; on success the form is reset
     * (unless the mutation was already pending when the modal rendered) and
     * the modal asks to close; a rejected mutation is caught after the hook's
     * alert, and the form stays open.
     */
    method Submit(cache: Cache, productId: string, product: Option<Product>, entry: PriceEntry,
                  pendingAtRender: bool, nowIso: string, today: string, rt: Runtime,
                  response: Result<Product, Thrown>)
      returns (effects: seq<Effect>, closed: bool)
      modifies this, cache
      ensures var p := SubmitPayload(old(form), product, entry, nowIso, rt);
        && (p.Err? ==> effects == [Alert(ErrorTitle, PriceRequired)] && !closed
                       && form == old(form) && cache.entries == old(cache.entries))
        && (p.Ok? ==> effects == EditProductEffects(productId, p.value, response))
        && (p.Ok? && response.Ok? ==> closed && form == AfterSuccess(old(form), pendingAtRender, today)
                                      && cache.entries == EditedEntries(old(cache.entries), response.value.id))
        && (p.Ok? && response.Err? ==> !closed && form == old(form) && cache.entries == old(cache.entries))
    {
      var payload := SubmitPayload(form, product, entry, nowIso, rt);
      if payload.Err? {
        effects := [Alert(ErrorTitle, payload.error)];
        closed := false;
        return;
      }
      var result;
      effects, result := EditProduct(cache, productId, payload.value, response);
      if result.Ok? {
        form := AfterSuccess(form, pendingAtRender, today);
        closed := true;
      } else {
        closed := false;
      }
    }
  }
}
