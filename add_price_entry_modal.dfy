/**
 * The modal that records a new price for the product on screen
 * (components/AddPriceEntryModal/AddPriceEntryModal.tsx). It sends only the
 * `latest*` fields; any new history entry is the server's to create.
 */
module AddPriceEntryModal {
  import opened Wrappers
  import opened Platform
  import opened Effects
  import opened ProductTypes
  import opened QueryCache
  import opened Forms
  import opened UseEditProduct

  /** The form the modal opens with: everything empty, currency EUR. */
  const InitialForm := FormData("", "", "", "", Euro, "", "", "", "", [])

  /**
   * The patch `handleSubmit` sends: `Err` with the alert text when the price
   * is blank or not a number, otherwise the four `latest*` fields with the
   * store and date exactly as typed.
   */
  function SubmitPayload(form: FormData, rt: Runtime): (r: Result<ModifiedProduct, string>)
    ensures r.Err? <==> ParsePrice(form.price, rt).None?
    ensures r.Err? ==> r.error == PriceRequired
    ensures r.Ok? ==> r.value.latestPrice.Some? && r.value.latestPrice == rt.parseNumber(form.price)
    ensures r.Ok? ==> r.value.latestCurrency == Some(form.currency) && r.value.latestStore == Some(form.store)
                      && r.value.latestPurchaseDate == Some(form.date)
    ensures r.Ok? ==> r.value.priceHistory.None?
    ensures r.Ok? ==> r.value.(latestPrice := None, latestCurrency := None, latestStore := None, latestPurchaseDate := None) == NoChanges
  {
    match ParsePrice(form.price, rt)
    case None => Err(PriceRequired)
    case Some(price) =>
      Ok(NoChanges.(latestPrice := Some(price), latestCurrency := Some(form.currency),
                    latestStore := Some(form.store), latestPurchaseDate := Some(form.date)))
  }

  /** The form opens in EUR but a successful submit leaves it in USD. */
  lemma CurrencyAfterReset(today: string)
    ensures InitialForm.currency == "EUR"
    ensures AfterSuccess(InitialForm, false, today).currency == "USD"
  {
  }

  class AddPriceEntryModalState {
    var form: FormData

    constructor ()
      ensures form == InitialForm
    {
      form := InitialForm;
    }

    /**
     * `handleSubmit`: an invalid price alerts and sends nothing; otherwise the
     * patch goes through the edit mutation, and on success the form is reset
     * (unless pending at render time) and the modal asks to close. A rejected
     * mutation is caught after the hook's alert, and the form stays open.
     */
    method Submit(cache: Cache, productId: string, pendingAtRender: bool, today: string, rt: Runtime,
                  response: Result<Product, Thrown>)
      returns (effects: seq<Effect>, closed: bool)
      modifies this, cache
      ensures var p := SubmitPayload(old(form), rt);
        && (p.Err? ==> effects == [Alert(ErrorTitle, PriceRequired)] && !closed
                       && form == old(form) && cache.entries == old(cache.entries))
        && (p.Ok? ==> effects == EditProductEffects(productId, p.value, response))
        && (p.Ok? && response.Ok? ==> closed && form == AfterSuccess(old(form), pendingAtRender, today)
                                      && cache.entries == EditedEntries(old(cache.entries), response.value.id))
        && (p.Ok? && response.Err? ==> !closed && form == old(form) && cache.entries == old(cache.entries))
    {
      var payload := SubmitPayload(form, rt);
      if payload.Err? {
        effects := [Alert(ErrorTitle, payload.error)];
        closed := false;
        return;
      }
      var result;
      effects, result := EditProduct(cache, productId, payload.value, response);
      if result.Ok? {
        form := AfterSuccess(form, pendingAtRender, today);
        closed := true;
      } else {
        closed := false;
      }
    }
  }
}
