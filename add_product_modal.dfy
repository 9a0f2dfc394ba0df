/**
 * The modal that creates a product with its first price
 * (components/AddProductModal/AddProductModal.tsx).
 */
module AddProductModal {
  import opened Wrappers
  import opened JsString
  import opened Platform
  import opened Effects
  import opened ProductTypes
  import opened QueryCache
  import opened Forms
  import opened UseAddProduct

  const NameRequired := "Product name is required."
  const CategoryRequired := "Category is required."

  /** The form the modal opens with: empty fields, currency EUR, today's date. */
  function InitialForm(today: string): (f: FormData)
    ensures f.currency == Euro && f.date == today && f.tags == []
    ensures f.name == f.brand == f.category == f.price == f.store == f.description == f.imageUrl == ""
  {
    FormData("", "", "", "", Euro, "", today, "", "", [])
  }

  /** The record sent to `addProduct` once the form is valid; `uuid` is `Crypto.randomUUID()`. */
  function BuildNewProduct(form: FormData, price: real, uuid: string): (p: NewProduct)
    ensures p.priceHistory == [PriceEntry(uuid, form.date, OrUndefined(form.store), None, price, form.currency)]
    ensures p.latestPrice == p.priceHistory[0].price && p.latestCurrency == p.priceHistory[0].currency
    ensures p.name == Trim(form.name) && p.category == form.category
    ensures p.brand == OrUndefined(form.brand)
    ensures p.description == OrUndefined(Trim(form.description)) && p.imageUrl == OrUndefined(Trim(form.imageUrl))
    ensures p.tags == TagsOrUndefined(form.tags) && p.trend == Some(Stable)
    ensures p.latestStore.None? && p.latestPurchaseDate.None? && p.ocrRawText.None?
    ensures p.averagePrice.None? && p.lowestPrice.None? && p.highestPrice.None?
  {
    NewProduct(
      name := Trim(form.name),
      brand := OrUndefined(form.brand),
      category := form.category,
      description := OrUndefined(Trim(form.description)),
      imageUrl := OrUndefined(Trim(form.imageUrl)),
      latestPrice := price,
      latestCurrency := form.currency,
      latestStore := None,
      latestPurchaseDate := None,
      priceHistory := [PriceEntry(uuid, form.date, OrUndefined(form.store), None, price, form.currency)],
      averagePrice := None,
      lowestPrice := None,
      highestPrice := None,
      trend := Some(Stable),
      tags := TagsOrUndefined(form.tags),
      ocrRawText := None)
  }

  /**
   * `handleSubmit`'s validation and build: name, then price, then category
   * are checked, and only the first failure is reported.
   */
  function SubmitPayload(form: FormData, uuid: string, rt: Runtime): (r: Result<NewProduct, string>)
    ensures IsBlank(form.name) ==> r == Err(NameRequired)
    ensures !IsBlank(form.name) && ParsePrice(form.price, rt).None? ==> r == Err(PriceRequired)
    ensures !IsBlank(form.name) && ParsePrice(form.price, rt).Some? && IsBlank(form.category) ==> r == Err(CategoryRequired)
    ensures r.Ok? <==> !IsBlank(form.name) && ParsePrice(form.price, rt).Some? && !IsBlank(form.category)
    ensures r.Ok? ==> r.value == BuildNewProduct(form, ParsePrice(form.price, rt).value, uuid)
  {
    if IsBlank(form.name) then Err(NameRequired)
    else match ParsePrice(form.price, rt)
      case None => Err(PriceRequired)
      case Some(price) =>
        if IsBlank(form.category) then Err(CategoryRequired)
        else Ok(BuildNewProduct(form, price, uuid))
  }

  /**
   * A product that passes validation has a non-empty trimmed name, a
   * category that is not blank, and optional text fields that are either
   * absent or non-empty.
   */
  lemma SubmittedProductIsClean(form: FormData, uuid: string, rt: Runtime)
    requires SubmitPayload(form, uuid, rt).Ok?
    ensures var p := SubmitPayload(form, uuid, rt).value;
      && p.name != "" && Trim(p.name) == p.name
      && !IsBlank(p.category)
      && p.brand != Some("") && p.description != Some("") && p.imageUrl != Some("")
      && p.tags != Some([])
      && |p.priceHistory| == 1 && p.priceHistory[0].store != Some("")
  {
    var price := ParsePrice(form.price, rt).value;
    var p := BuildNewProduct(form, price, uuid);
    assert SubmitPayload(form, uuid, rt).value == p;
    TrimIdempotent(form.name);
    assert p.name != "" && Trim(p.name) == p.name;
    assert |p.priceHistory| == 1 && p.priceHistory[0].store == OrUndefined(form.store);
  }

  class AddProductModalState {
    var form: FormData
    var showAdvanced: bool

    constructor (today: string)
      ensures form == InitialForm(today) && !showAdvanced
    {
      form := InitialForm(today);
      showAdvanced := false;
    }

    /**
     * `handleSubmit`: a failed check alerts and sends nothing. Otherwise the
     * product goes through the add mutation; on success the form is reset and
     * the advanced section folded (unless the mutation was pending at render
     * time) and the modal asks to close. A rejected mutation is caught after
     * the hook's alert, and the form stays open.
     */
    method Submit(cache: Cache, uuid: string, pendingAtRender: bool, today: string, rt: Runtime,
                  response: Result<Product, Thrown>)
      returns (effects: seq<Effect>, closed: bool)
      modifies this, cache
      ensures var p := SubmitPayload(old(form), uuid, rt);
        && (p.Err? ==> effects == [Alert(ErrorTitle, p.error)] && !closed && form == old(form)
                       && showAdvanced == old(showAdvanced) && cache.entries == old(cache.entries))
        && (p.Ok? ==> effects == AddProductEffects(p.value, response))
        && (p.Ok? && response.Ok? ==> closed && form == AfterSuccess(old(form), pendingAtRender, today)
                                      && showAdvanced == (old(showAdvanced) && pendingAtRender)
                                      && cache.entries == Invalidated(old(cache.entries), QueryKeys.ProductsKeys))
        && (p.Ok? && response.Err? ==> !closed && form == old(form) && showAdvanced == old(showAdvanced)
                                       && cache.entries == old(cache.entries))
    {
      effects, closed := Send(cache, SubmitPayload(form, uuid, rt), pendingAtRender, today, response);
    }

    /** What `handleSubmit` does with the outcome of its checks. */
    method Send(cache: Cache, p: Result<NewProduct, string>, pendingAtRender: bool, today: string,
                response: Result<Product, Thrown>)
      returns (effects: seq<Effect>, closed: bool)
      modifies this, cache
      ensures p.Err? ==> effects == [Alert(ErrorTitle, p.error)] && !closed && form == old(form)
                         && showAdvanced == old(showAdvanced) && cache.entries == old(cache.entries)
      ensures p.Ok? ==> effects == AddProductEffects(p.value, response)
      ensures p.Ok? && response.Ok? ==> closed && form == AfterSuccess(old(form), pendingAtRender, today)
                                        && showAdvanced == (old(showAdvanced) && pendingAtRender)
                                        && cache.entries == Invalidated(old(cache.entries), QueryKeys.ProductsKeys)
      ensures p.Ok? && response.Err? ==> !closed && form == old(form) && showAdvanced == old(showAdvanced)
                                         && cache.entries == old(cache.entries)
    {
      if p.Err? {
        effects := [Alert(ErrorTitle, p.error)];
        closed := false;
        return;
      }
      var result;
      effects, result := AddProduct(cache, p.value, response);
      if result.Ok? {
        if !pendingAtRender {
          form := ResetForm(today);
          showAdvanced := false;
        }
        closed := true;
      } else {
        closed := false;
      }
    }
  }
}
