/**
 * The modal that edits a product's descriptive fields
 * (components/EditProductModal/EditProductModal.tsx). Prices are not
 * touched here.
 */
module EditProductModal {
  import opened Wrappers
  import opened JsString
  import opened Effects
  import opened ProductTypes
  import opened QueryCache
  import opened Forms
  import opened UseEditProduct

  const NameRequired := "Product name is required."
  const CategoryRequired := "Category is required."

  /** The form the modal opens with: the cached product's fields, or "" and [] when absent. */
  function InitialForm(product: Option<Product>): (f: FormData)
    ensures product.None? ==> f == FormData("", "", "", "", Euro, "", "", "", "", [])
    ensures product.Some? ==>
              var p := product.value;
              f == FormData(p.name, p.brand.GetOr(""), p.category, "", Euro, "", "", p.description.GetOr(""),
                            p.imageUrl.GetOr(""), p.tags.GetOr([]))
  {
    match product
    case None => FormData("", "", "", "", Euro, "", "", "", "", [])
    case Some(p) =>
      FormData(p.name, p.brand.GetOr(""), p.category, "", Euro, "", "", p.description.GetOr(""),
               p.imageUrl.GetOr(""), p.tags.GetOr([]))
  }

  /**
   * `handleSubmit`'s validation and patch: name, then category, are checked;
   * the patch holds only the six descriptive fields, normalised as when
   * adding a product.
   */
  function SubmitPayload(form: FormData): (r: Result<ModifiedProduct, string>)
    ensures IsBlank(form.name) ==> r == Err(NameRequired)
    ensures !IsBlank(form.name) && IsBlank(form.category) ==> r == Err(CategoryRequired)
    ensures r.Ok? <==> !IsBlank(form.name) && !IsBlank(form.category)
    ensures r.Ok? ==> r.value.name == Some(Trim(form.name)) && r.value.category == Some(form.category)
    ensures r.Ok? ==> r.value.brand == OrUndefined(form.brand)
                      && r.value.description == OrUndefined(Trim(form.description))
                      && r.value.imageUrl == OrUndefined(Trim(form.imageUrl))
                      && r.value.tags == TagsOrUndefined(form.tags)
    ensures r.Ok? ==> r.value.latestPrice.None? && r.value.latestCurrency.None? && r.value.latestStore.None?
                      && r.value.latestPurchaseDate.None? && r.value.priceHistory.None?
  {
    if IsBlank(form.name) then Err(NameRequired)
    else if IsBlank(form.category) then Err(CategoryRequired)
    else Ok(NoChanges.(name := Some(Trim(form.name)), brand := OrUndefined(form.brand), category := Some(form.category),
                       description := OrUndefined(Trim(form.description)), imageUrl := OrUndefined(Trim(form.imageUrl)),
                       tags := TagsOrUndefined(form.tags)))
  }

  /**
   * Clearing the brand, description, image or tags in the form sends that
   * field as absent, so a patch can never empty it on the server.
   */
  lemma ClearedFieldsAreOmitted(form: FormData)
    requires SubmitPayload(form).Ok?
    ensures form.brand == "" ==> SubmitPayload(form).value.brand.None?
    ensures IsBlank(form.description) ==> SubmitPayload(form).value.description.None?
    ensures IsBlank(form.imageUrl) ==> SubmitPayload(form).value.imageUrl.None?
    ensures form.tags == [] ==> SubmitPayload(form).value.tags.None?
    ensures SubmitPayload(form).value.brand != Some("") && SubmitPayload(form).value.description != Some("")
  {
  }

  /** A trimmed, non-empty optional text field as the server would store it. */
  predicate CleanOptional(field: Option<string>) {
    field.None? || (field.value != "" && Trim(field.value) == field.value)
  }

  /**
   * Submitting the form untouched sends back the product's own fields, as
   * long as those were already normalised.
   */
  lemma UnchangedFormResendsProduct(p: Product)
    requires p.name != "" && Trim(p.name) == p.name && !IsBlank(p.category)
    requires p.brand != Some("") && CleanOptional(p.description) && CleanOptional(p.imageUrl) && p.tags != Some([])
    ensures SubmitPayload(InitialForm(Some(p))) ==
              Ok(NoChanges.(name := Some(p.name), brand := p.brand, category := Some(p.category),
                            description := p.description, imageUrl := p.imageUrl, tags := p.tags))
  {
    var f := InitialForm(Some(p));
    assert f.name == p.name && f.category == p.category && f.brand == p.brand.GetOr("") && f.tags == p.tags.GetOr([]);
    assert f.description == p.description.GetOr("") && f.imageUrl == p.imageUrl.GetOr("");
    FormFieldsRoundTrip(p);
    var m := SubmitPayload(f).value;
    assert m.name == Some(p.name) && m.category == Some(p.category);
    assert m.brand == p.brand && m.description == p.description && m.imageUrl == p.imageUrl && m.tags == p.tags;
  }

  /** Each field of a normalised product, read into the form and normalised again, comes back unchanged. */
  lemma FormFieldsRoundTrip(p: Product)
    requires p.name != "" && Trim(p.name) == p.name
    requires p.brand != Some("") && CleanOptional(p.description) && CleanOptional(p.imageUrl) && p.tags != Some([])
    ensures !IsBlank(p.name)
    ensures OrUndefined(p.brand.GetOr("")) == p.brand && TagsOrUndefined(p.tags.GetOr([])) == p.tags
    ensures OrUndefined(Trim(p.description.GetOr(""))) == p.description
    ensures OrUndefined(Trim(p.imageUrl.GetOr(""))) == p.imageUrl
  {
    OptionalRoundTrip(p.description);
    OptionalRoundTrip(p.imageUrl);
    BrandRoundTrip(p.brand);
    TagsRoundTrip(p.tags);
  }

  lemma BrandRoundTrip(field: Option<string>)
    requires field != Some("")
    ensures OrUndefined(field.GetOr("")) == field
  {
  }

  lemma TagsRoundTrip(field: Option<seq<string>>)
    requires field != Some([])
    ensures TagsOrUndefined(field.GetOr([])) == field
  {
  }

  /** An optional text field read into the form and normalised again comes back unchanged. */
  lemma OptionalRoundTrip(field: Option<string>)
    requires CleanOptional(field)
    ensures OrUndefined(Trim(field.GetOr(""))) == field
  {
    if field.None? {
      assert Trim("") == "";
    }
  }

  class EditProductModalState {
    var form: FormData

    constructor (product: Option<Product>)
      ensures form == InitialForm(product)
    {
      form := InitialForm(product);
    }

    /**
     * `handleSubmit`: a failed check alerts and sends nothing. Otherwise the
     * patch goes through the edit mutation; `onClose` runs only after it
     * succeeds, and a rejected mutation is caught after the hook's alert.
     */
    method Submit(cache: Cache, productId: string, pendingAtRender: bool, today: string,
                  response: Result<Product, Thrown>)
      returns (effects: seq<Effect>, closed: bool)
      modifies this, cache
      ensures var p := SubmitPayload(old(form));
        && (p.Err? ==> effects == [Alert(ErrorTitle, p.error)] && !closed
                       && form == old(form) && cache.entries == old(cache.entries))
        && (p.Ok? ==> effects == EditProductEffects(productId, p.value, response))
        && (p.Ok? && response.Ok? ==> closed && form == AfterSuccess(old(form), pendingAtRender, today)
                                      && cache.entries == EditedEntries(old(cache.entries), response.value.id))
        && (p.Ok? && response.Err? ==> !closed && form == old(form) && cache.entries == old(cache.entries))
    {
      effects, closed := Send(cache, productId, SubmitPayload(form), pendingAtRender, today, response);
    }

    /** What `handleSubmit` does with the outcome of its checks. */
    method Send(cache: Cache, productId: string, p: Result<ModifiedProduct, string>, pendingAtRender: bool,
                today: string, response: Result<Product, Thrown>)
      returns (effects: seq<Effect>, closed: bool)
      modifies this, cache
      ensures p.Err? ==> effects == [Alert(ErrorTitle, p.error)] && !closed
                         && form == old(form) && cache.entries == old(cache.entries)
      ensures p.Ok? ==> effects == EditProductEffects(productId, p.value, response)
      ensures p.Ok? && response.Ok? ==> closed && form == AfterSuccess(old(form), pendingAtRender, today)
                                        && cache.entries == EditedEntries(old(cache.entries), response.value.id)
      ensures p.Ok? && response.Err? ==> !closed && form == old(form) && cache.entries == old(cache.entries)
    {
      if p.Err? {
        effects := [Alert(ErrorTitle, p.error)];
        closed := false;
        return;
      }
      var result;
      effects, result := EditProduct(cache, productId, p.value, response);
      if result.Ok? {
        form := AfterSuccess(form, pendingAtRender, today);
        closed := true;
      } else {
        closed := false;
      }
    }
  }
}
