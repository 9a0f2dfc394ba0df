/**
 * The form record shared by the product and price modals
 * (types/product-modal-form-data.ts) and the field rules they share.
 */
module Forms {
  import opened Wrappers
  import opened JsString
  import opened Platform

  datatype FormData = FormData(
    name: string,
    brand: string,
    category: string,
    price: string,
    currency: string,
    store: string,
    date: string,
    description: string,
    imageUrl: string,
    tags: seq<string>)

  const Euro := "EUR"
  const PriceRequired := "Valid price is required."
  const ErrorTitle := "Error"

  /** `s || undefined`: the empty string is falsy and becomes an absent field. */
  function OrUndefined(s: string): (r: Option<string>)
    ensures r.None? <==> s == ""
    ensures r.Some? ==> r.value == s
  {
    if s == "" then None else Some(s)
  }

  /** `tags.length > 0 ? tags : undefined`. */
  function TagsOrUndefined(tags: seq<string>): (r: Option<seq<string>>)
    ensures r.None? <==> tags == []
    ensures r.Some? ==> r.value == tags
  {
    if tags == [] then None else Some(tags)
  }

  /**
   * The price check `!price.trim() || isNaN(Number(price))`: the parsed price,
   * or `None` when the text is blank or not a number.
   */
  function ParsePrice(text: string, rt: Runtime): (r: Option<real>)
    ensures r.None? <==> IsBlank(text) || rt.parseNumber(text).None?
    ensures r.Some? ==> Some(r.value) == rt.parseNumber(text)
  {
    if IsBlank(text) then None else rt.parseNumber(text)
  }

  /** The form after a successful submit: everything cleared, currency 'USD', today's date. */
  function ResetForm(today: string): (f: FormData)
    ensures f.currency == "USD" && f.date == today && f.tags == []
    ensures f.name == f.brand == f.category == f.price == f.store == f.description == f.imageUrl == ""
  {
    FormData("", "", "", "", "USD", "", today, "", "", [])
  }

  /** `if (!isPending) setFormData(reset)`: the reset is skipped when the mutation was pending at render time. */
  function AfterSuccess(form: FormData, pendingAtRender: bool, today: string): (f: FormData)
    ensures pendingAtRender ==> f == form
    ensures !pendingAtRender ==> f == ResetForm(today)
  {
    if pendingAtRender then form else ResetForm(today)
  }
}
