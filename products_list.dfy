/**
 * The logic inside the product list (components/ProductsList/ProductsList.tsx):
 * its own copy of the price-change computation, the relative "Updated …"
 * label and the placeholder letter shown when a product has no image.
 */
module ProductsList {
  import opened Wrappers
  import opened JsString
  import opened Platform
  import opened ProductTypes
  import opened PriceChangeInfo

  /** The component's local `getPriceChangeInfo`, written out again over `product.priceHistory`. */
  function ListPriceChangeInfo(product: Product): ChangeInfo {
    if |product.priceHistory| < 2 then ChangeInfo(0.0, Finite(0.0), Stable)
    else
      var latest := product.priceHistory[0].price;
      var previous := product.priceHistory[1].price;
      var change := latest - previous;
      ChangeInfo(change, Percent(change, previous), if change > 0.0 then Up else if change < 0.0 then Down else Stable)
  }

  /** The local copy returns what utils/get-price-change-info.ts returns, for every product. */
  lemma LocalCopyAgrees(product: Product)
    ensures ListPriceChangeInfo(product) == GetPriceChangeInfo(product.priceHistory)
  {
  }

  const MsPerDay: nat := 1000 * 60 * 60 * 24

  datatype RelativeLabel = Yesterday | DaysAgo(days: nat) | WeeksAgo(weeks: nat) | OnDate(ms: int) | InvalidDate

  /** `Math.ceil(a / b)` for a non-negative integer `a` and positive `b`. */
  function CeilDiv(a: nat, b: nat): (q: nat)
    requires b > 0
    ensures q * b >= a
    ensures q == 0 || (q - 1) * b < a
  {
    (a + b - 1) / b
  }

  function AbsInt(x: int): nat { if x < 0 then -x else x }

  /** `Math.ceil(Math.abs(now - date) / (1000 * 60 * 60 * 24))`. */
  function DiffDays(dateMs: int, nowMs: int): nat {
    CeilDiv(AbsInt(nowMs - dateMs), MsPerDay)
  }

  /** The label for a date that parsed, by how many (started) days lie between it and now. */
  function LabelFor(dateMs: int, nowMs: int): (r: RelativeLabel)
    ensures var d := DiffDays(dateMs, nowMs);
      && (r == Yesterday <==> d == 1)
      && (r.DaysAgo? <==> d == 0 || 2 <= d < 7)
      && (r.DaysAgo? ==> r.days == d)
      && (r.WeeksAgo? <==> 7 <= d < 30)
      && (r.WeeksAgo? ==> 1 <= r.weeks <= 5 && 7 * (r.weeks - 1) < d <= 7 * r.weeks)
      && (r.OnDate? <==> d >= 30)
      && (r.OnDate? ==> r.ms == dateMs)
      && !r.InvalidDate?
  {
    var d := DiffDays(dateMs, nowMs);
    if d == 1 then Yesterday
    else if d < 7 then DaysAgo(d)
    else if d < 30 then WeeksAgo(CeilDiv(d, 7))
    else OnDate(dateMs)
  }

  /** The local `formatDate(dateString)` at the instant `nowMs`. */
  function FormatRelative(dateString: string, nowMs: int, rt: Runtime): (r: RelativeLabel)
    ensures r.InvalidDate? <==> rt.dateTime(dateString).None?
    ensures rt.dateTime(dateString).Some? ==> r == LabelFor(rt.dateTime(dateString).value, nowMs)
  {
    match rt.dateTime(dateString)
    case None => InvalidDate
    case Some(ms) => LabelFor(ms, nowMs)
  }

  /** The text of a label; an invalid date prints as `toLocaleDateString` prints it. */
  function Render(l: RelativeLabel, rt: Runtime): string {
    match l
    case Yesterday => "Yesterday"
    case DaysAgo(n) => NatToString(n) + " days ago"
    case WeeksAgo(n) => NatToString(n) + " weeks ago"
    case OnDate(ms) => rt.localeDateString(ms, DefaultStyle)
    case InvalidDate => "Invalid Date"
  }

  /** A whole number of days up to the same instant reads as that many started days. */
  lemma DiffDaysOfWholeDays(nowMs: int, n: nat)
    ensures DiffDays(nowMs - n * MsPerDay, nowMs) == n
  {
    assert AbsInt(nowMs - (nowMs - n * MsPerDay)) == n * MsPerDay;
    assert (n * MsPerDay + MsPerDay - 1) / MsPerDay == n;
  }

  /** "Yesterday" means up to 24 hours away (in either direction), "0 days ago" means the same instant. */
  lemma YesterdayAndToday(dateMs: int, nowMs: int)
    ensures LabelFor(dateMs, nowMs) == Yesterday <==> 0 < AbsInt(nowMs - dateMs) <= MsPerDay
    ensures LabelFor(dateMs, nowMs) == DaysAgo(0) <==> dateMs == nowMs
  {
  }

  /**
   * The difference is taken as an absolute value: a date in the future and
   * one in the past the same distance away get the same relative label.
   */
  lemma FutureAndPastAlike(nowMs: int, k: nat)
    ensures var past := LabelFor(nowMs - k, nowMs);
            var future := LabelFor(nowMs + k, nowMs);
            past.OnDate? == future.OnDate? && (!past.OnDate? ==> past == future)
  {
    assert DiffDays(nowMs - k, nowMs) == DiffDays(nowMs + k, nowMs);
  }

  /** The rendered text of the relative labels. */
  lemma RenderedTexts(n: nat, rt: Runtime)
    ensures Render(Yesterday, rt) == "Yesterday"
    ensures Render(DaysAgo(0), rt) == "0 days ago"
    ensures Render(DaysAgo(n), rt) == NatToString(n) + " days ago"
    ensures Render(WeeksAgo(n), rt) == NatToString(n) + " weeks ago"
  {
    assert NatToString(0) == "0";
  }

  /** `item.brand ? item.brand.charAt(0) : item.name.charAt(0)`. */
  function PlaceholderLetter(product: Product): (r: string)
    ensures product.brand.Some? && product.brand.value != "" ==> r == [product.brand.value[0]]
    ensures (product.brand.None? || product.brand.value == "") && product.name != "" ==> r == [product.name[0]]
    ensures (product.brand.None? || product.brand.value == "") && product.name == "" ==> r == ""
  {
    var text := if product.brand.Some? && product.brand.value != "" then product.brand.value else product.name;
    text[..if text == "" then 0 else 1]
  }
}
