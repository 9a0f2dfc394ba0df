/** The trend of a product's price (utils/get-price-change-info.ts), from the two newest history entries. */
module PriceChangeInfo {
  import opened ProductTypes

  /** A JavaScript percentage: finite, or the result of dividing by a zero previous price. */
  datatype Percentage = Finite(value: real) | Infinite | NotANumber

  datatype ChangeInfo = ChangeInfo(change: real, percentage: Percentage, trend: Trend)

  function Abs(x: real): (r: real)
    ensures r >= 0.0 && (r == x || r == -x)
  {
    if x < 0.0 then -x else x
  }

  /** `Math.abs((change / previous) * 100)`; division by zero gives NaN (0/0) or Infinity. */
  function Percent(change: real, previous: real): Percentage {
    if previous != 0.0 then Finite(Abs((change / previous) * 100.0))
    else if change == 0.0 then NotANumber
    else Infinite
  }

  /** The sign of the change as a trend. */
  function TrendOf(change: real): Trend {
    if change > 0.0 then Up else if change < 0.0 then Down else Stable
  }

  /** `getPriceChangeInfo(priceHistory)`: entry 0 is the latest price, entry 1 the previous one. */
  function GetPriceChangeInfo(history: seq<PriceEntry>): (r: ChangeInfo)
    ensures |history| < 2 ==> r == ChangeInfo(0.0, Finite(0.0), Stable)
    ensures |history| >= 2 ==> r.change == history[0].price - history[1].price
    ensures r.trend == Up <==> r.change > 0.0
    ensures r.trend == Down <==> r.change < 0.0
    ensures r.trend == Stable <==> r.change == 0.0
    ensures r.percentage.Finite? ==> r.percentage.value >= 0.0
    ensures |history| >= 2 && history[1].price != 0.0 ==>
              r.percentage == Finite(Abs(r.change) * 100.0 / Abs(history[1].price))
    ensures |history| >= 2 && history[1].price == 0.0 ==>
              (r.percentage == NotANumber <==> r.change == 0.0) && (r.percentage == Infinite <==> r.change != 0.0)
  {
    if |history| < 2 then ChangeInfo(0.0, Finite(0.0), Stable)
    else
      var latest := history[0].price;
      var previous := history[1].price;
      var change := latest - previous;
      PercentOfNonZero(change, previous);
      ChangeInfo(change, Percent(change, previous), TrendOf(change))
  }

  lemma PercentOfNonZero(change: real, previous: real)
    ensures previous != 0.0 ==> Percent(change, previous) == Finite(Abs(change) * 100.0 / Abs(previous))
  {
    if previous != 0.0 {
      var q := change / previous * 100.0;
      var p := Abs(change) * 100.0 / Abs(previous);
      assert q * previous == change * 100.0;
      AbsOfProduct(q, previous);
      AbsOfProduct(change, 100.0);
      assert p * Abs(previous) == Abs(change) * 100.0;
      Cancel(Abs(q), p, Abs(previous));
    }
  }

  lemma AbsOfProduct(x: real, y: real)
    ensures Abs(x * y) == Abs(x) * Abs(y)
  {
    if x < 0.0 && y < 0.0 {
      assert x * y == (-x) * (-y);
    } else if x < 0.0 {
      assert -(x * y) == (-x) * y;
    } else if y < 0.0 {
      assert -(x * y) == x * (-y);
    }
  }

  lemma Cancel(a: real, b: real, p: real)
    requires p != 0.0 && a * p == b * p
    ensures a == b
  {
    assert (a - b) * p == 0.0;
  }

  /** Only the prices of entries 0 and 1 affect the result; later entries never do. */
  lemma OnlyNewestTwoMatter(h1: seq<PriceEntry>, h2: seq<PriceEntry>)
    requires |h1| >= 2 && |h2| >= 2
    requires h1[0].price == h2[0].price && h1[1].price == h2[1].price
    ensures GetPriceChangeInfo(h1) == GetPriceChangeInfo(h2)
  {
  }
}
