/**
 * The data preparation of the price chart
 * (components/PriceHistoryChart/PriceHistoryChart.tsx): nothing is drawn
 * for a missing or empty history, otherwise a copy of the history is sorted
 * by ascending date with the stable `Array.prototype.sort`.
 */
module PriceHistoryChart {
  import opened Wrappers
  import opened Platform
  import opened ProductTypes

  /** `new Date(e.date).getTime()`; `None` for NaN. */
  function TimeOf(e: PriceEntry, rt: Runtime): Option<int> {
    rt.dateTime(e.date)
  }

  /**
   * The comparator is positive, so `a` is placed after `b`: both dates are
   * valid and `a` is later. A NaN difference counts as equal.
   */
  predicate PlacedAfter(a: PriceEntry, b: PriceEntry, rt: Runtime) {
    TimeOf(a, rt).Some? && TimeOf(b, rt).Some? && TimeOf(a, rt).value > TimeOf(b, rt).value
  }

  /** One step of a stable insertion sort: `x` goes after every entry not later than it. */
  function Insert(sorted: seq<PriceEntry>, x: PriceEntry, rt: Runtime): (r: seq<PriceEntry>)
    ensures multiset(r) == multiset(sorted) + multiset{x}
    ensures |r| == |sorted| + 1
  {
    if sorted == [] then [x]
    else
      var last := sorted[|sorted| - 1];
      if PlacedAfter(last, x, rt) then
        assert sorted == sorted[..|sorted| - 1] + [last];
        Insert(sorted[..|sorted| - 1], x, rt) + [last]
      else sorted + [x]
  }

  /** `[...priceHistory].sort(byDate)`: a new sequence; the input is a value and cannot change. */
  function SortByDate(history: seq<PriceEntry>, rt: Runtime): (r: seq<PriceEntry>)
    ensures multiset(r) == multiset(history)
    ensures |r| == |history|
  {
    if history == [] then []
    else
      assert history == history[..|history| - 1] + [history[|history| - 1]];
      Insert(SortByDate(history[..|history| - 1], rt), history[|history| - 1], rt)
  }

  /** `sortedData`, or `None` where the component renders nothing. */
  function ChartData(history: Option<seq<PriceEntry>>, rt: Runtime): (r: Option<seq<PriceEntry>>)
    ensures r.None? <==> history.None? || history.value == []
    ensures r.Some? ==> multiset(r.value) == multiset(history.value)
  {
    if history.None? || history.value == [] then None else Some(SortByDate(history.value, rt))
  }

  predicate AllDatesValid(s: seq<PriceEntry>, rt: Runtime) {
    forall i :: 0 <= i < |s| ==> TimeOf(s[i], rt).Some?
  }

  predicate Ascending(s: seq<PriceEntry>, rt: Runtime)
    requires AllDatesValid(s, rt)
  {
    forall i, j :: 0 <= i < j < |s| ==> TimeOf(s[i], rt).value <= TimeOf(s[j], rt).value
  }

  /** The entries whose time is `t`, in order. */
  function WithTime(s: seq<PriceEntry>, t: Option<int>, rt: Runtime): seq<PriceEntry> {
    if s == [] then []
    else (if TimeOf(s[0], rt) == t then [s[0]] else []) + WithTime(s[1..], t, rt)
  }

  lemma {:induction false} WithTimeDistributes(a: seq<PriceEntry>, b: seq<PriceEntry>, t: Option<int>, rt: Runtime)
    ensures WithTime(a + b, t, rt) == WithTime(a, t, rt) + WithTime(b, t, rt)
  {
    if a == [] {
      assert a + b == b;
    } else {
      var h := if TimeOf(a[0], rt) == t then [a[0]] else [];
      assert (a + b)[0] == a[0];
      assert (a + b)[1..] == a[1..] + b;
      assert WithTime(a + b, t, rt) == h + WithTime(a[1..] + b, t, rt);
      WithTimeDistributes(a[1..], b, t, rt);
      assert WithTime(a, t, rt) == h + WithTime(a[1..], t, rt);
      assert h + (WithTime(a[1..], t, rt) + WithTime(b, t, rt)) == (h + WithTime(a[1..], t, rt)) + WithTime(b, t, rt);
    }
  }

  lemma WithTimeSingle(x: PriceEntry, t: Option<int>, rt: Runtime)
    ensures WithTime([x], t, rt) == if TimeOf(x, rt) == t then [x] else []
  {
    assert [x][1..] == [];
  }

  /** An entry that sorts after `x` is never in the same time class as `x`. */
  lemma SwapClasses(last: PriceEntry, x: PriceEntry, t: Option<int>, rt: Runtime)
    requires PlacedAfter(last, x, rt)
    ensures WithTime([x], t, rt) + WithTime([last], t, rt) == WithTime([last], t, rt) + WithTime([x], t, rt)
  {
    WithTimeSingle(x, t, rt);
    WithTimeSingle(last, t, rt);
  }

  /** Inserting adds `x` to the end of its own time class and leaves every other class alone. */
  lemma {:induction false} InsertStable(sorted: seq<PriceEntry>, x: PriceEntry, t: Option<int>, rt: Runtime)
    ensures WithTime(Insert(sorted, x, rt), t, rt) == WithTime(sorted, t, rt) + WithTime([x], t, rt)
  {
    if sorted == [] {
      assert Insert(sorted, x, rt) == [x];
    } else {
      var init, last := sorted[..|sorted| - 1], sorted[|sorted| - 1];
      if PlacedAfter(last, x, rt) {
        assert Insert(sorted, x, rt) == Insert(init, x, rt) + [last];
        InsertStable(init, x, t, rt);
        WithTimeDistributes(Insert(init, x, rt), [last], t, rt);
        assert sorted == init + [last];
        WithTimeDistributes(init, [last], t, rt);
        SwapClasses(last, x, t, rt);
      } else {
        assert Insert(sorted, x, rt) == sorted + [x];
        WithTimeDistributes(sorted, [x], t, rt);
      }
    }
  }

  /**
   * Stability: the entries sharing a time come out in their input order. For
   * entries with an invalid date, whose comparisons all count as equal, the
   * same holds of the model's order.
   */
  lemma {:induction false} SortStable(history: seq<PriceEntry>, t: Option<int>, rt: Runtime)
    ensures WithTime(SortByDate(history, rt), t, rt) == WithTime(history, t, rt)
  {
    if history != [] {
      var init, last := history[..|history| - 1], history[|history| - 1];
      assert history == init + [last];
      SortStable(init, t, rt);
      InsertStable(SortByDate(init, rt), last, t, rt);
      WithTimeDistributes(init, [last], t, rt);
    }
  }

  /** Every entry of an insertion result is the inserted entry or came from the sorted list. */
  lemma InsertMembers(sorted: seq<PriceEntry>, x: PriceEntry, rt: Runtime, e: PriceEntry)
    requires e in Insert(sorted, x, rt)
    ensures e in sorted || e == x
  {
    assert e in multiset(Insert(sorted, x, rt));
  }

  /** Appending an entry no earlier than any entry of an ascending list keeps it ascending. */
  lemma AppendLatest(s: seq<PriceEntry>, y: PriceEntry, rt: Runtime)
    requires AllDatesValid(s, rt) && Ascending(s, rt) && TimeOf(y, rt).Some?
    requires forall i :: 0 <= i < |s| ==> TimeOf(s[i], rt).value <= TimeOf(y, rt).value
    ensures AllDatesValid(s + [y], rt) && Ascending(s + [y], rt)
  {
    var r := s + [y];
    assert forall i :: 0 <= i < |s| ==> r[i] == s[i];
  }

  lemma {:induction false} InsertAscending(sorted: seq<PriceEntry>, x: PriceEntry, rt: Runtime)
    requires AllDatesValid(sorted, rt) && TimeOf(x, rt).Some? && Ascending(sorted, rt)
    ensures AllDatesValid(Insert(sorted, x, rt), rt) && Ascending(Insert(sorted, x, rt), rt)
  {
    if sorted == [] {
      assert Insert(sorted, x, rt) == [x];
    } else {
      var init, last := sorted[..|sorted| - 1], sorted[|sorted| - 1];
      if PlacedAfter(last, x, rt) {
        assert forall i :: 0 <= i < |init| ==> init[i] == sorted[i];
        InsertAscending(init, x, rt);
        var ri := Insert(init, x, rt);
        assert Insert(sorted, x, rt) == ri + [last];
        forall i | 0 <= i < |ri| ensures TimeOf(ri[i], rt).value <= TimeOf(last, rt).value {
          InsertMembers(init, x, rt, ri[i]);
          if ri[i] != x {
            var k :| 0 <= k < |init| && init[k] == ri[i];
            assert sorted[k] == ri[i];
          }
        }
        AppendLatest(ri, last, rt);
      } else {
        assert Insert(sorted, x, rt) == sorted + [x];
        forall i | 0 <= i < |sorted| ensures TimeOf(sorted[i], rt).value <= TimeOf(x, rt).value {
          assert TimeOf(sorted[i], rt).value <= TimeOf(last, rt).value;
        }
        AppendLatest(sorted, x, rt);
      }
    }
  }

  /** When every date parses, the chart data is in ascending time order. */
  lemma {:induction false} SortAscending(history: seq<PriceEntry>, rt: Runtime)
    requires AllDatesValid(history, rt)
    ensures AllDatesValid(SortByDate(history, rt), rt) && Ascending(SortByDate(history, rt), rt)
  {
    if history != [] {
      var init, last := history[..|history| - 1], history[|history| - 1];
      assert forall i :: 0 <= i < |init| ==> init[i] == history[i];
      SortAscending(init, rt);
      InsertAscending(SortByDate(init, rt), last, rt);
    }
  }

  /**
   * For a non-empty history whose dates all parse, the chart data is a
   * permutation of it, ascending in time, with equal times in input order.
   */
  lemma ChartDataSorted(history: seq<PriceEntry>, rt: Runtime)
    requires history != [] && AllDatesValid(history, rt)
    ensures var r := ChartData(Some(history), rt);
      && r.Some? && multiset(r.value) == multiset(history)
      && AllDatesValid(r.value, rt) && Ascending(r.value, rt)
      && forall t :: WithTime(r.value, t, rt) == WithTime(history, t, rt)
  {
    SortAscending(history, rt);
    forall t ensures WithTime(SortByDate(history, rt), t, rt) == WithTime(history, t, rt) {
      SortStable(history, t, rt);
    }
  }
}
