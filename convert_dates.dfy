/**
 * Date string helpers (utils/convert-dates.ts). A `Date` is the local
 * calendar triple it was built from; parsing and locale formatting are the
 * runtime's.
 */
module ConvertDates {
  import opened Wrappers
  import opened JsString
  import opened Platform

  /** The string ends in `:` followed by three digits and `Z`. */
  predicate HasColonMillis(s: string) {
    |s| >= 5 && s[|s| - 5] == ':' && IsDigit(s[|s| - 4]) && IsDigit(s[|s| - 3])
      && IsDigit(s[|s| - 2]) && s[|s| - 1] == 'Z'
  }

  /** The replace `/:(\d{3})Z$/` to `.$1Z`: the colon before the milliseconds becomes a dot. */
  function RewriteSuffix(s: string): (r: string)
    ensures |r| == |s|
    ensures HasColonMillis(s) ==> r[..|s| - 5] == s[..|s| - 5] && r[|s| - 5] == '.' && r[|s| - 4..] == s[|s| - 4..]
    ensures !HasColonMillis(s) ==> r == s
    ensures !HasColonMillis(r)
  {
    if HasColonMillis(s) then s[..|s| - 5] + "." + s[|s| - 4..] else s
  }

  lemma RewriteIdempotent(s: string)
    ensures RewriteSuffix(RewriteSuffix(s)) == RewriteSuffix(s)
  {
  }

  /**
   * `formatDate(dateString, { short })`: the locale rendering of the repaired
   * string, or "" when it is not a valid date.
   */
  function FormatDate(dateString: string, short: bool, rt: Runtime): (r: string)
    ensures rt.dateTime(RewriteSuffix(dateString)).None? ==> r == ""
    ensures rt.dateTime(RewriteSuffix(dateString)).Some? ==>
              r == rt.localeDateString(rt.dateTime(RewriteSuffix(dateString)).value, if short then ShortDate else LongDate)
  {
    match rt.dateTime(RewriteSuffix(dateString))
    case None => ""
    case Some(ms) => rt.localeDateString(ms, if short then ShortDate else LongDate)
  }

  /** `ToIntegerOrInfinity` on a finite number: truncation toward zero. */
  function Truncate(x: real): (n: int)
    ensures x >= 0.0 ==> n as real <= x < n as real + 1.0
    ensures x < 0.0 ==> n as real - 1.0 < x <= n as real
  {
    if x >= 0.0 then x.Floor else -((-x).Floor)
  }

  /** The year rule of the `Date` constructor: 0..99 means 1900..1999. */
  function FullYear(y: int): (r: int)
    ensures 0 <= y <= 99 ==> r == 1900 + y
    ensures !(0 <= y <= 99) ==> r == y
  {
    if 0 <= y <= 99 then 1900 + y else y
  }

  /** `parts[i]` through `Number`; a missing part is `Number(undefined)`, NaN. */
  function Part(parts: seq<string>, i: nat, rt: Runtime): (r: Option<real>)
    ensures i >= |parts| ==> r.None?
    ensures i < |parts| ==> r == rt.parseNumber(parts[i])
  {
    if i < |parts| then rt.parseNumber(parts[i]) else None
  }

  /** The JS truthiness of a number: present (not NaN) and not zero. */
  predicate Truthy(x: Option<real>) {
    x.Some? && x.value != 0.0
  }

  /**
   * `toDate(input)`: `None` for "", the runtime's parse for input containing
   * 'T', and otherwise the first three '-'-separated parts as year, month and day.
   */
  function ToDate(input: string, rt: Runtime): (r: Option<CalendarDate>)
    ensures input == "" ==> r.None?
    ensures input != "" && 'T' in input ==>
              (r.None? <==> rt.dateTime(input).None?) &&
              (r.Some? ==> r.value == rt.localCalendar(rt.dateTime(input).value))
    ensures input != "" && 'T' !in input ==>
              var parts := Split(input, '-');
              var y, m, d := Part(parts, 0, rt), Part(parts, 1, rt), Part(parts, 2, rt);
              (r.None? <==> !(Truthy(y) && Truthy(m) && Truthy(d))) &&
              (r.Some? ==> r.value == CalendarDate(FullYear(Truncate(y.value)), Truncate(m.value - 1.0), Truncate(d.value)))
  {
    if input == "" then None
    else if 'T' in input then
      match rt.dateTime(input)
      case None => None
      case Some(ms) => Some(rt.localCalendar(ms))
    else
      var parts := Split(input, '-');
      var y, m, d := Part(parts, 0, rt), Part(parts, 1, rt), Part(parts, 2, rt);
      if !(Truthy(y) && Truthy(m) && Truthy(d)) then None
      else Some(CalendarDate(FullYear(Truncate(y.value)), Truncate(m.value - 1.0), Truncate(d.value)))
  }

  /**
   * The constructor truncates `month - 1`, not `month`: a fractional month
   * between 0 and 1 (as in "2025-0.5-10") still lands in January.
   */
  lemma FractionalMonthIsJanuary(input: string, rt: Runtime)
    requires input != "" && 'T' !in input
    requires var parts := Split(input, '-');
             Truthy(Part(parts, 0, rt)) && Truthy(Part(parts, 2, rt)) &&
             Part(parts, 1, rt).Some? && 0.0 < Part(parts, 1, rt).value < 1.0
    ensures ToDate(input, rt).Some? && ToDate(input, rt).value.monthIndex == 0
  {
  }

  /** `toDateStringISO(date)`: year, then month + 1 and day padded to two digits. */
  function ToDateStringISO(date: CalendarDate): string {
    IntToString(date.year) + "-" + PadStart2(IntToString(date.monthIndex + 1)) + "-" + PadStart2(IntToString(date.day))
  }

  predicate IsLeapYear(y: int) {
    (y % 4 == 0 && y % 100 != 0) || y % 400 == 0
  }

  function DaysInMonth(y: int, month: int): int
    requires 1 <= month <= 12
  {
    if month == 2 then (if IsLeapYear(y) then 29 else 28)
    else if month == 4 || month == 6 || month == 9 || month == 11 then 30
    else 31
  }

  /**
   * A 'YYYY-MM-DD' string naming a real calendar day with a four-digit year
   * from 1000 on, so that the `Date` constructor neither remaps the year nor
   * rolls an overflowing day into the next month.
   */
  predicate IsIsoDay(s: string) {
    |s| == 10 && s[4] == '-' && s[7] == '-'
      && AllDigits(s[..4]) && AllDigits(s[5..7]) && AllDigits(s[8..])
      && s[0] != '0'
      && 1 <= DigitsValue(s[5..7]) <= 12
      && 1 <= DigitsValue(s[8..]) <= DaysInMonth(DigitsValue(s[..4]), DigitsValue(s[5..7]))
  }

  /** Two digits with a non-zero value are what `padStart(2, '0')` makes of `String` of that value. */
  lemma TwoDigitsRoundTrip(m: string)
    requires |m| == 2 && AllDigits(m) && DigitsValue(m) >= 1
    ensures PadStart2(IntToString(DigitsValue(m))) == m
  {
    if m[0] != '0' {
      DigitsRoundTrip(m);
    } else {
      var tail := [m[1]];
      assert m[..1] == ['0'];
      assert DigitsValue(m[..1]) == 0 by {
        assert m[..1][..0] == [];
      }
      assert tail[..0] == [];
      assert DigitsValue(m) == DigitsValue(tail);
      DigitsRoundTrip(tail);
      assert m == "0" + tail;
    }
  }

  /** The pieces of a 'YYYY-MM-DD' string under `split('-')`. */
  lemma IsoDayParts(s: string)
    requires IsIsoDay(s)
    ensures Split(s, '-') == [s[..4], s[5..7], s[8..]]
  {
    assert '-' !in s[..4] by { assert !IsDigit('-'); }
    assert '-' !in s[5..7] by { assert !IsDigit('-'); }
    assert '-' !in s[8..] by { assert !IsDigit('-'); }
    assert s == s[..4] + ['-'] + (s[5..7] + ['-'] + s[8..]);
    SplitPiece(s[..4], '-', s[5..7] + ['-'] + s[8..]);
    SplitPiece(s[5..7], '-', s[8..]);
    SplitNoSeparator(s[8..], '-');
  }

  /** `toDate` reads an in-range 'YYYY-MM-DD' as that year, zero-based month and day. */
  lemma ToDateOfIsoDay(s: string, rt: Runtime)
    requires IsIsoDay(s) && ParsesDecimalDigits(rt)
    ensures ToDate(s, rt) == Some(CalendarDate(DigitsValue(s[..4]), DigitsValue(s[5..7]) - 1, DigitsValue(s[8..])))
  {
    assert 'T' !in s by {
      forall i | 0 <= i < |s| ensures s[i] != 'T' {
        if i < 4 { assert s[i] == s[..4][i]; }
        else if 4 < i < 7 { assert s[i] == s[5..7][i - 5]; }
        else if 7 < i { assert s[i] == s[8..][i - 8]; }
      }
    }
    IsoDayParts(s);
    var y, m, d := s[..4], s[5..7], s[8..];
    assert y[0] == s[0];
    DigitsPositive(y);
    DigitsRoundTrip(y);
    assert DigitsValue(y) >= 1000 by {
      assert |NatToString(DigitsValue(y))| == 4;
      NatToStringShort(DigitsValue(y));
    }
  }

  /** `String(n)` has at most three digits below 1000. */
  lemma {:induction false} NatToStringShort(n: nat)
    ensures n < 1000 ==> |NatToString(n)| <= 3
  {
    if 10 <= n < 1000 {
      NatToStringShort(n / 10);
      if n / 10 >= 10 {
        assert n / 10 / 10 < 10;
      }
    }
  }

  lemma ISOStringOf(year: int, month: int, day: int, y: string, m: string, d: string)
    requires IntToString(year) == y && PadStart2(IntToString(month)) == m && PadStart2(IntToString(day)) == d
    ensures ToDateStringISO(CalendarDate(year, month - 1, day)) == y + "-" + m + "-" + d
  {
  }

  lemma YearPrinted(y: string)
    requires AllDigits(y) && |y| >= 1 && y[0] != '0'
    ensures IntToString(DigitsValue(y)) == y
  {
    DigitsRoundTrip(y);
  }

  /** Printing a four-digit year and two-digit month and day (both at least 1) reproduces them. */
  lemma PartsPrinted(y: string, m: string, d: string)
    requires |y| == 4 && AllDigits(y) && y[0] != '0'
    requires |m| == 2 && AllDigits(m) && DigitsValue(m) >= 1
    requires |d| == 2 && AllDigits(d) && DigitsValue(d) >= 1
    ensures ToDateStringISO(CalendarDate(DigitsValue(y), DigitsValue(m) - 1, DigitsValue(d))) == y + "-" + m + "-" + d
  {
    YearPrinted(y);
    TwoDigitsRoundTrip(m);
    TwoDigitsRoundTrip(d);
    ISOStringOf(DigitsValue(y), DigitsValue(m), DigitsValue(d), y, m, d);
  }

  /** Printing the parts of a 'YYYY-MM-DD' string (month and day at least 1) gives the string back. */
  lemma IsoDayPrinted(s: string)
    requires |s| == 10 && s[4] == '-' && s[7] == '-' && s[0] != '0'
    requires AllDigits(s[..4]) && AllDigits(s[5..7]) && AllDigits(s[8..])
    requires DigitsValue(s[5..7]) >= 1 && DigitsValue(s[8..]) >= 1
    ensures ToDateStringISO(CalendarDate(DigitsValue(s[..4]), DigitsValue(s[5..7]) - 1, DigitsValue(s[8..]))) == s
  {
    var y, m, d := s[..4], s[5..7], s[8..];
    assert y[0] == s[0];
    PartsPrinted(y, m, d);
    assert s == y + "-" + m + "-" + d;
  }

  /** Round trip: an in-range 'YYYY-MM-DD' string survives `toDate` then `toDateStringISO`. */
  lemma IsoDayRoundTrip(s: string, rt: Runtime)
    requires IsIsoDay(s) && ParsesDecimalDigits(rt)
    ensures ToDate(s, rt).Some? && ToDateStringISO(ToDate(s, rt).value) == s
  {
    ToDateOfIsoDay(s, rt);
    IsoDayPrinted(s);
  }
}
