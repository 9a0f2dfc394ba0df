/**
 * The parts of JavaScript's string behaviour the core relies on: the
 * whitespace set of `String.prototype.trim` and of the regular-expression
 * class `\s`, trimming, `split` on one character, decimal digits as produced
 * by `String(n)`, and `padStart(2, '0')`.
 */
module JsString {

  /** WhiteSpace and LineTerminator code points of ECMAScript (what `trim` strips and `\s` matches). */
  predicate IsWhitespace(c: char) {
    var n := c as int;
    n == 0x09 || n == 0x0A || n == 0x0B || n == 0x0C || n == 0x0D || n == 0x20
    || n == 0xA0 || n == 0x1680 || (0x2000 <= n <= 0x200A) || n == 0x2028 || n == 0x2029
    || n == 0x202F || n == 0x205F || n == 0x3000 || n == 0xFEFF
  }

  predicate AllWhitespace(s: string) {
    forall i :: 0 <= i < |s| ==> IsWhitespace(s[i])
  }

  /** `s` with its leading whitespace removed. */
  function TrimStart(s: string): (r: string)
    ensures |r| <= |s| && r == s[|s| - |r|..]
    ensures AllWhitespace(s[..|s| - |r|])
    ensures r == [] || !IsWhitespace(r[0])
  {
    if s != [] && IsWhitespace(s[0]) then TrimStart(s[1..]) else s
  }

  /** `s` with its trailing whitespace removed. */
  function TrimEnd(s: string): (r: string)
    ensures |r| <= |s| && r == s[..|r|]
    ensures AllWhitespace(s[|r|..])
    ensures r == [] || !IsWhitespace(r[|r| - 1])
  {
    if s != [] && IsWhitespace(s[|s| - 1]) then TrimEnd(s[..|s| - 1]) else s
  }

  /** `String.prototype.trim`: `s` without the whitespace runs at both ends. */
  function Trim(s: string): (r: string)
    ensures |r| <= |s|
    ensures r == [] || (!IsWhitespace(r[0]) && !IsWhitespace(r[|r| - 1]))
  {
    TrimEnd(TrimStart(s))
  }

  /** The trimmed string is the inner slice of `s` between whitespace runs at both ends. */
  lemma TrimIsInnerSlice(s: string)
    ensures exists a, b :: 0 <= a <= b <= |s| && Trim(s) == s[a..b]
                           && AllWhitespace(s[..a]) && AllWhitespace(s[b..])
  {
    var t := TrimStart(s);
    var r := TrimEnd(t);
    var a := |s| - |t|;
    assert r == s[a..a + |r|];
    assert s[a + |r|..] == t[|r|..];
  }

  /** A string that is empty after trimming (`!s.trim()` in the source). */
  predicate IsBlank(s: string) {
    Trim(s) == ""
  }

  lemma {:induction false} TrimStartOfAllWhitespace(s: string)
    requires AllWhitespace(s)
    ensures TrimStart(s) == ""
  {
    if s != [] {
      TrimStartOfAllWhitespace(s[1..]);
    }
  }

  /** A string is blank exactly when every character is whitespace. */
  lemma BlankIffAllWhitespace(s: string)
    ensures IsBlank(s) <==> AllWhitespace(s)
  {
    if AllWhitespace(s) {
      TrimStartOfAllWhitespace(s);
    }
    if IsBlank(s) {
      var t := TrimStart(s);
      assert TrimEnd(t) == "";
      assert AllWhitespace(t[0..]);
      assert s == s[..|s| - |t|] + t;
    }
  }

  /** Trimming twice is trimming once. */
  lemma TrimIdempotent(s: string)
    ensures Trim(Trim(s)) == Trim(s)
  {
    var r := Trim(s);
    if r != [] {
      assert TrimStart(r) == r;
      assert TrimEnd(r) == r;
    }
  }

  // ----- decimal digits -----

  predicate IsDigit(c: char) { '0' <= c <= '9' }

  predicate AllDigits(s: string) {
    forall i :: 0 <= i < |s| ==> IsDigit(s[i])
  }

  function DigitChar(d: nat): (c: char)
    requires d < 10
    ensures IsDigit(c) && (c as int) - ('0' as int) == d
  {
    ('0' as int + d) as char
  }

  /** The value of a string of decimal digits ("" counts as 0). */
  function DigitsValue(s: string): nat
    requires AllDigits(s)
  {
    if s == [] then 0
    else DigitsValue(s[..|s| - 1]) * 10 + ((s[|s| - 1] as int) - ('0' as int))
  }

  /** `String(n)` for a natural number: its shortest decimal representation. */
  function NatToString(n: nat): (r: string)
    ensures |r| >= 1 && AllDigits(r)
    ensures |r| == 1 || r[0] != '0'
  {
    if n < 10 then [DigitChar(n)] else NatToString(n / 10) + [DigitChar(n % 10)]
  }

  /** `String(i)` for an integer, with a leading '-' for negatives. */
  function IntToString(i: int): string {
    if i < 0 then "-" + NatToString(-i) else NatToString(i)
  }

  /** `s.padStart(2, '0')`. */
  function PadStart2(s: string): (r: string)
    ensures |r| == if |s| < 2 then 2 else |s|
    ensures r[|r| - |s|..] == s
    ensures forall i :: 0 <= i < |r| - |s| ==> r[i] == '0'
  {
    if |s| == 0 then "00" else if |s| == 1 then "0" + s else s
  }

  lemma {:induction false} NatToStringValue(n: nat)
    ensures DigitsValue(NatToString(n)) == n
  {
    if n >= 10 {
      NatToStringValue(n / 10);
      var s := NatToString(n);
      assert s[..|s| - 1] == NatToString(n / 10);
    }
  }

  /** A digit string without a superfluous leading zero is what `String` prints for its value. */
  lemma {:induction false} DigitsRoundTrip(s: string)
    requires AllDigits(s) && |s| >= 1 && (|s| == 1 || s[0] != '0')
    ensures NatToString(DigitsValue(s)) == s
  {
    var n := DigitsValue(s);
    var last := (s[|s| - 1] as int) - ('0' as int);
    if |s| == 1 {
      assert s[..|s| - 1] == [];
      assert DigitsValue(s) == DigitsValue(s[..|s| - 1]) * 10 + last;
      assert n == last;
      assert [DigitChar(n)] == s;
    } else {
      var init := s[..|s| - 1];
      assert init[0] == s[0];
      DigitsRoundTrip(init);
      DigitsPositive(init);
      assert n / 10 == DigitsValue(init) && n % 10 == last;
      assert DigitChar(last) == s[|s| - 1];
      assert s == init + [s[|s| - 1]];
    }
  }

  lemma {:induction false} DigitsPositive(s: string)
    requires AllDigits(s) && |s| >= 1 && s[0] != '0'
    ensures DigitsValue(s) >= 1
  {
    if |s| > 1 {
      var init := s[..|s| - 1];
      assert init[0] == s[0];
      DigitsPositive(init);
    }
  }

  // ----- split on one separator character -----

  /** `s.split(sep)` for a one-character separator; always at least one part. */
  function Split(s: string, sep: char): (parts: seq<string>)
    ensures |parts| >= 1
  {
    if s == [] then [""]
    else
      var rest := Split(s[1..], sep);
      if s[0] == sep then [""] + rest else [[s[0]] + rest[0]] + rest[1..]
  }

  /** Splitting a separator-free piece followed by the separator yields that piece first. */
  lemma {:induction false} SplitPiece(a: string, sep: char, b: string)
    requires sep !in a
    ensures Split(a + [sep] + b, sep) == [a] + Split(b, sep)
  {
    if a == [] {
      assert a + [sep] + b == [sep] + b;
      assert ([sep] + b)[1..] == b;
    } else {
      SplitPiece(a[1..], sep, b);
      assert (a + [sep] + b)[1..] == a[1..] + [sep] + b;
      assert [a[0]] + a[1..] == a;
    }
  }

  lemma {:induction false} SplitNoSeparator(a: string, sep: char)
    requires sep !in a
    ensures Split(a, sep) == [a]
  {
    if a != [] {
      SplitNoSeparator(a[1..], sep);
      assert [a[0]] + a[1..] == a;
    }
  }
}
