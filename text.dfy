/** String operations the engines rely on: prefix tests, `split(..).next()`,
    single-character replacement and the decimal rendering of `to_string()`. */
module Text {
  import opened Wrappers

  /** `s.starts_with(prefix)` */
  predicate StartsWith(s: string, prefix: string) {
    |prefix| <= |s| && s[..|prefix|] == prefix
  }

  /** The first piece that `s.split(pat)` yields: the text of `s` up to the first
      occurrence of `pat`, or all of `s` when `pat` does not occur. */
  function PrefixBefore(s: string, pat: string): (r: string)
    requires pat != []
    ensures |r| <= |s| && r == s[..|r|]
    ensures forall i :: 0 <= i < |r| ==> !StartsWith(s[i..], pat)
    ensures |r| < |s| ==> StartsWith(s[|r|..], pat)
    decreases |s|
  {
    if s == [] || StartsWith(s, pat) then []
    else
      var rest := PrefixBefore(s[1..], pat);
      assert forall i :: 1 <= i <= |s| ==> s[i..] == s[1..][i - 1..];
      [s[0]] + rest
  }

  /** Cutting twice at the same pattern changes nothing more. */
  lemma {:induction false} PrefixBeforeIdempotent(s: string, pat: string)
    requires pat != []
    ensures PrefixBefore(PrefixBefore(s, pat), pat) == PrefixBefore(s, pat)
    decreases |s|
  {
    if s != [] && !StartsWith(s, pat) {
      var r := PrefixBefore(s, pat);
      PrefixBeforeIdempotent(s[1..], pat);
      assert r == [s[0]] + PrefixBefore(s[1..], pat);
      assert r[1..] == PrefixBefore(s[1..], pat);
    }
  }

  /** `s.replace(from, to)` for single-character `from` and `to`. */
  function ReplaceChar(s: string, from: char, to: char): (r: string)
    ensures |r| == |s|
    ensures forall i :: 0 <= i < |s| ==> r[i] == (if s[i] == from then to else s[i])
    decreases |s|
  {
    if s == [] then [] else [if s[0] == from then to else s[0]] + ReplaceChar(s[1..], from, to)
  }

  /** After replacing, `from` no longer occurs (when it differs from `to`). */
  lemma ReplaceCharRemoves(s: string, from: char, to: char)
    requires from != to
    ensures from !in ReplaceChar(s, from, to)
  {
  }

  predicate IsDigit(c: char) {
    '0' <= c <= '9'
  }

  function DigitChar(d: nat): (c: char)
    requires d < 10
    ensures IsDigit(c) && (c as int) - ('0' as int) == d
  {
    (('0' as int) + d) as char
  }

  /** `n.to_string()` for an unsigned integer: decimal digits, no leading zero. */
  function DecimalString(n: nat): (s: string)
    ensures 1 <= |s|
    ensures forall i :: 0 <= i < |s| ==> IsDigit(s[i])
    ensures s[0] == '0' ==> s == "0"
    decreases n
  {
    if n < 10 then [DigitChar(n)] else DecimalString(n / 10) + [DigitChar(n % 10)]
  }

  function DigitValue(c: char): nat
    requires IsDigit(c)
  {
    (c as int) - ('0' as int)
  }

  /** The value of a string of decimal digits. */
  function DigitsValue(s: string): nat
    requires forall i :: 0 <= i < |s| ==> IsDigit(s[i])
    decreases |s|
  {
    if s == [] then 0 else DigitsValue(s[..|s| - 1]) * 10 + DigitValue(s[|s| - 1])
  }

  /** Reads back a decimal number, as a receiving server would parse a query parameter. */
  function ParseDecimal(s: string): Option<nat> {
    if s != [] && forall i :: 0 <= i < |s| ==> IsDigit(s[i]) then Some(DigitsValue(s)) else None
  }

  /** Rendering a number and reading it back gives the number. */
  lemma {:induction false} DecimalRoundTrip(n: nat)
    ensures ParseDecimal(DecimalString(n)) == Some(n)
    decreases n
  {
    var s := DecimalString(n);
    if n < 10 {
      assert DigitsValue(s) == DigitsValue([]) * 10 + DigitValue(s[0]);
    } else {
      DecimalRoundTrip(n / 10);
      assert s[..|s| - 1] == DecimalString(n / 10);
      assert DigitsValue(s) == (n / 10) * 10 + n % 10;
    }
  }

  /** Distinct numbers render differently. */
  lemma DecimalInjective(m: nat, n: nat)
    requires DecimalString(m) == DecimalString(n)
    ensures m == n
  {
    DecimalRoundTrip(m);
    DecimalRoundTrip(n);
  }
}
