/** Character-level helpers: searching, ASCII case folding and decimal numerals. */
module Text {
  import opened Wrappers

  /** Position of the first `c` in `s`, if `s` contains one. */
  function IndexOf(s: string, c: char): (r: Option<nat>)
    ensures r.Some? ==> r.value < |s| && s[r.value] == c && c !in s[..r.value]
    ensures r.None? <==> c !in s
  {
    if |s| == 0 then None
    else if s[0] == c then Some(0)
    else match IndexOf(s[1..], c)
      case None => None
      case Some(k) =>
        assert s[..k + 1] == [s[0]] + s[1..][..k];
        Some(k + 1)
  }

  function LowerChar(c: char): char
  {
    if 'A' <= c <= 'Z' then (c as int + 32) as char else c
  }

  /** Lower-cases the letters A-Z and leaves every other character alone. */
  function LowerAscii(s: string): string
  {
    seq(|s|, i requires 0 <= i < |s| => LowerChar(s[i]))
  }

  predicate IsDigit(c: char)
  {
    '0' <= c <= '9'
  }

  /** A non-empty string of decimal digits. */
  predicate IsDecimal(s: string)
  {
    |s| > 0 && forall i :: 0 <= i < |s| ==> IsDigit(s[i])
  }

  /** The value of a string of decimal digits, most significant first. */
  function DecimalValue(s: string): nat
    requires forall i :: 0 <= i < |s| ==> IsDigit(s[i])
  {
    if |s| == 0 then 0
    else
      assert IsDigit(s[|s| - 1]);
      DecimalValue(s[..|s| - 1]) * 10 + (s[|s| - 1] as int - '0' as int)
  }

  /** The decimal rendering of `n`, as a JavaScript template literal
      renders a non-negative integer: digits only, no leading zero. */
  function NatToDecimal(n: nat): (r: string)
    ensures IsDecimal(r) && DecimalValue(r) == n
    ensures r[0] == '0' ==> n == 0
  {
    var last := ['0' + (n % 10) as char];
    if n < 10 then last
    else
      var prefix := NatToDecimal(n / 10);
      assert (prefix + last)[..|prefix|] == prefix;
      prefix + last
  }

  /** A digit string lower-cases to itself. */
  lemma {:induction false} LowerAsciiDecimal(s: string)
    requires IsDecimal(s)
    ensures LowerAscii(s) == s
  {
  }

  /** Lower-casing never turns a non-digit into a digit, nor a digit into anything else. */
  lemma LowerAsciiKeepsDigits(s: string)
    ensures |LowerAscii(s)| == |s|
    ensures forall i :: 0 <= i < |s| ==> (IsDigit(LowerAscii(s)[i]) <==> IsDigit(s[i]))
  {
  }
}
