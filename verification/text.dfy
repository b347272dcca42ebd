/** Character-level helpers shared by both passes: prefix tests, ASCII
    decimal digits, and the conversion between natural numbers and their
    decimal spelling. */
module Text {

  /** Python's `str.startswith`: case-sensitive, no trimming. */
  predicate StartsWith(s: string, prefix: string) {
    |prefix| <= |s| && s[..|prefix|] == prefix
  }

  /** The `\d` class of the patterns, restricted to ASCII digits. */
  predicate IsDigit(c: char) {
    '0' <= c <= '9'
  }

  predicate AllDigits(s: string) {
    forall i :: 0 <= i < |s| ==> IsDigit(s[i])
  }

  function DigitValue(c: char): (d: nat)
    requires IsDigit(c)
    ensures d < 10
  {
    c as int - '0' as int
  }

  function DigitChar(d: nat): (c: char)
    requires d < 10
    ensures IsDigit(c) && DigitValue(c) == d
  {
    ('0' as int + d) as char
  }

  /** End of the maximal run of digits starting at `j` (a greedy `\d*`). */
  function DigitRunEnd(s: string, j: nat): (k: nat)
    requires j <= |s|
    ensures j <= k <= |s|
    ensures AllDigits(s[j..k])
    ensures k == |s| || !IsDigit(s[k])
    decreases |s| - j
  {
    if j < |s| && IsDigit(s[j]) then
      var k := DigitRunEnd(s, j + 1);
      assert s[j..k] == [s[j]] + s[j + 1..k];
      k
    else j
  }

  /** Any position that closes a run of digits begun at `j` is the end of the maximal run. */
  lemma DigitRunEndUnique(s: string, j: nat, k: nat)
    requires j <= k <= |s|
    requires AllDigits(s[j..k])
    requires k == |s| || !IsDigit(s[k])
    ensures DigitRunEnd(s, j) == k
  {
  }

  /** The value of a string of decimal digits, most significant first. */
  function DigitsValue(ds: string): nat
    requires AllDigits(ds)
  {
    if |ds| == 0 then 0 else DigitsValue(ds[..|ds| - 1]) * 10 + DigitValue(ds[|ds| - 1])
  }

  /** Python's `str(n)` for a natural number: no sign, no leading zeros. */
  function NatToString(n: nat): (r: string)
    ensures |r| >= 1 && AllDigits(r)
    ensures (r[0] == '0') == (n == 0)
    ensures DigitsValue(r) == n
  {
    if n < 10 then [DigitChar(n)]
    else
      var prefix := NatToString(n / 10);
      var r := prefix + [DigitChar(n % 10)];
      assert r[..|r| - 1] == prefix;
      r
  }
}
