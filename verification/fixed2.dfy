/** Python's `'{:.2f}'.format(v)` for the values the two passes format,
    computed exactly in hundredths. */
module Fixed2 {
  import opened Text
  import opened Fields

  /** A captured literal whose digit strings are digits: what `float()` reads. */
  type Number = lit: Literal | AllDigits(lit.whole) && AllDigits(lit.fraction)
    witness Literal(false, "0", "0")

  /** The fractional digits `fraction` in hundredths: padded with zeros
      when there are fewer than two, rounded half to even on the digits
      beyond the second otherwise. The whole part contributes a multiple
      of 100, which is even, so the tie-break only looks at the fraction. */
  function FractionHundredths(fraction: string): (h: nat)
    requires AllDigits(fraction)
    ensures h <= 100
  {
    if |fraction| == 0 then 0
    else if |fraction| == 1 then 10 * DigitValue(fraction[0])
    else
      var q := 10 * DigitValue(fraction[0]) + DigitValue(fraction[1]);
      var rest := fraction[2..];
      var roundUp := |rest| > 0 && (rest[0] > '5' || (rest[0] == '5' && (!AllZeros(rest[1..]) || q % 2 == 1)));
      if roundUp then q + 1 else q
  }

  predicate AllZeros(s: string) {
    forall t :: 0 <= t < |s| ==> s[t] == '0'
  }

  /** The magnitude of a literal in hundredths. */
  function Hundredths(lit: Number): nat {
    DigitsValue(lit.whole) * 100 + FractionHundredths(lit.fraction)
  }

  /** Fixed-point text of a sign and a magnitude in hundredths: integer
      part without leading zeros, a point, exactly two digits. */
  function FixedText(negative: bool, h: nat): string {
    (if negative then "-" else "") + NatToString(h / 100) + "." + [DigitChar(h / 10 % 10), DigitChar(h % 10)]
  }

  /** `'{:.2f}'.format(float(text))` for a captured literal; the sign is
      kept even on a zero magnitude, as for Python's `-0.0`. */
  function Fmt2(lit: Number): string
  {
    FixedText(lit.negative, Hundredths(lit))
  }

  /** `'{:.2f}'.format(v)` for a value given exactly in hundredths. */
  function FormatHundredths(v: int): string {
    FixedText(v < 0, if v < 0 then -v else v)
  }

  /** The literal that `FixedText` spells. */
  function FixedLiteral(negative: bool, h: nat): (lit: Number)
    ensures WellFormed(lit, FractionRequired, negative)
  {
    Literal(negative, NatToString(h / 100), [DigitChar(h / 10 % 10), DigitChar(h % 10)])
  }

  /** Formatting round trip: the fixed-point text is the spelling of a
      literal of the fraction-required grammar, and reading that literal
      back gives the same sign and the same number of hundredths. */
  lemma FixedLiteralRoundTrip(negative: bool, h: nat)
    ensures FixedText(negative, h) == Spelling(FixedLiteral(negative, h), FractionRequired)
    ensures Hundredths(FixedLiteral(negative, h)) == h
  {
    var lit := FixedLiteral(negative, h);
    var two := lit.fraction;
    assert two[..1] == [two[0]];
    assert DigitsValue(two[..1]) == h / 10 % 10;
    assert DigitsValue(two) == (h / 10 % 10) * 10 + h % 10;
    assert (h / 100) * 100 + (h / 10 % 10) * 10 + h % 10 == h;
    assert DigitsValue(lit.whole) == h / 100;
  }

  /** Formatting is a fixed point: reading back the literal that `Fmt2`
      printed and formatting it again gives the same text. */
  lemma Fmt2Idempotent(lit: Number)
    ensures Fmt2(FixedLiteral(lit.negative, Hundredths(lit))) == Fmt2(lit)
  {
    FixedLiteralRoundTrip(lit.negative, Hundredths(lit));
  }

  /** Characters a fixed-point text can contain. */
  predicate NumericChar(c: char) {
    IsDigit(c) || c == '-' || c == '.'
  }

  predicate NumericText(t: string) {
    forall i :: 0 <= i < |t| ==> NumericChar(t[i])
  }

  lemma FixedTextChars(negative: bool, h: nat)
    ensures NumericText(FixedText(negative, h))
  {
    var s := FixedText(negative, h);
    var n := NatToString(h / 100);
    var sign: string := if negative then "-" else "";
    forall t | 0 <= t < |s|
      ensures NumericChar(s[t])
    {
      if t < |sign| {
      } else if t < |sign| + |n| {
        assert s[t] == n[t - |sign|];
      }
    }
  }
}
