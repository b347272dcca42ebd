/** Field extraction: the `re.search` of a lettered numeric field such as
    `X(-?\d+\.\d+)` (the mill rewriter) or `Z(-?\d+)` (the Z correction).
    The two passes use two different literal grammars; both are modelled
    here, selected by `Grammar`. */
module Fields {
  import opened Text

  datatype Option<+T> = None | Some(value: T)

  /** `FractionRequired` is `\d+\.\d+`; `IntegerOnly` is `\d+`. */
  datatype Grammar = FractionRequired | IntegerOnly

  /** The captured group of a match: an optional minus sign, the digits
      before the point and, for `FractionRequired`, the digits after it. */
  datatype Literal = Literal(negative: bool, whole: string, fraction: string)

  /** A match of the pattern starting at a position of the line. */
  datatype Match = Match(pos: nat, lit: Literal)

  /** The text of the captured group. */
  function Spelling(lit: Literal, g: Grammar): string {
    (if lit.negative then "-" else "") + lit.whole
    + (if g == FractionRequired then "." + lit.fraction else "")
  }

  /** The literals the grammar can capture; `signed` says whether the
      pattern carries the optional `-`. */
  predicate WellFormed(lit: Literal, g: Grammar, signed: bool) {
    && (lit.negative ==> signed)
    && |lit.whole| >= 1 && AllDigits(lit.whole)
    && (g == FractionRequired ==> |lit.fraction| >= 1 && AllDigits(lit.fraction))
    && (g == IntegerOnly ==> lit.fraction == "")
  }

  /** Position just after the captured group of `lit` when the letter is at `i`. */
  function GroupEnd(i: nat, g: Grammar, lit: Literal): nat {
    i + 1 + |Spelling(lit, g)|
  }

  /** Declarative reading of the pattern: the letter at `i`, then the
      pieces of a well-formed literal (sign, digits, and for
      `FractionRequired` a point and more digits), and no further digit,
      since the last `\d+` is greedy. */
  predicate Spells(line: string, i: nat, letter: char, signed: bool, g: Grammar, lit: Literal) {
    var j := i + 1 + (if lit.negative then 1 else 0);
    var k := j + |lit.whole|;
    var e := GroupEnd(i, g, lit);
    && WellFormed(lit, g, signed)
    && e <= |line|
    && line[i] == letter
    && (lit.negative ==> line[i + 1] == '-')
    && line[j..k] == lit.whole
    && (g == FractionRequired ==> line[k] == '.' && line[k + 1..e] == lit.fraction)
    && (e == |line| || !IsDigit(line[e]))
  }

  /** The matcher: does the pattern match starting exactly at `i`, and
      what does it capture? */
  function LiteralAt(line: string, i: nat, letter: char, signed: bool, g: Grammar): Option<Literal> {
    if i >= |line| || line[i] != letter then None
    else
      var negative := signed && i + 1 < |line| && line[i + 1] == '-';
      var j := if negative then i + 2 else i + 1;
      var k := DigitRunEnd(line, j);
      if k == j then None
      else match g
        case IntegerOnly => Some(Literal(negative, line[j..k], ""))
        case FractionRequired =>
          if k < |line| && line[k] == '.' then
            var m := DigitRunEnd(line, k + 1);
            if m == k + 1 then None else Some(Literal(negative, line[j..k], line[k + 1..m]))
          else None
  }

  /** Soundness of the matcher: what it captures at `i` is spelled there. */
  lemma MatchSpells(line: string, i: nat, letter: char, signed: bool, g: Grammar, lit: Literal)
    requires LiteralAt(line, i, letter, signed, g) == Some(lit)
    ensures Spells(line, i, letter, signed, g, lit)
  {
  }

  /** Completeness of the matcher: a literal spelled at `i` is what it captures there. */
  lemma SpellsMatch(line: string, i: nat, letter: char, signed: bool, g: Grammar, lit: Literal)
    requires Spells(line, i, letter, signed, g, lit)
    ensures LiteralAt(line, i, letter, signed, g) == Some(lit)
  {
    SignRead(line, i, letter, signed, g, lit);
    var j := i + 1 + (if lit.negative then 1 else 0);
    var k := j + |lit.whole|;
    DigitRunEndUnique(line, j, k);
    if g == FractionRequired {
      var e := GroupEnd(i, g, lit);
      DigitRunEndUnique(line, k + 1, e);
      FractionMatch(line, i, letter, signed, lit, j, k, e);
    } else {
      IntegerMatch(line, i, letter, signed, lit, j, k);
    }
  }

  /** The integer matcher at `i`, given where the sign and the digits end. */
  lemma IntegerMatch(line: string, i: nat, letter: char, signed: bool, lit: Literal, j: nat, k: nat)
    requires i < |line| && line[i] == letter
    requires (signed && i + 1 < |line| && line[i + 1] == '-') == lit.negative
    requires j == (if lit.negative then i + 2 else i + 1)
    requires j < k <= |line| && DigitRunEnd(line, j) == k
    requires line[j..k] == lit.whole && lit.fraction == ""
    ensures LiteralAt(line, i, letter, signed, IntegerOnly) == Some(lit)
  {
  }

  /** The fraction-required matcher at `i`, given where the sign, the
      whole digits and the fraction digits end. */
  lemma FractionMatch(line: string, i: nat, letter: char, signed: bool, lit: Literal, j: nat, k: nat, e: nat)
    requires i < |line| && line[i] == letter
    requires (signed && i + 1 < |line| && line[i + 1] == '-') == lit.negative
    requires j == (if lit.negative then i + 2 else i + 1)
    requires j < k < |line| && DigitRunEnd(line, j) == k && line[k] == '.'
    requires k + 1 < e <= |line| && DigitRunEnd(line, k + 1) == e
    requires line[j..k] == lit.whole && line[k + 1..e] == lit.fraction
    ensures LiteralAt(line, i, letter, signed, FractionRequired) == Some(lit)
  {
  }

  /** The matcher takes the minus sign exactly when the spelled literal has one. */
  lemma SignRead(line: string, i: nat, letter: char, signed: bool, g: Grammar, lit: Literal)
    requires Spells(line, i, letter, signed, g, lit)
    ensures (signed && i + 1 < |line| && line[i + 1] == '-') == lit.negative
  {
    var j := i + 1 + (if lit.negative then 1 else 0);
    var k := j + |lit.whole|;
    if !lit.negative {
      assert line[j..k][0] == line[i + 1];
      assert IsDigit(lit.whole[0]);
    }
  }

  /** The matcher captures exactly the literals the pattern spells. */
  lemma LiteralAtIffSpells(line: string, i: nat, letter: char, signed: bool, g: Grammar, lit: Literal)
    ensures LiteralAt(line, i, letter, signed, g) == Some(lit) <==> Spells(line, i, letter, signed, g, lit)
  {
    if LiteralAt(line, i, letter, signed, g) == Some(lit) {
      MatchSpells(line, i, letter, signed, g, lit);
    }
    if Spells(line, i, letter, signed, g, lit) {
      SpellsMatch(line, i, letter, signed, g, lit);
    }
  }

  /** `re.search`: the leftmost position at or after `from` where the
      pattern matches, with its capture. */
  function SearchFrom(line: string, from: nat, letter: char, signed: bool, g: Grammar): (r: Option<Match>)
    requires from <= |line|
    ensures r.None? ==> forall i :: from <= i < |line| ==> LiteralAt(line, i, letter, signed, g).None?
    ensures r.Some? ==>
      && from <= r.value.pos < |line|
      && LiteralAt(line, r.value.pos, letter, signed, g) == Some(r.value.lit)
      && forall i :: from <= i < r.value.pos ==> LiteralAt(line, i, letter, signed, g).None?
    decreases |line| - from
  {
    if from == |line| then None
    else match LiteralAt(line, from, letter, signed, g)
      case Some(lit) => Some(Match(from, lit))
      case None => SearchFrom(line, from + 1, letter, signed, g)
  }

  /** The capture of the leftmost match, or `None` when the field is absent. */
  function Field(line: string, letter: char, signed: bool, g: Grammar): (r: Option<Literal>)
    ensures r.Some? ==> WellFormed(r.value, g, signed)
  {
    match SearchFrom(line, 0, letter, signed, g)
    case None => None
    case Some(m) =>
      MatchSpells(line, m.pos, letter, signed, g, m.lit);
      Some(m.lit)
  }

  /** Every character of `s` differs from `c`. */
  predicate NoChar(s: string, c: char) {
    forall t :: 0 <= t < |s| ==> s[t] != c
  }

  lemma NoCharConcat(a: string, b: string, c: char)
    requires NoChar(a, c) && NoChar(b, c)
    ensures NoChar(a + b, c)
  {
    forall t | 0 <= t < |a + b|
      ensures (a + b)[t] != c
    {
      if t >= |a| {
        assert (a + b)[t] == b[t - |a|];
      }
    }
  }

  /** A literal spelled right after its letter, in the middle of a line
      and followed by something other than a digit, is spelled there in
      the sense of `Spells`. */
  lemma SpellsInContext(before: string, letter: char, signed: bool, g: Grammar, lit: Literal, after: string)
    requires WellFormed(lit, g, signed)
    requires |after| > 0 ==> !IsDigit(after[0])
    ensures Spells(before + [letter] + Spelling(lit, g) + after, |before|, letter, signed, g, lit)
  {
    var signText: string := if lit.negative then "-" else "";
    var tail: string := if g == FractionRequired then "." + lit.fraction else "";
    var line := before + [letter] + Spelling(lit, g) + after;
    assert line == (before + [letter] + signText) + lit.whole + (tail + after);
    var i := |before|;
    var j := i + 1 + |signText|;
    var k := j + |lit.whole|;
    assert line[j..k] == lit.whole;
    if g == FractionRequired {
      assert line == (before + [letter] + signText + lit.whole + ".") + lit.fraction + after;
      assert line[k + 1..GroupEnd(i, g, lit)] == lit.fraction;
    }
    if GroupEnd(i, g, lit) < |line| {
      assert line[GroupEnd(i, g, lit)] == after[0];
    }
  }

  /** A field whose letter occurs nowhere in the line is absent. */
  lemma FieldAbsent(line: string, letter: char, signed: bool, g: Grammar)
    requires forall i :: 0 <= i < |line| ==> line[i] != letter
    ensures Field(line, letter, signed, g) == None
  {
  }

  /** When the first occurrence of the letter spells a literal, that literal is the field. */
  lemma FieldAtFirstLetter(line: string, p: nat, letter: char, signed: bool, g: Grammar, lit: Literal)
    requires Spells(line, p, letter, signed, g, lit)
    requires forall i :: 0 <= i < p ==> line[i] != letter
    ensures Field(line, letter, signed, g) == Some(lit)
  {
    SpellsMatch(line, p, letter, signed, g, lit);
  }

  /** Where the letter first occurs and spells a literal followed by
      something other than a digit, that literal is the field. */
  lemma FieldAfter(before: string, letter: char, signed: bool, g: Grammar, lit: Literal, after: string)
    requires WellFormed(lit, g, signed)
    requires NoChar(before, letter)
    requires |after| > 0 && !IsDigit(after[0])
    ensures Field(before + [letter] + Spelling(lit, g) + after, letter, signed, g) == Some(lit)
  {
    SpellsInContext(before, letter, signed, g, lit, after);
    FieldAtFirstLetter(before + [letter] + Spelling(lit, g) + after, |before|, letter, signed, g, lit);
  }

  /** A field needs a match somewhere: where the pattern matches at no position, it is absent. */
  lemma FieldNone(line: string, letter: char, signed: bool, g: Grammar)
    requires forall i :: 0 <= i < |line| ==> LiteralAt(line, i, letter, signed, g).None?
    ensures Field(line, letter, signed, g) == None
  {
  }

  /** The fraction-required grammar ignores a whole number: a letter
      followed by digits and then neither a digit nor a point, where the
      letter occurs nowhere else, gives no field (`X10` is not an X). */
  lemma WholeNumberIsNoField(before: string, letter: char, signed: bool, digits: string, after: string)
    requires NoChar(before, letter) && NoChar(after, letter) && !IsDigit(letter)
    requires |digits| >= 1 && AllDigits(digits)
    requires |after| > 0 && !IsDigit(after[0]) && after[0] != '.'
    ensures Field(before + [letter] + digits + after, letter, false, FractionRequired) == None
    ensures Field(before + [letter] + digits + after, letter, true, FractionRequired) == None
  {
    var line := before + [letter] + digits + after;
    var p := |before|;
    var k := p + 1 + |digits|;
    assert line[p + 1..k] == digits;
    assert line[k] == after[0];
    DigitRunEndUnique(line, p + 1, k);
    assert line[p + 1] == digits[0];
    forall i | 0 <= i < |line| && i != p
      ensures line[i] != letter
    {
      if i < p {
        assert line[i] == before[i];
      } else if i < k {
        assert line[i] == digits[i - p - 1];
      } else {
        assert line[i] == after[i - k];
      }
    }
    FieldNone(line, letter, false, FractionRequired);
    FieldNone(line, letter, true, FractionRequired);
  }
}
