/** The laser-to-mill rewriter: each line of a laser G-code program is
    classified by its command prefix; `G1` moves have their fields
    extracted and are passed through, rewritten or dropped, and `G0`
    rapid moves are wrapped in a lift to the clearance height and a return
    to the current cutting depth. */
module Millburn {
  import opened Text
  import opened Fields
  import opened Fixed2
  import opened Pipeline

  /** Clearance height `ZClearance = 3` (mm), in hundredths. */
  const ClearanceHundredths: nat := 300

  /** The run state that the output depends on: the depth of the last
      `G1 Z` move and the last feed rate read from an `F` field. */
  datatype MillState = MillState(currentZ: Number, feedRate: Number)

  /** Both start at `0.0`. */
  const Zero: Number := Literal(false, "0", "0")
  const MillStart := MillState(Zero, Zero)

  /** The branch a line takes; prefixes are checked in this order. */
  datatype LineKind = LinearMove | HeaderLine | RapidMove | OtherLine

  function Classify(line: string): LineKind {
    if StartsWith(line, "G1") then LinearMove
    else if StartsWith(line, "G00") then HeaderLine
    else if StartsWith(line, "G0") then RapidMove
    else OtherLine
  }

  /** A field of a `G1` line: the letter followed by `digits.digits`;
      the axes `X`, `Y`, `Z` may carry a minus sign, `S` and `F` may not. */
  function G1Field(line: string, letter: char): (r: Option<Literal>)
    ensures r.Some? ==> AllDigits(r.value.whole) && AllDigits(r.value.fraction)
  {
    Field(line, letter, letter in "XYZ", FractionRequired)
  }

  /** The move written for a `G1` line with X, Y and F and neither Z nor S. */
  function FeedMoveLine(x: Number, y: Number, f: Number): string {
    MoveText(Fmt2(x), Fmt2(y), Fmt2(f))
  }

  /** The three writes around a rapid move. */
  function RapidWrap(currentZ: Number, line: string): seq<string> {
    ["G0 Z" + FormatHundredths(ClearanceHundredths) + "\n", line, "G0 Z" + Fmt2(currentZ) + "\n"]
  }

  /** One line of the rewriter. A `G1` line with an `S` field halts the
      run: the power text always holds a point, and converting it with
      `int` raises before anything is written for the line. */
  function MillStep(s: MillState, line: string): (r: StepResult<MillState>)
    // Lines that are neither G1 nor rapid moves (including every G00 line) pass through untouched.
    ensures !StartsWith(line, "G1") && (!StartsWith(line, "G0") || StartsWith(line, "G00")) ==>
      r == Emit([line], s)
    // A G0 line that is not G00 is wrapped in a lift to 3.00 and a return to the current depth.
    ensures StartsWith(line, "G0") && !StartsWith(line, "G00") ==>
      r == Emit(["G0 Z3.00\n", line, "G0 Z" + Fmt2(s.currentZ) + "\n"], s)
    // A G1 line halts exactly when it carries an S field.
    ensures StartsWith(line, "G1") ==> (r.Halt? <==> G1Field(line, 'S').Some?)
    ensures StartsWith(line, "G1") && r.Emit? ==>
      var x := G1Field(line, 'X');
      var y := G1Field(line, 'Y');
      var z := G1Field(line, 'Z');
      var f := G1Field(line, 'F');
      // F sets the feed rate, Z sets the current depth, nothing else changes.
      && r.next.feedRate == (if f.Some? then f.value else s.feedRate)
      && r.next.currentZ == (if z.Some? then z.value else s.currentZ)
      // Nothing at all is written when no axis is given.
      && (r.chunks == [] <==> x.None? && y.None? && z.None?)
      // X and Y with F and no Z: a rewritten move that keeps only those three fields.
      && (x.Some? && y.Some? && z.None? && f.Some? ==>
            r.chunks == ["G1 X" + Fmt2(x.value) + " Y" + Fmt2(y.value) + " F" + Fmt2(f.value) + "\n"])
      // Every other G1 line that writes anything writes itself.
      && (!(x.Some? && y.Some? && z.None? && f.Some?) && r.chunks != [] ==> r.chunks == [line])
  {
    match Classify(line)
    case OtherLine => Emit([line], s)
    case HeaderLine => Emit([line], s)
    case RapidMove =>
      assert FormatHundredths(ClearanceHundredths) == "3.00";
      assert "G0 Z" + "3.00" + "\n" == "G0 Z3.00\n";
      Emit(RapidWrap(s.currentZ, line), s)
    case LinearMove =>
      var x := G1Field(line, 'X');
      var y := G1Field(line, 'Y');
      var z := G1Field(line, 'Z');
      var power := G1Field(line, 'S');
      var feed := G1Field(line, 'F');
      if power.Some? then Halt
      else
        var s1 := if feed.Some? then s.(feedRate := feed.value) else s;
        if x.Some? && y.Some? && z.None? then
          if feed.Some? then Emit([FeedMoveLine(x.value, y.value, feed.value)], s1)
          else Emit([line], s1)
        else if x.Some? && y.None? && z.None? then Emit([line], s1)
        else if x.None? && y.Some? && z.None? then Emit([line], s1)
        else if z.Some? then Emit([line], s1.(currentZ := z.value))
        else Emit([], s1)
  }

  /** The whole rewriter over the lines of the input file. */
  function MillRun(lines: seq<string>): RunResult<MillState> {
    Run(MillStep, MillStart, lines)
  }

  /** The number written for a captured number, as a captured number. */
  function Reread(n: Number): Number {
    FixedLiteral(n.negative, Hundredths(n))
  }

  /** What `Fmt2` writes is numeric text spelling the reread number,
      which formats back to the same text. */
  lemma WrittenNumber(n: Number)
    ensures NumericText(Fmt2(n))
    ensures Fmt2(n) == Spelling(Reread(n), FractionRequired)
    ensures WellFormed(Reread(n), FractionRequired, n.negative)
    ensures Fmt2(Reread(n)) == Fmt2(n)
  {
    FixedLiteralRoundTrip(n.negative, Hundredths(n));
    FixedTextChars(n.negative, Hundredths(n));
    Fmt2Idempotent(n);
  }

  lemma NumericTextNoLetter(t: string, letter: char)
    requires NumericText(t) && !NumericChar(letter)
    ensures NoChar(t, letter)
  {
  }

  /** The text of the rewritten move, for any three numeric texts. */
  function MoveText(a: string, b: string, c: string): string {
    "G1 X" + a + " Y" + b + " F" + c + "\n"
  }

  lemma MoveTextX(a: string, b: string, c: string, x: Literal)
    requires WellFormed(x, FractionRequired, true) && a == Spelling(x, FractionRequired)
    ensures G1Field(MoveText(a, b, c), 'X') == Some(x)
  {
    assert MoveText(a, b, c) == "G1 " + ['X'] + a + (" Y" + b + " F" + c + "\n");
    FieldAfter("G1 ", 'X', true, FractionRequired, x, " Y" + b + " F" + c + "\n");
  }

  lemma MoveTextY(a: string, b: string, c: string, y: Literal)
    requires WellFormed(y, FractionRequired, true) && b == Spelling(y, FractionRequired)
    requires NumericText(a)
    ensures G1Field(MoveText(a, b, c), 'Y') == Some(y)
  {
    NumericTextNoLetter(a, 'Y');
    NoCharConcat("G1 X", a, 'Y');
    NoCharConcat("G1 X" + a, " ", 'Y');
    assert MoveText(a, b, c) == ("G1 X" + a + " ") + ['Y'] + b + (" F" + c + "\n");
    FieldAfter("G1 X" + a + " ", 'Y', true, FractionRequired, y, " F" + c + "\n");
  }

  lemma MoveTextF(a: string, b: string, c: string, f: Literal)
    requires WellFormed(f, FractionRequired, false) && c == Spelling(f, FractionRequired)
    requires NumericText(a) && NumericText(b)
    ensures G1Field(MoveText(a, b, c), 'F') == Some(f)
  {
    NumericTextNoLetter(a, 'F');
    NumericTextNoLetter(b, 'F');
    NoCharConcat("G1 X", a, 'F');
    NoCharConcat("G1 X" + a, " Y", 'F');
    NoCharConcat("G1 X" + a + " Y", b, 'F');
    NoCharConcat("G1 X" + a + " Y" + b, " ", 'F');
    assert MoveText(a, b, c) == ("G1 X" + a + " Y" + b + " ") + ['F'] + c + "\n";
    FieldAfter("G1 X" + a + " Y" + b + " ", 'F', false, FractionRequired, f, "\n");
  }

  lemma MoveTextLacks(a: string, b: string, c: string, letter: char)
    requires NumericText(a) && NumericText(b) && NumericText(c)
    requires letter !in "G1 XYF\n" && !NumericChar(letter)
    ensures NoChar(MoveText(a, b, c), letter)
  {
    NumericTextNoLetter(a, letter);
    NumericTextNoLetter(b, letter);
    NumericTextNoLetter(c, letter);
    NoCharConcat("G1 X", a, letter);
    NoCharConcat("G1 X" + a, " Y", letter);
    NoCharConcat("G1 X" + a + " Y", b, letter);
    NoCharConcat("G1 X" + a + " Y" + b, " F", letter);
    NoCharConcat("G1 X" + a + " Y" + b + " F", c, letter);
    NoCharConcat("G1 X" + a + " Y" + b + " F" + c, "\n", letter);
  }

  /** The rewriter on a line shaped like the rewritten move whose
      numbers are already in written form. */
  lemma StepOnMoveText(s: MillState, a: string, b: string, c: string, x: Number, y: Number, f: Number)
    requires G1Field(MoveText(a, b, c), 'X') == Some(x) && Fmt2(x) == a
    requires G1Field(MoveText(a, b, c), 'Y') == Some(y) && Fmt2(y) == b
    requires G1Field(MoveText(a, b, c), 'F') == Some(f) && Fmt2(f) == c
    requires G1Field(MoveText(a, b, c), 'Z') == None
    requires G1Field(MoveText(a, b, c), 'S') == None
    ensures MillStep(s, MoveText(a, b, c)) == Emit([MoveText(a, b, c)], s.(feedRate := f))
  {
    assert StartsWith(MoveText(a, b, c), "G1");
  }

  /** The rewritten move is a fixed point of the rewriter: fed back in,
      from any state, it is written unchanged and only takes its feed rate. */
  lemma FeedMoveIsFixpoint(s: MillState, x: Number, y: Number, f: Number)
    requires !f.negative
    ensures
      var w := FeedMoveLine(x, y, f);
      MillStep(s, w) == Emit([w], s.(feedRate := Reread(f)))
  {
    WrittenNumber(x);
    WrittenNumber(y);
    WrittenNumber(f);
    MoveTextFields(Fmt2(x), Fmt2(y), Fmt2(f), Reread(x), Reread(y), Reread(f));
    StepOnMoveText(s, Fmt2(x), Fmt2(y), Fmt2(f), Reread(x), Reread(y), Reread(f));
  }

  /** The fields of the rewritten move are the literals its numbers spell. */
  lemma MoveTextFields(a: string, b: string, c: string, x: Literal, y: Literal, f: Literal)
    requires WellFormed(x, FractionRequired, true) && a == Spelling(x, FractionRequired) && NumericText(a)
    requires WellFormed(y, FractionRequired, true) && b == Spelling(y, FractionRequired) && NumericText(b)
    requires WellFormed(f, FractionRequired, false) && c == Spelling(f, FractionRequired) && NumericText(c)
    ensures G1Field(MoveText(a, b, c), 'X') == Some(x)
    ensures G1Field(MoveText(a, b, c), 'Y') == Some(y)
    ensures G1Field(MoveText(a, b, c), 'F') == Some(f)
    ensures G1Field(MoveText(a, b, c), 'Z') == None
    ensures G1Field(MoveText(a, b, c), 'S') == None
  {
    MoveTextX(a, b, c, x);
    MoveTextY(a, b, c, y);
    MoveTextF(a, b, c, f);
    MoveTextLacks(a, b, c, 'Z');
    MoveTextLacks(a, b, c, 'S');
    FieldAbsent(MoveText(a, b, c), 'Z', true, FractionRequired);
    FieldAbsent(MoveText(a, b, c), 'S', false, FractionRequired);
  }

  /** A `G1` line that gives a Z field. */
  predicate SetsDepth(line: string) {
    StartsWith(line, "G1") && G1Field(line, 'Z').Some?
  }

  /** Reference definition of the current depth: the Z of the last line
      that gives one, or `z0` when no line does. */
  function LastZ(lines: seq<string>, z0: Number): Number {
    if |lines| == 0 then z0
    else
      var last := lines[|lines| - 1];
      if SetsDepth(last) then G1Field(last, 'Z').value else LastZ(lines[..|lines| - 1], z0)
  }

  /** The depth the rewriter tracks is the Z of the last `G1` line that
      gave one. */
  lemma {:induction false} CurrentZIsLastZ(s: MillState, lines: seq<string>)
    requires Run(MillStep, s, lines).Done?
    ensures Run(MillStep, s, lines).final.currentZ == LastZ(lines, s.currentZ)
    decreases |lines|
  {
    if |lines| > 0 {
      var init, last := lines[..|lines| - 1], lines[|lines| - 1];
      assert lines == init + [last];
      RunAppend(MillStep, s, init, [last]);
      var first := Run(MillStep, s, init);
      assert first.Done?;
      CurrentZIsLastZ(s, init);
      RunOne(MillStep, first.final, last);
    }
  }

  /** A rapid move after any run of lines is wrapped with a return to the
      Z of the last `G1` line that gave one (0.00 when none did). */
  lemma RapidMoveReturnsToLastZ(lines: seq<string>, rapid: string)
    requires MillRun(lines).Done?
    requires StartsWith(rapid, "G0") && !StartsWith(rapid, "G00")
    ensures MillRun(lines + [rapid])
      == Done(MillRun(lines).written + ["G0 Z3.00\n", rapid, "G0 Z" + Fmt2(LastZ(lines, Zero)) + "\n"],
              MillRun(lines).final)
  {
    RunAppend(MillStep, MillStart, lines, [rapid]);
    CurrentZIsLastZ(MillStart, lines);
    RunOne(MillStep, MillRun(lines).final, rapid);
  }

  /** A `G1` line with a power field ends the run: nothing is written for
      it or for any later line, and everything written before stays. */
  lemma PowerLineHaltsRun(lines: seq<string>, power: string, rest: seq<string>)
    requires MillRun(lines).Done?
    requires StartsWith(power, "G1") && G1Field(power, 'S').Some?
    ensures MillRun(lines + [power] + rest) == Halted(MillRun(lines).written, |lines|)
  {
    RunAppend(MillStep, MillStart, lines, [power] + rest);
    assert lines + [power] + rest == lines + ([power] + rest);
    assert ([power] + rest)[0] == power;
  }

  /** A file none of whose lines is a `G1` line or a rapid move comes out
      byte for byte as it went in. */
  lemma PassThroughFile(text: string)
    requires forall n :: 0 <= n < |SplitLines(text)| ==>
      !StartsWith(SplitLines(text)[n], "G1")
      && (!StartsWith(SplitLines(text)[n], "G0") || StartsWith(SplitLines(text)[n], "G00"))
    ensures MillRun(SplitLines(text)).Done?
    ensures Concat(MillRun(SplitLines(text)).written) == text
  {
    PassThroughText(MillStep, MillStart, text);
  }
}
