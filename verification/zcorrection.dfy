/** The Z-direction correction pass: it follows the Z coordinate of every
    `G0`/`G1` line that names one and, right before a move that reverses
    the Z direction, inserts a 0.01 mm move in the new direction and a
    five-second dwell. All other lines are copied. */
module ZCorrection {
  import opened Text
  import opened Fields
  import opened Fixed2
  import opened Pipeline

  /** The run state. `direction` is 0 until the first Z move and +1 or -1
      after it; `error` is the sum of the inserted offsets, in hundredths
      of a mm; `moveCount` counts the inserted corrections. */
  datatype ZState = ZState(firstMove: bool, currentZ: int, direction: int, error: int, moveCount: nat)

  const ZStart := ZState(true, 0, 0, 0, 0)

  /** The dwell written after every correction move. */
  const Dwell := "G4 P5.0\n"

  /** Lines the pass looks at: those starting with `G0` or `G1` (which
      covers `G00` and `G01`). */
  predicate IsMotion(line: string) {
    StartsWith(line, "G0") || StartsWith(line, "G1")
  }

  /** The leftmost `Z(-?\d+)` capture: digits after the point are never
      part of it, so `Z-5.5` reads as -5. */
  function ZField(line: string): (r: Option<Literal>)
    ensures r.Some? ==> WellFormed(r.value, IntegerOnly, true)
  {
    Field(line, 'Z', true, IntegerOnly)
  }

  /** The value of an integer capture. */
  function IntValue(lit: Literal): int
    requires AllDigits(lit.whole)
  {
    var magnitude: int := DigitsValue(lit.whole);
    if lit.negative then -magnitude else magnitude
  }

  /** The correction move: `current_z` plus the offset, to two places, at
      feed 10, with the space the source leaves before the newline. */
  function CorrectionLine(currentZ: int, offset: int): string {
    "G1 Z" + FormatHundredths(100 * currentZ + offset) + " F10 \n"
  }

  /** A move to `z` reverses the direction in force. */
  predicate Reverses(s: ZState, z: int) {
    (z - s.currentZ) * s.direction < 0
  }

  /** One line of the pass. A motion line that contains a `Z` but no
      `Z(-?\d+)` match halts the run before it is written. */
  function ZStep(s: ZState, line: string): (r: StepResult<ZState>)
    // Lines that are not motion lines, or have no Z, are copied and change nothing.
    ensures !IsMotion(line) || 'Z' !in line ==> r == Emit([line], s)
    // A motion line with a Z halts exactly when the Z has no integer after it.
    ensures IsMotion(line) && 'Z' in line ==> (r.Halt? <==> ZField(line).None?)
    // The line itself is always the last write, after zero or two inserted lines.
    ensures r.Emit? ==> (|r.chunks| == 1 || |r.chunks| == 3) && r.chunks[|r.chunks| - 1] == line
    ensures r.Emit? && IsMotion(line) && 'Z' in line ==>
      var z := IntValue(ZField(line).value);
      && r.next.currentZ == z
      && !r.next.firstMove
      // The first Z move sets the direction from the sign of z, inserting nothing.
      && (s.firstMove ==>
            r.chunks == [line] && r.next.direction == (if z > 0 then 1 else -1)
            && r.next.error == s.error && r.next.moveCount == 0)
      // Later moves insert exactly on a reversal, which flips the direction and
      // inserts a step of 0.01 toward z from the old depth, then the dwell.
      && (!s.firstMove ==>
            (|r.chunks| == 3 <==> Reverses(s, z))
            && (Reverses(s, z) ==>
                  var offset := if z > s.currentZ then 1 else -1;
                  && r.chunks[..2] == [CorrectionLine(s.currentZ, offset), "G4 P5.0\n"]
                  && r.next.direction == -s.direction
                  && r.next.error == s.error + offset
                  && r.next.moveCount == s.moveCount + 1)
            && (!Reverses(s, z) ==>
                  r.next.direction == s.direction && r.next.error == s.error && r.next.moveCount == s.moveCount))
  {
    if !IsMotion(line) || 'Z' !in line then Emit([line], s)
    else match ZField(line)
      case None => Halt
      case Some(lit) =>
        var z := IntValue(lit);
        if s.firstMove then
          Emit([line], s.(firstMove := false, direction := if z > 0 then 1 else -1, currentZ := z, moveCount := 0))
        else if Reverses(s, z) then
          var offset := if z > s.currentZ then 1 else -1;
          Emit([CorrectionLine(s.currentZ, offset), Dwell, line],
               s.(direction := -s.direction, currentZ := z, error := s.error + offset, moveCount := s.moveCount + 1))
        else
          Emit([line], s.(currentZ := z))
  }

  /** The whole pass over the lines of the input file. */
  function ZRun(lines: seq<string>): RunResult<ZState> {
    Run(ZStep, ZStart, lines)
  }

  /** The direction the first Z move sets. */
  function InitialDirection(z: int): int {
    if z > 0 then 1 else -1
  }

  /** The states the pass can reach. Before the first Z move everything
      is at its initial value; after it the direction is +1 or -1, and the
      offsets inserted so far cancel in pairs: the error is 0 after an
      even number of corrections and equals the direction after an odd
      number. */
  predicate Consistent(s: ZState) {
    if s.firstMove then s.currentZ == 0 && s.direction == 0 && s.error == 0 && s.moveCount == 0
    else
      && (s.direction == 1 || s.direction == -1)
      && s.error == (if s.moveCount % 2 == 0 then 0 else s.direction)
  }

  /** Every step keeps the state consistent and writes the line plus two
      lines per counted correction. Past the first Z move, each inserted
      offset points in the new direction, and `2 * error - direction`
      never changes; the first Z move sets it to minus the initial direction. */
  lemma ZStepConsistent(s: ZState, line: string)
    requires Consistent(s)
    requires ZStep(s, line).Emit?
    ensures var r := ZStep(s, line);
      && Consistent(r.next)
      && r.next.moveCount >= s.moveCount
      && |r.chunks| == 1 + 2 * (r.next.moveCount - s.moveCount)
      && (|r.chunks| == 3 ==> r.chunks[0] == CorrectionLine(s.currentZ, r.next.direction))
      && (!s.firstMove ==> !r.next.firstMove && 2 * r.next.error - r.next.direction == 2 * s.error - s.direction)
      && (s.firstMove && r.next.firstMove ==> r.next == s && !(IsMotion(line) && 'Z' in line))
      && (s.firstMove && !r.next.firstMove ==>
            IsMotion(line) && 'Z' in line
            && 2 * r.next.error - r.next.direction == -InitialDirection(IntValue(ZField(line).value)))
  {
    if IsMotion(line) && 'Z' in line {
      var z := IntValue(ZField(line).value);
      if !s.firstMove {
        if Reverses(s, z) {
          ReversalOffset(s, z);
          ParityFlip(s.moveCount);
        }
      }
    }
  }

  /** On a reversal the step toward z is the direction after it. */
  lemma ReversalOffset(s: ZState, z: int)
    requires s.direction == 1 || s.direction == -1
    requires Reverses(s, z)
    ensures (if z > s.currentZ then 1 else -1) == -s.direction
  {
    if s.direction == 1 {
      assert z - s.currentZ < 0;
    } else {
      assert z - s.currentZ > 0;
    }
  }

  lemma ParityFlip(n: nat)
    ensures ((n + 1) % 2 == 0) == (n % 2 == 1)
  {
  }

  /** The value of the first Z move of the input, if any. */
  function FirstZ(lines: seq<string>): Option<int> {
    if |lines| == 0 then None
    else if IsMotion(lines[0]) && 'Z' in lines[0] && ZField(lines[0]).Some? then
      Some(IntValue(ZField(lines[0]).value))
    else FirstZ(lines[1..])
  }

  lemma {:induction false} ZRunFrom(s: ZState, lines: seq<string>)
    requires Consistent(s)
    requires Run(ZStep, s, lines).Done?
    ensures var f := Run(ZStep, s, lines).final;
      && Consistent(f)
      && f.moveCount >= s.moveCount
      && |Run(ZStep, s, lines).written| == |lines| + 2 * (f.moveCount - s.moveCount)
      && (!s.firstMove ==> !f.firstMove && 2 * f.error - f.direction == 2 * s.error - s.direction)
      && (s.firstMove ==> (f.firstMove <==> FirstZ(lines).None?))
      && (s.firstMove && !f.firstMove ==> 2 * f.error - f.direction == -InitialDirection(FirstZ(lines).value))
    decreases |lines|
  {
    if |lines| > 0 {
      var r := ZStep(s, lines[0]);
      ZStepConsistent(s, lines[0]);
      ZRunFrom(r.next, lines[1..]);
    }
  }

  /** What a completed pass has done: the state is consistent, every input
      line was written with two extra lines per counted correction, and
      the error is half the distance between the final and the first
      direction, so it is always -0.01, 0 or 0.01. Without any Z move
      nothing was counted and nothing inserted. */
  lemma ZRunAccounting(lines: seq<string>)
    requires ZRun(lines).Done?
    ensures var f := ZRun(lines).final;
      && Consistent(f)
      && |ZRun(lines).written| == |lines| + 2 * f.moveCount
      && -1 <= f.error <= 1
      && (FirstZ(lines).None? ==> f == ZStart)
      && (FirstZ(lines).Some? ==> 2 * f.error == f.direction - InitialDirection(FirstZ(lines).value))
  {
    ZRunFrom(ZStart, lines);
  }

  /** A file in which no motion line names a Z comes out byte for byte
      as it went in. */
  lemma ZPassThroughFile(text: string)
    requires forall n :: 0 <= n < |SplitLines(text)| ==>
      !IsMotion(SplitLines(text)[n]) || 'Z' !in SplitLines(text)[n]
    ensures ZRun(SplitLines(text)).Done?
    ensures Concat(ZRun(SplitLines(text)).written) == text
  {
    PassThroughText(ZStep, ZStart, text);
  }

  /** A motion line with a `Z` that is not followed by an integer ends the
      pass: nothing is written for it or any later line, and everything
      written before stays. */
  lemma MalformedZHaltsRun(lines: seq<string>, bad: string, rest: seq<string>)
    requires ZRun(lines).Done?
    requires IsMotion(bad) && 'Z' in bad && ZField(bad).None?
    ensures ZRun(lines + [bad] + rest) == Halted(ZRun(lines).written, |lines|)
  {
    RunAppend(ZStep, ZStart, lines, [bad] + rest);
    assert lines + [bad] + rest == lines + ([bad] + rest);
    assert ([bad] + rest)[0] == bad;
  }

  /** A plain `G1 Z<n>` line is a Z move to its integer. */
  lemma PlainZMove(lit: Literal, line: string)
    requires WellFormed(lit, IntegerOnly, true)
    requires line == "G1 Z" + Spelling(lit, IntegerOnly) + "\n"
    ensures IsMotion(line) && 'Z' in line && ZField(line) == Some(lit)
  {
    assert line == "G1 " + ['Z'] + Spelling(lit, IntegerOnly) + "\n";
    assert line[..2] == "G1";
    assert line[3] == 'Z';
    FieldAfter("G1 ", 'Z', true, IntegerOnly, lit, "\n");
  }

  /** Digits after a point are not part of the Z: `Z-5.5` moves to -5. */
  lemma FractionalZTruncates()
    ensures ZField("G0 Z-5.5\n") == Some(Literal(true, "5", ""))
    ensures IntValue(Literal(true, "5", "")) == -5
  {
    assert "G0 Z-5.5\n" == "G0 " + ['Z'] + Spelling(Literal(true, "5", ""), IntegerOnly) + ".5\n";
    FieldAfter("G0 ", 'Z', true, IntegerOnly, Literal(true, "5", ""), ".5\n");
  }

  /** Down to 5, down to 10, back up to 2: the reversal at the third move
      inserts a step of -0.01 from depth 10 (written `Z9.99`) and the dwell,
      and leaves one counted correction with error -0.01. */
  lemma ReversalExample(lines: seq<string>)
    requires lines == ["G1 Z5\n", "G1 Z10\n", "G1 Z2\n"]
    ensures ZRun(lines)
      == Done(["G1 Z5\n", "G1 Z10\n", "G1 Z9.99 F10 \n", "G4 P5.0\n", "G1 Z2\n"], ZState(false, 2, -1, -1, 1))
  {
    var s1 := ZState(false, 5, 1, 0, 0);
    var s2 := ZState(false, 10, 1, 0, 0);
    var s3 := ZState(false, 2, -1, -1, 1);
    ExampleFirstMove(lines[0]);
    ExampleDeeper(lines[1]);
    ExampleUp(lines[2]);
    var inserted := ["G1 Z9.99 F10 \n", "G4 P5.0\n"];
    RunThree(ZStep, ZStart, s1, s2, s3, lines[0], lines[1], lines[2], inserted);
    assert lines == [lines[0], lines[1], lines[2]];
    ExampleOutput(lines[0], lines[1], lines[2], inserted);
  }

  lemma ExampleFirstMove(l1: string)
    requires l1 == "G1 Z5\n"
    ensures ZStep(ZStart, l1) == Emit([l1], ZState(false, 5, 1, 0, 0))
  {
    PlainZMove(Literal(false, "5", ""), l1);
  }

  lemma ExampleDeeper(l2: string)
    requires l2 == "G1 Z10\n"
    ensures ZStep(ZState(false, 5, 1, 0, 0), l2) == Emit([l2], ZState(false, 10, 1, 0, 0))
  {
    var ten := Literal(false, "10", "");
    PlainZMove(ten, l2);
    TenValue(ten);
  }

  lemma ExampleUp(l3: string)
    requires l3 == "G1 Z2\n"
    ensures ZStep(ZState(false, 10, 1, 0, 0), l3) == Emit(["G1 Z9.99 F10 \n", "G4 P5.0\n"] + [l3], ZState(false, 2, -1, -1, 1))
  {
    PlainZMove(Literal(false, "2", ""), l3);
    ExampleCorrection();
    var r := ZStep(ZState(false, 10, 1, 0, 0), l3);
    assert r.chunks == r.chunks[..2] + [r.chunks[2]];
  }

  lemma ExampleOutput(l1: string, l2: string, l3: string, inserted: seq<string>)
    requires l1 == "G1 Z5\n" && l2 == "G1 Z10\n" && l3 == "G1 Z2\n"
    requires inserted == ["G1 Z9.99 F10 \n", "G4 P5.0\n"]
    ensures [l1, l2] + inserted + [l3] == ["G1 Z5\n", "G1 Z10\n", "G1 Z9.99 F10 \n", "G4 P5.0\n", "G1 Z2\n"]
  {
  }

  lemma TenValue(lit: Literal)
    requires lit == Literal(false, "10", "")
    ensures IntValue(lit) == 10
  {
    assert lit.whole[..1] == "1";
    assert DigitsValue(lit.whole) == DigitsValue("1") * 10 + DigitValue('0');
  }

  lemma ExampleCorrection()
    ensures CorrectionLine(10, -1) == "G1 Z9.99 F10 \n"
  {
    assert FormatHundredths(999) == "9.99";
  }
}
