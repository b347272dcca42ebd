/** The driver shared by both passes: read the input as lines, feed them
    one by one to a step function over an explicit state, and write every
    chunk the step returns. A step may halt the run; the chunks written for
    earlier lines stay written. */
module Pipeline {

  /** What one line does: halt the run, or write some chunks and move to a new state. */
  datatype StepResult<S> = Halt | Emit(chunks: seq<string>, next: S)

  /** What a run does: consume every line, or halt at line `at` after
      writing `written`. */
  datatype RunResult<S> = Done(written: seq<string>, final: S) | Halted(written: seq<string>, at: nat)

  /** The file text produced by a sequence of writes. A chunk without a
      trailing newline runs into the next one. */
  function Concat(chunks: seq<string>): string {
    if |chunks| == 0 then "" else chunks[0] + Concat(chunks[1..])
  }

  lemma {:induction false} ConcatAppend(a: seq<string>, b: seq<string>)
    ensures Concat(a + b) == Concat(a) + Concat(b)
    decreases |a|
  {
    if |a| == 0 {
      assert a + b == b;
    } else {
      assert (a + b)[0] == a[0];
      assert (a + b)[1..] == a[1..] + b;
      ConcatAppend(a[1..], b);
    }
  }

  /** A line as `readlines` yields it: non-empty, with no newline except possibly the last character. */
  predicate IsLine(l: string) {
    |l| > 0 && forall m :: 0 <= m < |l| - 1 ==> l[m] != '\n'
  }

  predicate EndsWithNewline(l: string) {
    |l| > 0 && l[|l| - 1] == '\n'
  }

  /** Position just after the first newline at or after `i`, or the end of the text. */
  function LineEnd(t: string, i: nat): (k: nat)
    requires i < |t|
    ensures i < k <= |t|
    ensures forall m :: i <= m < k - 1 ==> t[m] != '\n'
    ensures k < |t| ==> t[k - 1] == '\n'
    decreases |t| - i
  {
    if t[i] == '\n' || i + 1 == |t| then i + 1 else LineEnd(t, i + 1)
  }

  /** Python's `readlines`: the text cut after every newline. */
  function SplitLines(text: string): (lines: seq<string>)
    ensures Concat(lines) == text
    ensures forall n :: 0 <= n < |lines| ==> IsLine(lines[n])
    ensures forall n :: 0 <= n < |lines| - 1 ==> EndsWithNewline(lines[n])
    decreases |text|
  {
    if |text| == 0 then []
    else
      var k := LineEnd(text, 0);
      var rest := SplitLines(text[k..]);
      assert text == text[..k] + text[k..];
      [text[..k]] + rest
  }

  /** The three properties above determine the split: any cutting of the
      text into lines of that shape is the one `SplitLines` makes. */
  lemma {:induction false} SplitLinesUnique(text: string, lines: seq<string>)
    requires Concat(lines) == text
    requires forall n :: 0 <= n < |lines| ==> IsLine(lines[n])
    requires forall n :: 0 <= n < |lines| - 1 ==> EndsWithNewline(lines[n])
    ensures SplitLines(text) == lines
    decreases |lines|
  {
    if |lines| > 0 {
      var first := lines[0];
      assert text == first + Concat(lines[1..]);
      var k := LineEnd(text, 0);
      if |lines| == 1 {
        assert Concat(lines[1..]) == "";
        assert text == first;
        assert k == |text|;
      } else {
        assert EndsWithNewline(first);
        assert text[|first| - 1] == '\n';
        assert forall m :: 0 <= m < |first| - 1 ==> text[m] != '\n' by {
          forall m | 0 <= m < |first| - 1
            ensures text[m] != '\n'
          {
            assert text[m] == first[m];
          }
        }
        assert k == |first|;
        assert text[..k] == first;
        assert text[k..] == Concat(lines[1..]);
        forall n | 0 <= n < |lines[1..]|
          ensures IsLine(lines[1..][n])
        {
          assert lines[1..][n] == lines[n + 1];
        }
        forall n | 0 <= n < |lines[1..]| - 1
          ensures EndsWithNewline(lines[1..][n])
        {
          assert lines[1..][n] == lines[n + 1];
        }
        SplitLinesUnique(text[k..], lines[1..]);
        assert lines == [first] + lines[1..];
      }
    }
  }

  /** The driver: a left-to-right fold of `step` over the lines. */
  function Run<S>(step: (S, string) -> StepResult<S>, s: S, lines: seq<string>): (r: RunResult<S>)
    ensures r.Halted? ==> r.at < |lines|
    decreases |lines|
  {
    if |lines| == 0 then Done([], s)
    else match step(s, lines[0])
      case Halt => Halted([], 0)
      case Emit(chunks, next) =>
        match Run(step, next, lines[1..])
        case Done(w, f) => Done(chunks + w, f)
        case Halted(w, k) => Halted(chunks + w, k + 1)
  }

  /** A run over one line is that line's step. */
  lemma RunOne<S>(step: (S, string) -> StepResult<S>, s: S, line: string)
    ensures Run(step, s, [line]) ==
      match step(s, line)
      case Halt => Halted([], 0)
      case Emit(chunks, next) => Done(chunks, next)
  {
    assert [line][1..] == [];
    match step(s, line)
    case Halt =>
    case Emit(chunks, next) =>
      assert chunks + [] == chunks;
  }

  /** Continue a run over `first` with the lines `rest`, whose numbering starts at `offset`. */
  function Then<S>(first: RunResult<S>, step: (S, string) -> StepResult<S>, rest: seq<string>, offset: nat): RunResult<S> {
    match first
    case Halted(w, k) => Halted(w, k)
    case Done(w, f) =>
      match Run(step, f, rest)
      case Done(w2, f2) => Done(w + w2, f2)
      case Halted(w2, k) => Halted(w + w2, offset + k)
  }

  /** Running over two consecutive pieces of input is running over the
      first and continuing from its final state over the second. */
  lemma {:induction false} RunAppend<S>(step: (S, string) -> StepResult<S>, s: S, a: seq<string>, b: seq<string>)
    ensures Run(step, s, a + b) == Then(Run(step, s, a), step, b, |a|)
    decreases |a|
  {
    if |a| == 0 {
      assert a + b == b;
    } else {
      assert (a + b)[0] == a[0];
      assert (a + b)[1..] == a[1..] + b;
      match step(s, a[0])
      case Halt =>
      case Emit(chunks, next) =>
        RunAppend(step, next, a[1..], b);
    }
  }

  /** A halt keeps exactly what the earlier lines wrote: the lines before
      the halting one run to completion with that output, and the step
      halts on the next line from the state they reached. */
  lemma {:induction false} HaltKeepsEarlierOutput<S>(step: (S, string) -> StepResult<S>, s: S, lines: seq<string>)
    requires Run(step, s, lines).Halted?
    ensures
      var r := Run(step, s, lines);
      var before := Run(step, s, lines[..r.at]);
      && before.Done?
      && before.written == r.written
      && step(before.final, lines[r.at]).Halt?
    decreases |lines|
  {
    var r := Run(step, s, lines);
    match step(s, lines[0])
    case Halt =>
      assert r.at == 0;
    case Emit(chunks, next) =>
      HaltKeepsEarlierOutput(step, next, lines[1..]);
      var r' := Run(step, next, lines[1..]);
      assert r.at == r'.at + 1;
      assert lines[..r.at][0] == lines[0];
      assert lines[..r.at][1..] == lines[1..][..r'.at];
      assert lines[r.at] == lines[1..][r'.at];
  }

  /** When every line passes through unchanged and leaves the state
      alone, the run writes the input back line by line. */
  lemma {:induction false} RunIdentity<S>(step: (S, string) -> StepResult<S>, s: S, lines: seq<string>)
    requires forall n :: 0 <= n < |lines| ==> step(s, lines[n]) == Emit([lines[n]], s)
    ensures Run(step, s, lines) == Done(lines, s)
    decreases |lines|
  {
    if |lines| > 0 {
      assert step(s, lines[0]) == Emit([lines[0]], s);
      forall n | 0 <= n < |lines[1..]|
        ensures step(s, lines[1..][n]) == Emit([lines[1..][n]], s)
      {
        assert lines[1..][n] == lines[n + 1];
      }
      RunIdentity(step, s, lines[1..]);
      assert lines == [lines[0]] + lines[1..];
    }
  }

  /** Whole-file form of the identity: the output text equals the input text. */
  lemma PassThroughText<S>(step: (S, string) -> StepResult<S>, s: S, text: string)
    requires forall n :: 0 <= n < |SplitLines(text)| ==> step(s, SplitLines(text)[n]) == Emit([SplitLines(text)[n]], s)
    ensures Run(step, s, SplitLines(text)).Done?
    ensures Concat(Run(step, s, SplitLines(text)).written) == text
  {
    RunIdentity(step, s, SplitLines(text));
  }

  /** Three steps that each write their line, the last after some inserted chunks. */
  lemma RunThree<S>(step: (S, string) -> StepResult<S>, s0: S, s1: S, s2: S, s3: S,
                    l1: string, l2: string, l3: string, inserted: seq<string>)
    requires step(s0, l1) == Emit([l1], s1)
    requires step(s1, l2) == Emit([l2], s2)
    requires step(s2, l3) == Emit(inserted + [l3], s3)
    ensures Run(step, s0, [l1, l2, l3]) == Done([l1, l2] + inserted + [l3], s3)
  {
    var lines := [l1, l2, l3];
    assert lines[1..] == [l2, l3];
    assert lines[1..][1..] == [l3];
    RunOne(step, s2, l3);
    assert Run(step, s1, [l2, l3]) == Done([l2] + (inserted + [l3]), s3);
    assert [l1] + ([l2] + (inserted + [l3])) == [l1, l2] + inserted + [l3];
  }
}
