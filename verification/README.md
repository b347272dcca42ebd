# millburn G-code rewriters in Dafny

This project models the two line-by-line G-code rewriters of millburn.

- **The laser-to-mill rewriter** (`millburn.py`) classifies every line of a LightBurn laser program by its command prefix.
  - `G1` moves have their `X`, `Y`, `Z`, `S` and `F` fields extracted with `re.search`. The move is then passed through, rewritten to `G1 X.. Y.. F..`, or dropped.
  - `G00` header lines are copied.
  - Other `G0` rapid moves are wrapped in a lift to the clearance height (`ZClearance = 3`) and a return to the current cutting depth.
- **The Z-direction correction pass** (`postProcessZBug.py`) follows the integer Z of every `G0`/`G1` line that names one. Right before a move that reverses the Z direction, it inserts a 0.01 mm move and a five-second dwell.

Both passes are a step function over a small state record. The step is folded over the lines of the input file (`Pipeline.Run`). A step either writes some chunks and moves to a new state, or halts the run. A halt keeps everything written for earlier lines. Output is the sequence of written chunks, and the output file is their concatenation.

Modules:

- `Text`: prefix tests, ASCII digits, and natural numbers to and from decimal text.
- `Fields`: the two regex grammars `L(-?\d+\.\d+)` and `Z(-?\d+)`, and leftmost search.
- `Fixed2`: `'{:.2f}'` formatting, computed exactly in hundredths.
- `Pipeline`: `readlines`, the driver, and its run algebra.
- `Millburn`: the laser-to-mill rewriter.
- `ZCorrection`: the Z correction pass.

Behaviour reproduced as the code has it:

- **S-field halt.** Every `G1` line with an `S` field halts the run: `int("800.00")` raises at `millburn.py:76` before anything is written for the line. So the power-substitution outputs are never reached.
- **No axis, no output.** A `G1` line with none of `X`, `Y`, `Z` writes nothing.
- **`G1` and `G0` prefix quirks.** `G10`/`G17` lines count as `G1` lines, and `G01`/`G04` lines are wrapped as rapid moves.
- **Fractional Z is cut off.** In the Z pass, `Z-5.5` moves to -5.
- **Direction of the inserted step.** The step points toward the new move. For the moves `Z5`, `Z10`, `Z2` the code inserts `G1 Z9.99 F10 ` and the cumulative error becomes -0.01. This agrees with the source's own comments, which place the extra move "in the desired direction" (`postProcessZBug.py:34`) and "same as the existing direction-switching move" (`postProcessZBug.py:96-97`). `ZCorrection.ReversalExample` proves the code's output.

## Model

| member | source | states |
|---|---|---|
| Text.DigitRunEnd | millburn.py:52 | the greedy `\d+` run starting at a position: every character up to the end is a digit and the next one is not |
| Text.DigitRunEndUnique | millburn.py:52 | any position that closes a run of digits is the end of the greedy run, so the capture is determined by the text |
| Text.NatToString | millburn.py:109 | the integer part written by `'{:.2f}'`: at least one digit, a leading zero only for 0, and its decimal value is the number |
| Fields.LiteralAtIffSpells | millburn.py:52-87 | the matcher at a position captures exactly the literal the pattern spells there: letter, optional minus for X/Y/Z, digits, and for the fractional grammar a point and more digits, not followed by a digit |
| Fields.SearchFrom | millburn.py:52 | `re.search` finds the leftmost match: none exists when it returns none, and every earlier position fails when it returns one |
| Fields.FieldAtFirstLetter | postProcessZBug.py:106 | a literal spelled at the first occurrence of the letter is the captured field |
| Fields.WholeNumberIsNoField | millburn.py:52-64 | a whole number such as `X10` is not a field under the fractional grammar, so the axis counts as absent |
| Fixed2.FixedLiteralRoundTrip | millburn.py:109 | the text `'{:.2f}'` writes for a value in hundredths spells a fractional literal that reads back as the same sign and hundredths |
| Fixed2.Fmt2Idempotent | millburn.py:109 | formatting a number, reading the text back and formatting again gives the same text |
| Pipeline.SplitLines | millburn.py:24-25 | `readlines` cuts the text into non-empty lines that concatenate back to the text, each ending at its only newline except possibly the last |
| Pipeline.SplitLinesUnique | millburn.py:24-25 | those three properties determine the cut: any such list of lines is the one `readlines` yields |
| Pipeline.Run | millburn.py:47 | a halted run stops at one of the input lines |
| Pipeline.RunAppend | postProcessZBug.py:99-166 | running over two pieces of input is running over the first and continuing from its final state over the second |
| Pipeline.HaltKeepsEarlierOutput | postProcessZBug.py:158-161 | a halted run has written exactly what the earlier lines wrote, and its step halts on the next line from the state they reached |
| Pipeline.RunIdentity | millburn.py:168-169 | when every line is copied and leaves the state alone, the run writes the input back line by line |
| Millburn.MillStep | millburn.py:47-170 | copying of non-`G1` lines other than rapid moves; the three-write clearance wrap of `G0` lines; the halt on an `S` field; feed and depth updates; no output without an axis; the rewritten move for X, Y and F without Z; the line itself otherwise |
| Millburn.FeedMoveIsFixpoint | millburn.py:101-110 | the rewritten move, fed back in, is written unchanged from any state and only takes its feed rate |
| Millburn.CurrentZIsLastZ | millburn.py:123-128 | the depth the rewriter tracks is the Z of the last `G1` line that gave one, by an independent definition over the input |
| Millburn.RapidMoveReturnsToLastZ | millburn.py:161-164 | a rapid move after any completed run writes `G0 Z3.00`, itself, and `G0 Z` with the last `G1` depth (0.00 when none) |
| Millburn.PowerLineHaltsRun | millburn.py:74-76 | a `G1` line with an S field ends the run at its index, keeping exactly what the earlier lines wrote |
| Millburn.PassThroughFile | millburn.py:158-170 | a file with no `G1` line and no rapid move comes out as it went in |
| ZCorrection.ZStep | postProcessZBug.py:99-166 | lines that are not motion lines or have no Z are copied with the state unchanged; a Z without an integer halts; the line is always the last write after zero or two inserted lines; the first move sets the direction from the sign of z; a later move inserts exactly on a reversal, with the step toward z from the old depth and the dwell, flipping the direction and counting it |
| ZCorrection.ZStepConsistent | postProcessZBug.py:117-152 | every step keeps the direction at +1 or -1 after the first move, writes two extra lines per counted correction, inserts a step in the new direction, and keeps `2 * error - direction` constant |
| ZCorrection.ZRunFrom | postProcessZBug.py:99-157 | over any input from a consistent state, the final state is consistent, writes equal lines plus twice the new corrections, and the first Z move fixes `2 * error - direction` at minus its direction |
| ZCorrection.ZRunAccounting | postProcessZBug.py:82-90 | after a completed pass the move count is the number of inserted pairs, the cumulative error is -0.01, 0 or 0.01 and equals half the final minus the first direction, and a file without Z moves leaves the start state |
| ZCorrection.ZPassThroughFile | postProcessZBug.py:162-166 | a file in which no motion line names a Z comes out as it went in |
| ZCorrection.MalformedZHaltsRun | postProcessZBug.py:158-161 | a motion line with a Z but no integer after it ends the pass at its index, keeping exactly the earlier output |
| ZCorrection.FractionalZTruncates | postProcessZBug.py:106-112 | `Z-5.5` is read as the move to -5 |
| ZCorrection.ReversalExample | postProcessZBug.py:129-154 | the moves Z5, Z10, Z2 write `G1 Z9.99 F10 ` and `G4 P5.0` before the third move and end with direction -1, error -0.01 and one counted correction |

## Left out

- Command-line handling, file opening, reading and writing, and every `print` diagnostic (`millburn.py:13-29`, `postProcessZBug.py:63-74,92,126,155-168`). The input is the file text as a string, and the output is the list of writes.
- `validateSettings.py` is not part of this model: it talks to a serial port and shares no data with the rewriters.
- `mappings.py` is not modelled as a file. `ZClearance = 3` is inlined as `Millburn.ClearanceHundredths`. `defaultSpindleSpeed` is only used after the `int` conversion that always raises, so it never reaches the output.
- `OutputPower` is not part of the rewriter's state. It is assigned only after the conversion that raises, so it is never written.
- The string-literal blocks in `millburn.py` (lines 129-157 and 172-224) are not executed by Python and are not modelled.
- `\d` is modelled as the ASCII digits; Python's `re` on `str` also accepts other Unicode decimal digits.
- Universal-newline translation of `\r\n` and `\r` when reading is not modelled. Lines are cut at `\n` only.
- Fixed2.Fmt2: exact for literals with at most two fractional digits, which covers everything the rewriter itself writes. With more digits it rounds the decimal text half to even, whereas Python rounds the nearest binary double, so the two can differ: `2.675` is written `2.68` here and `2.67` by Python. Magnitudes beyond double precision are formatted exactly.
- ZCorrection.CorrectionLine: computes `current_z ± 0.01` exactly in hundredths. Python adds binary doubles, which agrees for every integer z of ordinary size but not for magnitudes near the limit of double precision.
- ZCorrection.ZStep: the halt for a Z without an integer covers both outcomes of `postProcessZBug.py:159-161`. The code either prints a stale `z` and exits, or raises `NameError` when no earlier move set `z`. In both cases nothing more is written.
- ZCorrection.ZStep: z is read as the exact integer of its digits, whereas `postProcessZBug.py:112` converts it with `float`. The depth stored by every Z move (`postProcessZBug.py:123,137,140`), and with it the reversal test (`postProcessZBug.py:129`) and the corrected depth, therefore differ from Python once |z| reaches 2^53. The first-move sign test at `postProcessZBug.py:118` agrees, since rounding to a double keeps the sign. For example, `Z9007199254740993` followed by `Z9007199254740992` reverses here, but Python rounds both to the same double and inserts nothing. A literal beyond double range, which Python reads as `inf` and writes as `G1 Zinf F10 `, is likewise not modelled.
- The end-of-run summary of the Z pass (final position, cumulative error, move count) is only printed. The values are in the final `ZState`.
