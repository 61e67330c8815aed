# Advent of Code 2023 solutions, modelled in Dafny

This project models a Rust workspace of Advent of Code 2023 solutions. The
repository is one shared helper crate plus one small program per puzzle
day, each reading its input line by line. Every day follows the same
pipeline:

- `parse_line` folds each input line into a loaded state;
- `finalise_state` turns the loaded state into the processing input;
- `perform_processing` computes per-item results;
- `calc_result` combines those results into the answer.

The model states, in Dafny, what each stage computes and proves it.

The headline is the pulse-propagation network of day 20 (module `Day20`,
and `Day20b` for the second version). A `Network` class holds the module
map. `PushButton` drains a first-in first-out queue of pulses. Each pulse
is counted, and the receiver reacts:

- the broadcaster forwards the pulse;
- a flip-flop toggles on a low pulse;
- a conjunction remembers each sender's last level and sends Low exactly
  when all of them are High.

The model proves the following:

- each press equals a functional run (`Press`);
- the run is first-in first-out;
- every delivered pulse is counted;
- priming the conjunction memories is independent of order;
- part two finds the first qualifying press;
- the second version's answer is the least common multiple of the first
  press after which each watched input is High.

The second version also records inputs at flip-flops and the broadcaster.
It is proved to count exactly as the first.

The other modules, one per source file:

- `Processor`: the shared helper crate:
  - the delimiter tokeniser (`read_word`, `read_next`);
  - neighbour enumeration;
  - the row-major grid `Cells` (`get`, `set`, `swap`, `with_dimension`, the cell iterator);
  - the line-by-line grid builder `CellsBuilder`, whose `build_cells` pads short lines.

  `Cells` and `CellsBuilder` are classes whose methods update their fields
  in place, as the source's do.
- `Numbers`: integer parsing, hexadecimal digits, gcd and the least common
  multiple (in place of the `num` crate), and `str::trim` over ASCII
  whitespace.
- `Grids`: an immutable row-major grid used by the days whose source only
  reads its grid.
- `Wrappers`: `Option` and `Result`.
- `TestBin`: the two-operand calculator of `test-bin`.
- `Day1` … `Day25b`: one module per day. `Day5Ranges` and `Day19Ranges`
  hold the interval-splitting second parts of days 5 and 19.

Code that changes things step by step is modelled as methods with loop
invariants, proved against specification functions. Examples are queue
drains, in-place tilts and swaps, and memo tables. Pure code is modelled
as functions, with lemmas relating them to independent reference
definitions. Examples:

- the brute-force arrangement count of day 12 against the memoised search;
- the reachable-set recursion of day 21 against the set-swapping walk;
- the cheapest-route predicate of day 17 against the best-cost table search.

## Model

| member | source | states |
|---|---|---|
| Processor.ParseLinesAppend | processor/src/lib.rs:27-33 | the line fold applies `parse_line` to one more line exactly when it has not already failed |
| Processor.ParseLinesConcat | processor/src/lib.rs:27-33 | folding two runs of lines continues the second from where the first stopped, and an error stops the fold |
| Processor.Reverse | processor/src/lib.rs:43-46 | the characters in the opposite order: same length, character i is the (n-1-i)th |
| Processor.ReverseReverse | processor/src/lib.rs:43-46 | reversing twice gives back the string |
| Processor.ReadFrom | processor/src/lib.rs:54-75 | the loop state of `read_word`: None exactly when nothing was consumed and only delimiters remain; a word is non-empty, free of delimiters, and the input shrinks |
| Processor.NextWord | processor/src/lib.rs:50-76 | None exactly when only delimiters remain; otherwise a non-empty delimiter-free word, and strictly less is left to read |
| Processor.ReadWord | processor/src/lib.rs:50-76 | the character loop returns exactly the word, the delimiter that ended it and the unread rest that `NextWord` describes |
| Processor.Words | processor/src/lib.rs:50-76 | the words read until `read_word` returns None: each non-empty and delimiter-free; none exactly when the input is all delimiters |
| Processor.NextWordSkipsDelimiters | processor/src/lib.rs:62-64 | leading delimiters do not change the next word |
| Processor.ReadFromWord | processor/src/lib.rs:69 | non-delimiter characters join the word being read |
| Processor.NextWordSplits | processor/src/lib.rs:62-67 | a word followed by a delimiter reads back as that word, that delimiter and what follows |
| Processor.NextWordWhole | processor/src/lib.rs:57-59 | a word at the end of the input reads back whole with no delimiter |
| Processor.WordsOfJoin | processor/src/lib.rs:50-76 | words joined by a delimiter separator read back as the same words (the read/write round trip) |
| Processor.ReadNext | processor/src/lib.rs:79-95 | an error exactly when no word remains or the word does not parse; otherwise the parsed word, its delimiter and the rest |
| Processor.AdjacentCoords | processor/src/lib.rs:99-116 | at most one coordinate per delta, every one inside the side lengths |
| Processor.AdjacentCoordsFromDelta | processor/src/lib.rs:104-113 | every coordinate returned is the centre moved by one of the deltas |
| Processor.AdjacentCoordsFound | processor/src/lib.rs:104-115 | the centre moved by a delta is returned whenever it lands inside the sides |
| Processor.AdjacentDiagonal | processor/src/lib.rs:131-136 | exactly the in-bounds cells one step away in any of the eight directions, never the centre |
| Processor.DiagonalDeltasAreUnitMoves | processor/src/lib.rs:118-129 | each of the eight deltas is a unit move other than staying put |
| Processor.UnitMoveIsDiagonalDelta | processor/src/lib.rs:118-129 | every unit move other than staying put is one of the eight deltas |
| Processor.DiagonalCoordsSound | processor/src/lib.rs:131-136 | every diagonal neighbour is one step from the centre and not the centre |
| Processor.DiagonalCoordsComplete | processor/src/lib.rs:131-136 | every in-bounds cell one step from the centre is a diagonal neighbour |
| Processor.AdjacentCartesian | processor/src/lib.rs:141-146 | exactly the in-bounds cells one step up, down, left or right, never the centre |
| Processor.CartesianCoordsSound | processor/src/lib.rs:138-146 | every cartesian neighbour touches the centre and is not the centre |
| Processor.UnitStepIsCartesianDelta | processor/src/lib.rs:138-139 | every step up, down, left or right is one of the four deltas |
| Processor.CartesianCoordsComplete | processor/src/lib.rs:138-146 | every in-bounds cell touching the centre is a cartesian neighbour |
| Processor.RowMajorInRange | processor/src/lib.rs:169-171 | every in-bounds coordinate's index falls inside the contents |
| Processor.RowMajorInjective | processor/src/lib.rs:169-171 | coordinates inside the width with the same index are the same coordinate |
| Processor.RowMajorDecode | processor/src/lib.rs:169-171 | every index below the size is the index of the coordinate (i % width, i / width) |
| Processor.Swapped | processor/src/lib.rs:205-222 | the exchanged contents keep their length and their multiset of cells |
| Processor.SwappedAt | processor/src/lib.rs:218-220 | the two cells hold each other's values and every other cell is as it was |
| Processor.SwapKeepsOthers | processor/src/lib.rs:218-220 | exchanging two indexes leaves every other cell alone, and the whole grid when the coordinates coincide |
| Processor.Cells.WithDimension | processor/src/lib.rs:226-233 | a width by height grid with every cell holding the initial value |
| Processor.Cells.Get | processor/src/lib.rs:173-183 | Ok exactly inside the grid, with the cell at the row-major index |
| Processor.Cells.Set | processor/src/lib.rs:185-195 | writing through `get_mut`: the one cell changes and every other cell and the dimensions stay; out of bounds is an error and changes nothing |
| Processor.Cells.Swap | processor/src/lib.rs:205-222 | the two cells are exchanged and every other cell stays; either coordinate out of bounds is an error and changes nothing |
| Processor.Cells.Items | processor/src/lib.rs:197-203 | every cell once, in row-major order, with its in-bounds coordinate |
| Processor.Cells.ItemsCoverGrid | processor/src/lib.rs:197-203 | each in-bounds coordinate appears at its row-major index |
| Processor.CellsIter.Next | processor/src/lib.rs:245-259 | the item at the cursor, then the cursor moves on one cell (to the next row after the last column); None past the end, with the cursor left alone |
| Processor.PadLine | processor/src/lib.rs:348-354 | the line followed by the default up to the width |
| Processor.PaddedAt | processor/src/lib.rs:344-357 | the padded contents hold one full row per line, each cell the line's own or the default past the end of a short line |
| Processor.AppendPadded | processor/src/lib.rs:346-356 | one line of the fold appends the line padded to the width |
| Processor.CellsBuilder.NewEmpty | processor/src/lib.rs:283-288 | no lines and zero width |
| Processor.CellsBuilder.NewLine | processor/src/lib.rs:290-292 | appends an empty line and keeps the width |
| Processor.CellsBuilder.AddCell | processor/src/lib.rs:294-302 | appends to the last line and widens the maximum width to it; an error and no change before any line |
| Processor.CellsBuilder.Get | processor/src/lib.rs:304-313 | Ok exactly when the line exists and holds that cell |
| Processor.CellsBuilder.Set | processor/src/lib.rs:315-324 | writing through `get_mut` changes exactly that cell; a missing cell is an error and changes nothing |
| Processor.CellsBuilder.CurrentCell | processor/src/lib.rs:364-373 | the coordinate of the last cell of the last line; None when there is no line or it is empty |
| Processor.CellsBuilder.BuildCells | processor/src/lib.rs:326-362 | an error without lines or with zero width; otherwise a fresh max-width by line-count grid with each line padded with the default, and the builder's lines taken |
| Grids.Grid.Get | processor/src/lib.rs:173-183 | the cell at (x, y) exactly inside the grid, an error outside it |
| Grids.Grid.Coords | processor/src/lib.rs:197-203 | exactly the in-bounds coordinates |
| Grids.MaxWidth | processor/src/lib.rs:300 | the builder's maximum width: no line is wider and some line is that wide |
| Grids.Build | processor/src/lib.rs:326-362 | an error without lines or with zero width; otherwise a max-width by line-count grid with each line padded with the default |
| Grids.Tabulate | processor/src/lib.rs:290-302 | a grid of the given size whose every cell holds the value computed for its coordinate |
| Numbers.ParseUnsignedShowNat | processor/src/lib.rs:91 | parsing an unsigned integer inverts writing it, for every value up to the type's maximum |
| Numbers.ParseUnsignedRejectsMinus | processor/src/lib.rs:91 | an unsigned parse rejects a leading minus sign |
| Numbers.ParseSignedShowInt | test-bin/src/main.rs:43-45 | parsing a signed integer inverts writing it, for every value inside the type's range |
| Numbers.HexValue | day18/src/main.rs:221 | the value of n hex digits is below 16^n |
| Numbers.GcdDivides | day8/src/main.rs:227 | the gcd of two numbers, one of them positive, is positive and divides both |
| Numbers.LcmIsCommonMultiple | day8/src/main.rs:227 | the lcm of two positive numbers is a positive multiple of each |
| Numbers.Bezout | day8/src/main.rs:227 | the gcd is an integer combination of its two arguments |
| Numbers.LcmDividesCommonMultiple | day8/src/main.rs:227 | every common multiple of two positive numbers is a multiple of their lcm |
| Numbers.LcmAllIsCommonMultiple | day20b/src/main.rs:334 | the lcm folded from the left over positive numbers is a positive multiple of each |
| Numbers.LcmAllIsLeast | day20b/src/main.rs:334 | the folded lcm divides every common multiple, so no smaller positive number is a multiple of them all |
| Numbers.SumAppend | day9/src/main.rs:121 | the sum of two runs of values is the sum of their sums |
| Numbers.TrimStart | test-bin/src/main.rs:27 | a suffix of the line that starts with no whitespace, after only whitespace |
| Numbers.TrimEnd | test-bin/src/main.rs:27 | a prefix of the line that ends with no whitespace, before only whitespace |
| Numbers.TrimProperties | day5/src/main.rs:149 | the trimmed line is empty exactly when the line is all whitespace, trimming again changes nothing, and its ends are not whitespace |
| Day20.ParseLine | day20/src/main.rs:39-74 | a blank line leaves the state alone; "broadcaster" adds the broadcaster, "%x" an off flip-flop x, "&x" a conjunction x with empty memory, each with the rest of the line's words as outputs; any other head is an error |
| Day20.DeclarationWords | day20/src/main.rs:41-46 | a declaration line splits back into its head word and exactly its output names |
| Day20.ParseShowLine | day20/src/main.rs:39-74 | parsing a written-out declaration adds exactly the module it declares (the parse/show round trip) |
| Day20.Emit | day20/src/main.rs:145-156 | one pulse per output, from the sender, at the given level, in output order |
| Day20.DeliverChangesOnlyReceiver | day20/src/main.rs:137-185 | delivering a pulse changes only the receiving module and every pulse it sends comes from the receiver |
| Day20.SinkAbsorbs | day20/src/main.rs:137-140 | a pulse to a name with no module changes nothing and sends nothing |
| Day20.BroadcastForwards | day20/src/main.rs:143-148 | the broadcaster forwards the received level to each output in order |
| Day20.FlipFlopIgnoresHigh | day20/src/main.rs:149-158 | a flip-flop ignores a high pulse |
| Day20.FlipFlopTogglesOnLow | day20/src/main.rs:149-158 | on a low pulse a flip-flop toggles and sends High when now on, Low when now off |
| Day20.FlipFlopTwoLowsRestore | day20/src/main.rs:151-153 | two low pulses restore a flip-flop |
| Day20.ConjunctionRule | day20/src/main.rs:159-183 | a conjunction records the sender's level, then sends Low exactly when every remembered level is High |
| Day20.SameFoldMeansEqual | day20/src/main.rs:163-171 | the same-value fold gives Some(p) iff the accumulator and every later value are p |
| Day20.AllSameMeansEqual | day20/src/main.rs:163-171 | the fold seeded with the first value gives Some(p) iff the list is non-empty and all values are p |
| Day20.ConjunctionFoldAgrees | day20/src/main.rs:163-175 | in whatever order the memory is listed, the fold decides Low exactly when all remembered levels are High |
| Day20.MemoryAllSame | day20/src/main.rs:163-171 | the fold over a memory's values, iterated in an unspecified order, is Some(p) iff the memory is non-empty and every value is p |
| Day20.Send | day20/src/main.rs:145-147 | the queue afterwards is the old queue followed by one pulse per output |
| Day20.RunStep | day20/src/main.rs:126-186 | one loop turn delivers the head of the queue first and appends what it sends to the back |
| Day20.RunStops | day20/src/main.rs:126 | the loop stops once the queue is empty |
| Day20.RunIsFirstInFirstOut | day20/src/main.rs:120-126 | a finished run delivers the pulses it started with, in order, before anything they cause |
| Day20.PressStartsAtBroadcaster | day20/src/main.rs:121-124 | every press first delivers the button's low pulse to the broadcaster |
| Day20.CountsCoverTrace | day20/src/main.rs:128-135 | every delivered pulse is counted once, as low or as high |
| Day20.CountLevelAppend | day20/src/main.rs:128-135 | the per-level counts add up over consecutive stretches of a run |
| Day20.NotifiedMeansSome | day20/src/main.rs:136 | the notification flag is set iff some delivered pulse matched the watch |
| Day20.TraceStep | day20/src/main.rs:128-136 | one delivered pulse adds one to its level's count and ors its match into the flag |
| Day20.Network.DeliverPulse | day20/src/main.rs:137-185 | the network becomes the receiver's reaction and the pulses it sends join the back of the queue |
| Day20.Network.PushButton | day20/src/main.rs:111-190 | the new network, the low and high counts and the notification flag are those of a first-in first-out press from the button pulse |
| Day20.Network.PrimeInput | day20/src/main.rs:98-106 | a conjunction at the receiving end of one wire remembers Low from its sender; nothing else changes |
| Day20.Network.FinaliseState | day20/src/main.rs:87-109 | every conjunction is primed with Low from each module wired into it, over the collected wires |
| Day20.PrimeWithOneMore | day20/src/main.rs:96-107 | priming the wires one at a time, in any order, gives the priming of the whole set |
| Day20.PrimedMemory | day20/src/main.rs:87-109 | after priming no module is added, removed or changes kind, only conjunction memories change, and each holds Low from each of its senders |
| Day20.Network.PerformProcessing1 | day20/src/main.rs:194-204 | after 1000 presses the answer is the product of the summed low and high counts |
| Day20.PressesCountEveryPulse | day20/src/main.rs:198-202 | over finished presses the low and high totals together count every delivered pulse |
| Day20.Network.PerformProcessing2 | day20/src/main.rs:206-219 | presses until a press delivers a low pulse to "rx" and answers that press's number |
| Day20.FirstLowToTargetIsFirst | day20/src/main.rs:206-219 | the reported press delivers a low pulse to "rx" and no earlier press does |
| Day20.PressesFinishedBefore | day20/src/main.rs:206-219 | presses that all finished were preceded by presses that all finished |
| Day20.FirstLowToTargetComplete | day20/src/main.rs:206-219 | when press j, within the limit, delivers a low pulse to "rx" and it and every press before it finish, a press no later than j is reported; with `FirstLowToTargetIsFirst`, the answer is exactly the first such press |
| Day20b.ParseLine | day20b/src/main.rs:85-123 | as in the first version, each declared module starting with an empty input memory; other heads are errors and a blank line changes nothing |
| Day20b.ParseLineAgrees | day20b/src/main.rs:85-123 | both versions accept the same lines and read them into the same network once the input memories are forgotten |
| Day20b.DeliverRecordsInput | day20b/src/main.rs:209-253 | only the receiving module changes; it records the sender's level under the sender's name and keeps its outputs |
| Day20b.DeliverSendsSeen | day20b/src/main.rs:209-253 | a delivered pulse never causes a NotSeen pulse: NotSeen lives only in the memories |
| Day20b.Emit | day20b/src/main.rs:214-230 | one pulse per output, from the sender, at the given level, in output order |
| Day20b.MemoryAllSame | day20b/src/main.rs:237-243 | the fold over a memory's values, in an unspecified order, is Some(p) iff the memory is non-empty and every value is p |
| Day20b.Send | day20b/src/main.rs:214-216 | the queue afterwards is the old queue followed by one pulse per output |
| Day20b.RunStep | day20b/src/main.rs:194-254 | one loop turn delivers the head of the queue first and appends what it sends to the back |
| Day20b.RunStops | day20b/src/main.rs:194 | the loop stops once the queue is empty |
| Day20b.CountLevelAppend | day20b/src/main.rs:196-204 | the per-level counts add up over consecutive stretches of a run |
| Day20b.Network.DeliverPulse | day20b/src/main.rs:205-253 | the network becomes the receiver's reaction and its pulses join the back of the queue |
| Day20b.Network.PushButton | day20b/src/main.rs:183-258 | the new network and the low and high counts are those of a first-in first-out press from the button pulse |
| Day20b.DeliverAgrees | day20b/src/main.rs:209-253 | delivering a pulse and then forgetting the inputs equals delivering it in the first version |
| Day20b.QueueStepAgrees | day20b/src/main.rs:194-254 | one delivery keeps the queue free of NotSeen pulses and matches the first version's next queue |
| Day20b.RunAgrees | day20b/src/main.rs:183-258 | a whole run matches the first version's run pulse for pulse, with the same end state and finished flag |
| Day20b.CountLevelAgrees | day20b/src/main.rs:196-204 | the low and high counts equal the first version's over the lowered trace |
| Day20b.Network.PrimeInput | day20b/src/main.rs:155-178 | the receiving end of one wire records its sender: Low for a conjunction, NotSeen for a flip-flop or the broadcaster |
| Day20b.Network.FinaliseState | day20b/src/main.rs:143-181 | every wire is primed into the receiver's memory, over the collected wires |
| Day20b.PrimeWithOneMore | day20b/src/main.rs:153-179 | priming the wires one at a time, in any order, gives the priming of the whole set |
| Day20b.PrimedInputs | day20b/src/main.rs:143-181 | after priming no module is added or removed or changes kind, and each records every sender, conjunctions as Low and others as NotSeen |
| Day20b.PrimeAgrees | day20b/src/main.rs:143-181 | both versions prime the same conjunction memories |
| Day20b.EdgesAgree | day20b/src/main.rs:146-152 | both versions collect the same wires |
| Day20b.Network.PerformProcessing1 | day20b/src/main.rs:262-273 | after 1000 presses the answer is the product of the summed low and high counts |
| Day20b.PressesAgree | day20b/src/main.rs:262-273 | recording inputs changes nothing part one counts: the totals equal the first version's |
| Day20b.Observe | day20b/src/main.rs:301-324 | a watched name not yet recorded whose last remembered level is High gets the current press number; the others keep theirs |
| Day20b.Unwrapped | day20b/src/main.rs:330-333 | the recorded press numbers, each unwrapped from its Some |
| Day20b.Network.RecordHighs | day20b/src/main.rs:296-325 | Err exactly when a watched name not yet recorded is missing from the gate's memory, otherwise the observation above |
| Day20b.Network.PerformProcessing2 | day20b/src/main.rs:275-336 | the new network and the answer are those of pressing until every watched input has been High after some press, then folding their press numbers with lcm |
| Day20b.CadencesAreFirstHighs | day20b/src/main.rs:290-329 | each recorded number is the first press after which the gate remembers High from that input |
| Day20b.CadencesStep | day20b/src/main.rs:290-329 | one press that finishes and reads the gate records the newly High inputs and stops exactly when every input is recorded |
| Day20b.NextRecordedFirstHighs | day20b/src/main.rs:296-325 | after press k + 1 exactly the inputs whose first High press is at most k + 1 are recorded |
| Day20b.CadencesComplete | day20b/src/main.rs:290-329 | when every watched input has a first High press within the limit, those presses all finish and the gate's memory reads after each, the watch reports exactly those first High presses |
| Day20b.Part2AnswerIsCommonMultiple | day20b/src/main.rs:330-335 | the answer is a positive multiple of every recorded first-High press |
| Day20b.Part2AnswerIsLeast | day20b/src/main.rs:334 | the answer divides every positive common multiple of the recorded presses, so none smaller lines them all up |
| TestBin.ParseLine | test-bin/src/main.rs:23-34 | a blank line after trimming opens a new group; any other line joins the last group trimmed; the first line also opens the first group |
| TestBin.LoadGroups | test-bin/src/main.rs:23-34 | the loaded groups hold exactly the non-blank lines, trimmed and in order, with one more group than there are blank lines |
| TestBin.Evaluate | test-bin/src/main.rs:43-55 | Ok exactly when the group has three entries, both operands parse as i64 and the operator is "+" or "*"; then the sum or the product |
| TestBin.PerformProcessing | test-bin/src/main.rs:40-59 | one result per group in order when every group evaluates; otherwise the first failing group's error |
| TestBin.CalcResultAppend | test-bin/src/main.rs:61-63 | each further result adds to the summed answer |
| Day1.FirstDigit | day1/src/main.rs:43-47 | the position of a digit with no digit before it; None exactly when the line has no digit |
| Day1.LastDigit | day1/src/main.rs:43-49 | the position of a digit with no digit after it; None exactly when the line has no digit |
| Day1.ParseLine1 | day1/src/main.rs:40-59 | an error exactly when the line has no digit; otherwise appends ten times the first digit plus the last |
| Day1.SingleDigit | day1/src/main.rs:43-57 | a line with a single digit d reads as 11 * d |
| Day1.ReversedNamesAreReversed | day1/src/main.rs:64-66 | each backwards name is its forwards name spelt backwards |
| Day1.GetNumName | day1/src/main.rs:72-85 | each digit name reads as its position in the list counting from one |
| Day1.GetNumDigit | day1/src/main.rs:72-85 | each digit 1-9 reads as its value |
| Day1.GetNumOnlyDigits | day1/src/main.rs:72-85 | `get_num` accepts exactly the digits 1-9 and their names, each as a value from 1 to 9 |
| Day1.NameAt | day1/src/main.rs:61-66 | a name from the list starting at the position, or None when no listed name starts there |
| Day1.Leftmost | day1/src/main.rs:87 | the first position at which the alternation matches, with no match before it; None when nothing matches |
| Day1.MatchReversed | day1/src/main.rs:91-93 | matching the backwards alternation at position i of the reversed line finds exactly the digit or name that ends at \|line\| - i |
| Day1.FirstIsLeftmost | day1/src/main.rs:87-89 | the forward search finds a digit or name exactly when one starts somewhere, and none starts before it |
| Day1.SecondIsRightmost | day1/src/main.rs:91-94 | the backward search finds a digit or name exactly when one ends somewhere, reads it forwards, and none ends after it |
| Day1.FirstValueIsLeftmost | day1/src/main.rs:87-89 | the first value is the leftmost digit or digit name |
| Day1.SecondValueIsRightmost | day1/src/main.rs:91-94 | the second value is the digit or digit name that ends last |
| Day1.SearchesAgree | day1/src/main.rs:87-101 | the forward search succeeds exactly when the line holds a digit or name, and then so does the backward search |
| Day1.ParseLine2Combines | day1/src/main.rs:96-103 | when both searches succeed, ten times the first value plus the second is appended |
| Day1.ParseLine2Ok | day1/src/main.rs:68-104 | part two reads a line exactly when it holds some digit or digit name |
| Day1.PerformProcessingAppend | day1/src/main.rs:106-109 | each further calibration value adds to the sum |
| Day2.ParsedLine | day2/src/main.rs:51-80 | a line with no word leaves the games alone; a line that reads appends exactly one game after the earlier ones |
| Day2.ParseLine | day2/src/main.rs:51-80 | the word loop reads exactly what `ParsedLine` describes, errors included |
| Day2.PicksAreNonEmpty | day2/src/main.rs:68-73 | every pick read holds at least one colour |
| Day2.PicksKeepEarlier | day2/src/main.rs:69-73 | finished picks are kept, in order, ahead of those read later |
| Day2.CountWithoutColour | day2/src/main.rs:62-67 | a count with no colour after it is an error |
| Day2.LastColourEndsPick | day2/src/main.rs:68-73 | a count, a colour and the end of the line finish the pick being read, with that colour added |
| Day2.PossibleGames | day2/src/main.rs:89-99 | exactly the possible games (no pick shows more than 12 red, 13 green or 14 blue), in order |
| Day2.PerformProcessing1Append | day2/src/main.rs:89-106 | one more game adds its number to the answer exactly when it is possible |
| Day2.MaxCountIsLargest | day2/src/main.rs:118-125 | the running maximum from 0 bounds every pick's count of the colour and is 0 or shown by some pick |
| Day2.MaximaStep | day2/src/main.rs:119-124 | one more pick raises the colour's maximum to its count when that is larger |
| Day2.RecordPick | day2/src/main.rs:119-124 | folding one pick into the maxima, in any order: an error exactly when the pick shows a colour other than red, green or blue; otherwise each maximum raised to the pick's count |
| Day2.GamePower | day2/src/main.rs:112-129 | a game's power is the product of its three colour maxima; an error exactly when a pick shows an unknown colour |
| Day2.PerformProcessing2 | day2/src/main.rs:109-134 | the sum of every game's power; an error exactly when some game shows an unknown colour |
| Day3.CellOf | day3/src/main.rs:62-68 | a decimal digit becomes a number with its value, '.' a dot, any other character a symbol holding it |
| Day3.ParseLine | day3/src/main.rs:59-73 | appends one row holding one cell per character of the line |
| Day3.PlaceSumIsValue | day3/src/main.rs:75-82 | the place-value fold over the reversed digits is the run's decimal value |
| Day3.RunValueOfDigits | day3/src/main.rs:75-82 | a run of digit characters read cell by cell has the value of the decimal number they spell |
| Day3.Flush | day3/src/main.rs:83-87 | writing out a pending run takes the next id, and an empty run takes none |
| Day3.Overwrite | day3/src/main.rs:107-109 | the slots from..to hold the part and every other slot is kept |
| Day3.WritePartNumbers | day3/src/main.rs:100-111 | the placeholder dots of the pending run are replaced by its part, which takes the next id; the cells around are kept |
| Day3.FinaliseRow | day3/src/main.rs:96-141 | one row of `finalise_state` equals the run-by-run description `RowFrom` |
| Day3.RowShape | day3/src/main.rs:113-140 | a finalised row has one cell per input cell; exactly the digits become parts and dots and symbols are copied |
| Day3.RowIdsInRange | day3/src/main.rs:83-87 | every part of a row has an id from the first free id up to the next free id after the row |
| Day3.RowRunsShareCell | day3/src/main.rs:113-131 | neighbouring digits belong to the same part |
| Day3.RowIdsIncrease | day3/src/main.rs:83-87 | parts further right in a row never have smaller ids |
| Day3.RowRunsSeparated | day3/src/main.rs:120-131 | two parts with a non-digit between them are different parts |
| Day3.FinaliseState | day3/src/main.rs:91-148 | each row finalised in turn with the id counter shared across rows |
| Day3.FinaliseRowAt | day3/src/main.rs:94-143 | row y of the result is that row finalised on its own from the id the rows above left free |
| Day3.FinaliseNextIdGrows | day3/src/main.rs:92 | the next free id never goes down as rows are added |
| Day3.FinaliseShape | day3/src/main.rs:91-148 | row lengths are kept, exactly the digits become parts, other cells are copied, and every part's id lies in its row's id range |
| Day3.FinaliseIdsDistinctAcrossRows | day3/src/main.rs:91-148 | parts in different rows have different ids |
| Day3.SymbolInLineMeaning | day3/src/main.rs:170-196 | a line check that does not fail finds a symbol exactly when a cell of that row in columns x - 1 to x + 1 (the centre only when not ignored) exists and is a symbol |
| Day3.AdjacentToSymbolIff | day3/src/main.rs:170-220 | a check that does not fail finds a symbol exactly when one of the eight neighbouring cells that exist, each row bounded by its own length, is a symbol |
| Day3.AdjacentToSymbolOk | day3/src/main.rs:170-220 | the check does not fail when the rows next to the cell's row reach its column |
| Day3.RaggedRows | day3/src/main.rs:170-220 | on rows ".." and "1*." the part's check finds the symbol on its own row; on rows "." and ".1" it reads past the end of the shorter row and fails (the source's `unwrap` panic) |
| Day3.TallyRow | day3/src/main.rs:227-239 | after one row every part of it whose check finds a symbol has been counted, no part twice and only parts next to a symbol; a failure comes from a part cell of that row whose check fails, and a rectangular grid never fails |
| Day3.PerformProcessing1 | day3/src/main.rs:222-242 | every part whose check finds a symbol is listed, each once, and only such parts; a failure comes from a part cell whose check fails, and a rectangular grid never fails |
| Day3.PartSumConcat | day3/src/main.rs:244-253 | the sum of part numbers splits over any split of the list |
| Day3.GetPart | day3/src/main.rs:255-278 | the part at (x, y); None outside the grid or on a cell holding no part |
| Day3.PartsAround | day3/src/main.rs:280-291 | exactly the parts found at the centre moved by one of the deltas |
| Day3.GearsStep | day3/src/main.rs:296-312 | one more cell adds its gear (a '*' next to exactly two parts) to the list, in row-major order |
| Day3.PerformProcessing2 | day3/src/main.rs:293-315 | one pair per gear in row-major order, holding the gear's two parts in some order |
| Day3.GearRatioSymmetric | day3/src/main.rs:321-326 | a gear's ratio is the product of its two part numbers, whichever came first |
| Day3.GearRatioSumConcat | day3/src/main.rs:317-329 | the sum of gear ratios splits over any split of the list |
| Day4.ReadNumbers | day4/src/main.rs:78-100 | one number loop: every number read is kept, and what remains unread is no longer than the input |
| Day4.CollectNumbers | day4/src/main.rs:76-87 | the loop reads exactly the numbers and the remainder `ReadNumbers` describes |
| Day4.ParsedLine | day4/src/main.rs:70-109 | a blank line adds nothing; an error exactly when the card number is not a u64; otherwise exactly one card is appended after the earlier ones |
| Day4.ParseLine | day4/src/main.rs:70-109 | the word reads and both number loops give exactly `ParsedLine` |
| Day4.ReadNumbersOfNumerals | day4/src/main.rs:78-87 | i64 numbers written out are all read back, and reading continues after them |
| Day4.ReadCardHeader | day4/src/main.rs:73-74 | the "Card" word is skipped and the card number read |
| Day4.ReadNumbersAtBar | day4/src/main.rs:79-86 | the bar is not a number, so it ends the winning numbers and is consumed |
| Day4.ParseCardLine | day4/src/main.rs:70-109 | a card written in the puzzle's format reads back as that card (the read/write round trip) |
| Day4.NumMatching | day4/src/main.rs:20-25 | the number of matches is at most the count of numbers held and of winning numbers |
| Day4.OneMoreMatch | day4/src/main.rs:20-25 | holding one more winning number makes one more match |
| Day4.Points | day4/src/main.rs:27-33 | no points exactly when nothing matches |
| Day4.PointsDouble | day4/src/main.rs:27-33 | the first match scores 1 and each further match doubles the score |
| Day4.TotalPoints | day4/src/main.rs:118-121 | the total is zero exactly when no card has a match |
| Day4.Spread | day4/src/main.rs:134-141 | each of the next m cards after card i gains card i's copies, stopping at the last card; the others keep theirs |
| Day4.AddCopies | day4/src/main.rs:134-141 | the inner loop updates the copy array in place exactly as `Spread` says |
| Day4.PerformProcessing2 | day4/src/main.rs:123-145 | the answer is the copies counted card by card as the wins are spread |
| Day4.CopiesStep | day4/src/main.rs:129-142 | processing card i spreads its copies over its matches and adds its own copies to the answer |
| Day4.CopiesAtLeastOne | day4/src/main.rs:126-127 | every card is held at least once at every stage |
| Day4.CopiesSettled | day4/src/main.rs:134-138 | processing a card never changes an entry at or before it, so a card's count is settled when it is reached |
| Day4.CardsWonIsFinalSum | day4/src/main.rs:123-145 | the answer is the sum of the final copy counts |
| Day4.CardsWonAtLeastCards | day4/src/main.rs:123-145 | the answer is at least the number of cards |
| Day5.EmptyAlmanac | day5/src/main.rs:18-40 | loading starts with no seeds and seven empty mappings |
| Day5.Position | day5/src/main.rs:48-57 | the sections are numbered from the seeds line (position 0) to humidity-to-location (position 7) |
| Day5.NextLoadingState | day5/src/main.rs:97-108 | every section but the last moves on to the one at the next position; after the last there is none |
| Day5.SectionsInOrder | day5/src/main.rs:97-108 | the k-th blank line moves to the section k positions on, and a blank line past the last section fails |
| Day5.PositionInjective | day5/src/main.rs:48-57 | two sections with the same position are the same section |
| Day5.SeedsFrom | day5/src/main.rs:114-129 | reading seeds keeps those read before and adds at least one |
| Day5.LoadSeeds | day5/src/main.rs:114-129 | the read loop of `load_seeds` gives exactly the seeds the line describes |
| Day5.SeedsFromStep | day5/src/main.rs:118-127 | a seed followed by a space is read and reading goes on |
| Day5.SeedsFromLast | day5/src/main.rs:118-127 | a seed at the end of the line is read and ends the list |
| Day5.SeedsFromSpaced | day5/src/main.rs:114-129 | seeds written with single spaces read back in order (round trip) |
| Day5.SeedsFromTrailingSpace | day5/src/main.rs:118-127 | a space after the last seed makes the loop look for one more seed, which fails |
| Day5.MappingLine | day5/src/main.rs:131-145 | a line not starting with a number changes nothing; otherwise exactly one map is appended with the number read as its destination start |
| Day5.MappingLineReads | day5/src/main.rs:131-145 | the line "destination source length" appends exactly that map (round trip) |
| Day5.ParseLine | day5/src/main.rs:147-165 | a blank line advances to the next section, failing only after the last; any other line stays in its section and changes only that section's mapping |
| Day5.InsertBySource | day5/src/main.rs:167-180 | inserting keeps the maps sorted by source start and adds exactly one map |
| Day5.SortBySource | day5/src/main.rs:167-180 | the sort gives a permutation of the maps ordered by source start |
| Day5.FinaliseState | day5/src/main.rs:167-180 | every mapping becomes a sorted permutation of itself and the seeds are kept |
| Day5.LookupFindsCover | day5/src/main.rs:183-196 | on a sorted mapping the source is translated by the first map covering it, and kept when none does |
| Day5.GetDestination | day5/src/main.rs:183-196 | the scan with early exits returns exactly the lookup |
| Day5.CalculateLocation | day5/src/main.rs:198-207 | the seed is looked up through the seven mappings in order |
| Day5.PerformProcessing1 | day5/src/main.rs:209-215 | the answer is no greater than any seed's location and is one of them (or usize::MAX when there are no seeds) |
| Day5Ranges.Ranges | day5/src/main.rs:217-258 | every piece a range is split into is non-empty |
| Day5Ranges.RangesKeepLength | day5/src/main.rs:217-258 | the pieces of a range are together exactly as long as the range |
| Day5Ranges.RangesPassThrough | day5/src/main.rs:224-232 | a range wholly before the first map, or past every map, is passed through unchanged |
| Day5Ranges.RangesAreLookups | day5/src/main.rs:217-258 | the pieces stand, in order, for exactly the numbers of the range each looked up as `get_destination` would |
| Day5Ranges.AddDestinationRanges | day5/src/main.rs:217-258 | the loop appends exactly the pieces of the range to the ranges already collected |
| Day5Ranges.DestinationRanges | day5/src/main.rs:260-266 | every piece of every source range is non-empty |
| Day5Ranges.GetDestinationRanges | day5/src/main.rs:260-266 | the loop collects the pieces of each source range in turn |
| Day5Ranges.DestinationRangesAreLookups | day5/src/main.rs:260-266 | mapping whole ranges is mapping every number in them |
| Day5Ranges.GetLocationRanges | day5/src/main.rs:268-276 | a seed range is pushed through all seven mappings in order |
| Day5Ranges.LocationRangesAreLocations | day5/src/main.rs:268-276 | the location ranges stand for exactly the locations of the seeds in the source ranges, in order |
| Day5Ranges.ExpandMembers | day5/src/main.rs:278-286 | each non-empty range's start is one of its numbers, and every number lies in a range starting no later |
| Day5Ranges.MinStart | day5/src/main.rs:281-285 | the fold gives a value no greater than any range start or the seed value, and equal to one of them |
| Day5Ranges.LocationRangesNonEmpty | day5/src/main.rs:217-258 | after at least one mapping no empty range is left |
| Day5Ranges.PairRangesBelow | day5/src/main.rs:278-286 | every seed of a pair has a location range starting no later than its location |
| Day5Ranges.PairRangeStartsAttained | day5/src/main.rs:278-286 | every location range starts at the location of a seed of the pair |
| Day5Ranges.PairMinimum | day5/src/main.rs:278-286 | one pair's contribution is the smallest location of any of its seeds, or the running minimum when smaller |
| Day5Ranges.PerformProcessing2 | day5/src/main.rs:278-286 | the answer is no greater than the location of any seed in any (start, length) pair and is one of them (or usize::MAX) |
| Day6.ValuesFrom | day6/src/main.rs:67-73 | the read loop only appends: the values stored before are kept as a prefix |
| Day6.Loaded | day6/src/main.rs:64-75 | loading a line only appends to the storage |
| Day6.LoadValues | day6/src/main.rs:64-75 | the loop of `load_values` appends exactly the values `Loaded` describes |
| Day6.ValuesFromStep | day6/src/main.rs:68-72 | a value and the delimiter after it are read and reading goes on |
| Day6.ValuesFromListed | day6/src/main.rs:64-75 | u64 values written with spaces read back in order (round trip) |
| Day6.LoadedValuesLine | day6/src/main.rs:64-75 | a named line of values appends exactly those values |
| Day6.ParseLine | day6/src/main.rs:61-89 | the first line fills the times, the second the distances, and a third is an error; each only appends to its list and leaves the other alone |
| Day6.TwoLines | day6/src/main.rs:61-89 | two lines load the times from the first and the distances from the second |
| Day6.ThirdLineFails | day6/src/main.rs:86 | an input of three or more lines is an error |
| Day6.FinaliseState1 | day6/src/main.rs:91-106 | the i-th time is paired with the i-th distance, as many races as the shorter list |
| Day6.Joined | day6/src/main.rs:135-140 | the joined values are all digits, and empty exactly when there are no values |
| Day6.DecimalValueAppend | day6/src/main.rs:135-149 | digits written after other digits shift those left by their own width |
| Day6.JoinedValue | day6/src/main.rs:135-149 | appending one more value shifts the number so far left by the width of its numeral and adds it |
| Day6.JoinedU64 | day6/src/main.rs:148-149 | the joined digits parse exactly when there is at least one value and the number fits a u64 |
| Day6.FinaliseState2 | day6/src/main.rs:133-155 | the race is all the times read as one number and all the distances as another, an error when either is empty or overflows a u64 |
| Day6.FinaliseSingleRace | day6/src/main.rs:133-155 | a single race is read back unchanged |
| Day6.DistanceSymmetric | day6/src/main.rs:108-111 | holding for h or for time - h goes the same distance |
| Day6.EndsNeverWin | day6/src/main.rs:114 | holding for no time or for the whole race never wins |
| Day6.WinnersContiguous | day6/src/main.rs:108-111 | the winning hold times have no gaps |
| Day6.WinningDistances | day6/src/main.rs:113-119 | the kept distances all beat the record, and every winning hold of the range contributes its distance |
| Day6.AllWinCount | day6/src/main.rs:113-119 | a stretch where every hold wins contributes one distance per hold |
| Day6.NoneWinEmpty | day6/src/main.rs:113-119 | a stretch where no hold wins contributes nothing |
| Day6.FindWinningCombinations | day6/src/main.rs:113-119 | every distance kept beats the record and every winning hold from 1 to time - 2 is kept |
| Day6.FindWinningCombinationsCorrected | day6/src/main.rs:113-119 | every winning hold from 1 to time - 1 is kept |
| Day6.CorrectedCountsEveryHold | day6/src/main.rs:114 | leaving out holds 0 and time loses no winner: the corrected count is that of every possible hold |
| Day6.MissedLastHold | day6/src/main.rs:113-119 | the race (7 ms, record 5) has six winning holds but the range of the source counts five |
| Day6.PerformProcessing1 | day6/src/main.rs:121-127 | one count per race, each the number of winning holds, and an error (the underflow of time - 1) exactly when some race has time 0 |
| Day6.CalcResult1 | day6/src/main.rs:129-131 | the result is zero exactly when some race has no winning hold |
| Day6.CalcResult1IsProduct | day6/src/main.rs:129-131 | the result is the product of the counts |
| Day6.FirstWinning | day6/src/main.rs:158-163 | the first winning hold of the range, none before it; none found exactly when no hold wins |
| Day6.LastWinning | day6/src/main.rs:164-170 | the last winning hold of the range, none after it; none found exactly when no hold wins |
| Day6.CountBetween | day6/src/main.rs:157-172 | with winners from first to last and none elsewhere the range has last - first + 1 winners |
| Day6.AllBetweenWin | day6/src/main.rs:157-172 | every hold between two winning holds wins |
| Day6.WinningSpanCounts | day6/src/main.rs:157-172 | last - first + 1 counts exactly the winning holds, and finding none is an error exactly when there are none |
| Day6.PerformProcessing2 | day6/src/main.rs:157-172 | the answer is part one's count for the race, an error exactly when time is 0 or no hold in range wins |
| Day6.PerformProcessing2Corrected | day6/src/main.rs:157-172 | over the intended holds the answer counts every winning hold |
| Day6.MissedLastHoldPartTwo | day6/src/main.rs:157-172 | part two gives 5 instead of 6 for the race (7 ms, record 5) |
| Day7.CardOf | day7/src/main.rs:155-170 | a character is a card exactly when it is one of the thirteen names, with that name and a strength from 2 to 14 |
| Day7.StrengthFollowsNames | day7/src/main.rs:29-80 | A is 14 and each later name in A K Q J T 9 … 2 is one weaker |
| Day7.StrengthInjective | day7/src/main.rs:29-80 | different names never share a strength |
| Day7.ConvertCards | day7/src/main.rs:152-172 | converting succeeds exactly when every character is a known card (an unknown one panics), card by card |
| Day7.ParseLine | day7/src/main.rs:174-195 | a line appends exactly one uncategorised hand of five cards after the earlier ones, and a first word that is not five long is an error |
| Day7.ReadBid | day7/src/main.rs:186-187 | a bid at the end of the line reads back |
| Day7.ParseHandLine | day7/src/main.rs:174-195 | a line of five known cards and a bid appends exactly that hand (round trip) |
| Day7.ParseLineKeepsFiveCards | day7/src/main.rs:174-195 | every hand read has five cards |
| Day7.AddName | day7/src/main.rs:211-216 | one step of the grouping adds one card, under its name |
| Day7.AddNameCounts | day7/src/main.rs:211-216 | adding a name counts one more card of that name and no other |
| Day7.GroupNames | day7/src/main.rs:211-216 | the groups together hold exactly the cards |
| Day7.GroupNamesCounts | day7/src/main.rs:211-216 | each group counts exactly the cards of its name |
| Day7.SortDescending | day7/src/main.rs:221-222 | the sizes sorted largest first, with the same total |
| Day7.SortDescendingPermutes | day7/src/main.rs:221-222 | the sort only reorders the sizes |
| Day7.Categorize | day7/src/main.rs:197-208 | a size pattern that is categorised never gives NotCategorised |
| Day7.FiveSplitsSevenWays | day7/src/main.rs:197-208 | the seven patterns are every way to split five cards into groups, so no five-card hand panics |
| Day7.GroupSizes | day7/src/main.rs:210-224 | the group sizes are positive, largest first and add up to the number of cards |
| Day7.CategorizeHand1 | day7/src/main.rs:210-224 | every five-card hand gets a type |
| Day7.UpdateJackStrength | day7/src/main.rs:233-253 | every J becomes a card of strength 1 and every other card, the bid and the type are kept |
| Day7.JokerWeakest | day7/src/main.rs:233-253 | after the update a joker is weaker than every other card |
| Day7.AddJokers | day7/src/main.rs:286-287 | the jokers are added to the largest group, keeping the sizes largest first |
| Day7.JokerSizes | day7/src/main.rs:255-297 | the sizes of part two are largest first and add up to the number of cards |
| Day7.CategorizeHand2 | day7/src/main.rs:255-297 | every five-card hand gets a type |
| Day7.NoJokersSameType | day7/src/main.rs:255-297 | without jacks both rules give the same type |
| Day7.AllJokers | day7/src/main.rs:271-275 | five jokers make five of a kind |
| Day7.JokerUpdateKeepsType | day7/src/main.rs:299-305 | making jacks jokers keeps the names, so the type is that of the original cards |
| Day7.SetTypes | day7/src/main.rs:226-231 | each hand's type is set in place from its cards and nothing else changes |
| Day7.UpdateJacks | day7/src/main.rs:300 | each hand is replaced by its jack-updated copy |
| Day7.FinaliseState1 | day7/src/main.rs:226-231 | every hand gets its part-one type in place |
| Day7.FinaliseState2 | day7/src/main.rs:299-305 | every J becomes a joker and every hand gets its part-two type |
| Day7.CompareStrength | day7/src/main.rs:312 | Less, Equal or Greater exactly as the strengths compare |
| Day7.CompareCards | day7/src/main.rs:307-318 | two hands compare Equal exactly when the zipped cards agree in strength |
| Day7.FirstDifferenceDecides | day7/src/main.rs:307-318 | the first card that differs decides the order |
| Day7.CompareCardsFlip | day7/src/main.rs:307-318 | swapping the arguments reverses the order |
| Day7.CompareCardsTransitive | day7/src/main.rs:307-318 | on hands of one length the order is transitive |
| Day7.CompareHands | day7/src/main.rs:321-324 | a weaker type comes first and equal types go by the cards |
| Day7.CompareHandsFlip | day7/src/main.rs:321-324 | swapping the hands reverses the order |
| Day7.NotAfterTransitive | day7/src/main.rs:321-324 | the order on hands is transitive |
| Day7.SinkLast | day7/src/main.rs:320-327 | one pass of insertion extends the sorted prefix by one hand, only permuting it |
| Day7.PerformProcessing | day7/src/main.rs:320-327 | the hands end sorted weakest first and are a permutation of the hands given |
| Day7.CalcResultSnoc | day7/src/main.rs:329-336 | one more hand, ranked last, adds its bid times its rank |
| Day7.CalcResultAtLeastBids | day7/src/main.rs:329-336 | the winnings are at least the sum of the bids |
| Day8.MapStep | day8/src/main.rs:114-120 | L is Left and R is Right; any other character is refused (a panic in the source) |
| Day8.ParseSteps | day8/src/main.rs:148-149 | the steps line is accepted exactly when every character is L or R, step by step |
| Day8.ParseNodeLine | day8/src/main.rs:124-143 | a line with no word is no node; a node's path is stored under its own name |
| Day8.ParseNodeLineReadsBack | day8/src/main.rs:124-143 | "AAA = (BBB, CCC)" reads back as the node and its two successors (round trip) |
| Day8.ParseLine | day8/src/main.rs:145-160 | the first line sets the steps; each later line adds or replaces its node's path and nothing else |
| Day8.ParseLineKeysMatch | day8/src/main.rs:152-155 | every path stays stored under its own node's name |
| Day8.FinaliseState | day8/src/main.rs:162-166 | the loaded state is kept as it is |
| Day8.StepAt | day8/src/main.rs:188-195 | the steps repeat: the i-th step taken is step i mod the number of steps |
| Day8.Move | day8/src/main.rs:176-183 | a move succeeds exactly when the name on the chosen side has a path |
| Day8.Search | day8/src/main.rs:175-197 | a count or a missing name is found between the current step and the fuel bound |
| Day8.SearchCountIsFirst | day8/src/main.rs:175-197 | a count is the first step that reaches a finishing node |
| Day8.SearchMissingIsFirst | day8/src/main.rs:180-183 | a missing name is the first step whose name has no path, and no earlier step finished |
| Day8.SearchOutOfFuel | day8/src/main.rs:175-197 | running out of fuel means every step up to the bound was reached and none finished |
| Day8.SearchMoreFuel | day8/src/main.rs:175-197 | more fuel never changes a walk that ended within the bound |
| Day8.WalkCountIsFirst | day8/src/main.rs:168-200 | a walk that ends with a count stops at the first finishing node |
| Day8.PathAfterRound | day8/src/main.rs:188-195 | after a whole round of steps the walk carries on as a walk from the node reached |
| Day8.NextIndex | day8/src/main.rs:188-195 | restarting the step iterator when it runs out is the same as counting modulo the number of steps |
| Day8.SearchStep | day8/src/main.rs:175-197 | one step: a name without a path ends the search, a finishing node counts, otherwise the search goes on |
| Day8.Advance | day8/src/main.rs:176-195 | one iteration of the loop keeps the walk in step with the specification |
| Day8.CalcSteps | day8/src/main.rs:168-200 | the loop returns exactly the walk: the first finishing step count, the first missing name, or running out of fuel |
| Day8.PerformProcessing1 | day8/src/main.rs:202-209 | part one is the walk from AAA to ZZZ |
| Day8.Starts | day8/src/main.rs:212-216 | every start ends in A |
| Day8.LcmOfWalks | day8/src/main.rs:218-227 | the lcm of the counts is a multiple of every start's count |
| Day8.LcmOfWalksIsLeast | day8/src/main.rs:224-227 | the lcm of the counts divides every positive common multiple of the walks, so it is the least |
| Day8.PerformProcessing2 | day8/src/main.rs:211-230 | with at least two starts whose walks all count, the answer is the least positive common multiple of every start's count; fewer starts or a failed walk is reported |
| Day9.ParseNums | day9/src/main.rs:47-51 | the read loop collects exactly the i64 values `ReadNums` describes |
| Day9.ParseLine | day9/src/main.rs:46-54 | every line appends exactly one reading sequence, possibly empty, after the earlier ones |
| Day9.ShowIntReadsBack | day9/src/main.rs:49 | every i64 written in decimal reads back as itself |
| Day9.ReadValuesSpacedBy | day9/src/main.rs:49-51 | values written with spaces read back in order |
| Day9.ReadNumsSpaced | day9/src/main.rs:46-54 | a line of i64 values read back gives those values (round trip) |
| Day9.Diffs | day9/src/main.rs:71-80 | one difference per neighbouring pair, each the later value less the earlier |
| Day9.SeqNumber | day9/src/main.rs:95-115 | forwards takes the last reading, backwards the first |
| Day9.ConstantSequence | day9/src/main.rs:61-90 | a constant sequence extrapolates to its constant either way |
| Day9.ProgressionDiffs | day9/src/main.rs:71-80 | the differences of an arithmetic progression are all its step |
| Day9.ArithmeticProgression | day9/src/main.rs:61-118 | an arithmetic progression extrapolates to its next term forwards and its previous term backwards |
| Day9.DiffsSnoc | day9/src/main.rs:71-80 | one more reading at the end adds one difference at the end |
| Day9.DiffsCons | day9/src/main.rs:71-80 | one more reading at the front adds one difference at the front |
| Day9.NextStep | day9/src/main.rs:81-89 | forwards, the last value plus the extrapolation of the differences unless they are all zero |
| Day9.PreviousStep | day9/src/main.rs:81-89 | backwards, the first value less the extrapolation of the differences unless they are all zero |
| Day9.NextContinuesDiffs | day9/src/main.rs:92-104 | the extrapolated next value, appended, extends the difference table consistently |
| Day9.PreviousContinuesDiffs | day9/src/main.rs:106-118 | the extrapolated previous value, prepended, extends the difference table consistently |
| Day9.DiffsReversed | day9/src/main.rs:71-80 | the differences of the reversed readings are the reversed differences negated |
| Day9.NextNegated | day9/src/main.rs:92-104 | negating the readings negates the extrapolated value |
| Day9.PreviousIsNextReversed | day9/src/main.rs:92-118 | part two is part one on the reversed readings |
| Day9.PerformProcessing | day9/src/main.rs:92-118 | one extrapolated value per line, an error (an unwrap panic) exactly when some line is empty |
| Day10.PipeOf | day10/src/main.rs:100-114 | a character is recognised exactly when it is a pipe, ground (., O, I) or the start S; anything else is refused (a panic in the source) |
| Day10.PipeOfSymbol | day10/src/main.rs:22-36 | every pipe reads back from the character it is drawn with |
| Day10.SymbolOfPipeOf | day10/src/main.rs:100-114 | every recognised character other than O and I is the drawing of the pipe it reads as |
| Day10.Exits | day10/src/main.rs:131-142 | a pipe opens on exactly two sides, ground and the start on none |
| Day10.MoveBack | day10/src/main.rs:158-179 | a move undone by a move the opposite way lands where it began |
| Day10.NextStep | day10/src/main.rs:158-179 | passing through a pipe works exactly when it opens on the side entered, leaves by its other exit and moves one cell that way |
| Day10.NextStepReverses | day10/src/main.rs:158-179 | a pipe passed through one way is passed through back the other way |
| Day10.ParseLine | day10/src/main.rs:116-128 | each line appends one row of pipes, one per character; the start is recorded at the line's last S; an unknown character is an error |
| Day10.FinaliseState | day10/src/main.rs:144-156 | an error without a start; otherwise the start's tile becomes the configured pipe and every other tile is kept, short rows padded with ground |
| Day10.InitialDirection | day10/src/main.rs:185-192 | the walk sets off through an exit of the start pipe, and only a real pipe has one |
| Day10.GetLoopTiles | day10/src/main.rs:181-200 | the loop collects exactly the tiles the walk reaches before returning to a tile already collected |
| Day10.TraceKeeps | day10/src/main.rs:194-198 | tiles collected stay collected |
| Day10.TraceAddsPipes | day10/src/main.rs:194-198 | every tile the walk adds is a pipe inside the grid |
| Day10.LoopIsPipes | day10/src/main.rs:181-200 | the loop holds the start, lies in the grid and every tile on it has exactly two exits |
| Day10.PerformProcessing1 | day10/src/main.rs:202-205 | the farthest distance is half the number of loop tiles, an error exactly when the walk fails |
| Day10.Reverse | day10/src/main.rs:76-85 | the reverse direction steps by the opposite offset |
| Day10.Offset | day10/src/main.rs:361-370 | each of the eight directions moves at most one cell along each axis and never stays put |
| Day10.OffsetsCoverNeighbours | day10/src/main.rs:361-370 | the eight directions reach all eight neighbours |
| Day10.GetNextCoord | day10/src/main.rs:360-379 | the point one step away, None exactly when it falls outside the extents |
| Day10.GetNextCoordBack | day10/src/main.rs:360-379 | a step taken can be stepped back |
| Day10.GetPipeAt | day10/src/main.rs:207-231 | the tile at the offset: none outside the grid, its pipe when it is on the loop, ground otherwise |
| Day10.GroundCoords | day10/src/main.rs:250-338 | the ground tiles around a point are exactly the present tiles off the loop |
| Day10.PipeRunEdge | day10/src/main.rs:250-338 | a crossing point is on the edge exactly when it lies on the grid's border |
| Day10.PipeRunGround | day10/src/main.rs:250-338 | a crossing point's ground is its four neighbouring tiles that lie in the grid and off the loop |
| Day10.PipeRunOpenGround | day10/src/main.rs:250-338 | away from the loop and the border every side of a crossing point is open and no diagonal is |
| Day10.PipeRunBlocked | day10/src/main.rs:250-338 | a loop pipe reaching across a side of a crossing point closes that side |
| Day10.CreatePipeRuns | day10/src/main.rs:340-358 | the crossing points form a grid one wider and one taller than the tiles, each holding its pipe run |
| Day10.Step | day10/src/main.rs:381-412 | an open step from a point stays inside the grid of crossing points |
| Day10.QueueNeighbours | day10/src/main.rs:394-407 | every open step from the point just taken that was not yet visited is queued and visited |
| Day10.SearchStep | day10/src/main.rs:388-409 | one turn of the search keeps the search invariant and makes progress |
| Day10.FindAllConnectedGroundTiles | day10/src/main.rs:381-412 | the search reaches each point once, each from an earlier one by an open step, and closed under open steps; it reports exactly the ground around what it reached and whether it reached the edge |
| Day10.GroundOfOffLoop | day10/src/main.rs:250-338 | the ground found lies inside the tile grid and off the loop |
| Day10.PerformProcessing2 | day10/src/main.rs:414-445 | the answer counts a set of tiles of the grid that are off the loop, an error exactly when the loop walk fails |
| Day11.Hashes | day11/src/main.rs:32-48 | the positions of the line's '#' characters, exactly those and in increasing order |
| Day11.NewGalaxies | day11/src/main.rs:36-44 | one galaxy per '#' |
| Day11.ParseLine | day11/src/main.rs:32-48 | each '#' becomes a galaxy at (column, current row) with the next id, its row and column are marked occupied, and the row counter moves on |
| Day11.ParseLineKeepsIds | day11/src/main.rs:32-48 | ids stay in order of discovery and every galaxy's row and column stay marked occupied |
| Day11.Empty | day11/src/main.rs:50-68 | at most n of the lines before n are empty |
| Day11.GrowthCountsEmpty | day11/src/main.rs:50-68 | the growth is the number of empty lines before the galaxy times the increment |
| Day11.GrowthBetween | day11/src/main.rs:50-68 | a later line grows at least as much as an earlier one, by exactly the increments of the empty lines between |
| Day11.Expanded | day11/src/main.rs:50-68 | expansion keeps the id and only moves a galaxy right and down |
| Day11.ExpandedGap | day11/src/main.rs:50-68 | expansion keeps the order of columns and rows, and a gap grows by the increment per empty line inside it |
| Day11.ExpandGalaxy | day11/src/main.rs:50-68 | the loops move the galaxy by the increment per empty column to its left and per empty row above it |
| Day11.ExpandUniverse | day11/src/main.rs:70-79 | every galaxy expanded, in the same order |
| Day11.FinaliseState1 | day11/src/main.rs:81-86 | each empty line becomes two (increment 1) |
| Day11.FinaliseState2 | day11/src/main.rs:88-93 | each empty line becomes a million (increment 999999) |
| Day11.DistancesFrom | day11/src/main.rs:98-104 | the distances from galaxy i to each later galaxy, in order |
| Day11.PairDistances | day11/src/main.rs:95-108 | one distance for each pair starting among the first m galaxies |
| Day11.PairsBeforeClosedForm | day11/src/main.rs:95-108 | the pairs starting among the first m of n galaxies number m(2n - m - 1)/2 |
| Day11.PairsExtend | day11/src/main.rs:95-108 | later rows only add distances at the end |
| Day11.PairDistanceAt | day11/src/main.rs:95-108 | each pair i < j has its distance at its own index |
| Day11.PairIndexInjective | day11/src/main.rs:95-108 | distinct pairs sit at distinct indices, so each pair is counted once |
| Day11.DistanceSymmetric | day11/src/main.rs:101-102 | the distance does not depend on which galaxy comes first |
| Day11.PerformProcessing | day11/src/main.rs:95-108 | the loops give the distance of every pair i < j, n(n - 1)/2 of them |
| Day12.ConditionOf | day12/src/main.rs:53-58 | '.', '#' and '?' are the three conditions, each drawn with its own character; any other is refused |
| Day12.ConditionOfSymbol | day12/src/main.rs:17-25 | every condition reads back from its character |
| Day12.Conditions | day12/src/main.rs:51-59 | a word converts exactly when every character is a condition, character by character (a panic otherwise) |
| Day12.ConditionsOfShown | day12/src/main.rs:51-59 | written conditions read back (round trip) |
| Day12.Groups | day12/src/main.rs:61-63 | the group lengths read are usize values |
| Day12.ParseConditionLine | day12/src/main.rs:47-68 | the conditions word and the `while let` loop over the groups give exactly the line `LineOf` describes |
| Day12.GroupsOfShown | day12/src/main.rs:61-63 | comma-separated group lengths read back in order |
| Day12.LineOfShown | day12/src/main.rs:47-68 | a written line parses back to itself (round trip) |
| Day12.ParseLine | day12/src/main.rs:70-73 | a line is appended exactly when it parses, and the error is passed on otherwise |
| Day12.RepeatFive | day12/src/main.rs:81-84 | five repeats are the sequence five times over |
| Day12.ExpandLine | day12/src/main.rs:79-90 | five copies of the conditions joined by an Unknown, and five copies of the groups |
| Day12.FinaliseState2 | day12/src/main.rs:92-94 | every line unfolded, in order |
| Day12.KnownPrefix | day12/src/main.rs:106-116 | the scan stops at the first Unknown and everything before it is known |
| Day12.IsPossibleArrangement | day12/src/main.rs:96-139 | the counting loop measures exactly the damaged runs before the first Unknown and checks them against the groups, strictly on the final check and leniently on the last run otherwise |
| Day12.PossibleFinal | day12/src/main.rs:123-138 | the final check passes exactly when the runs are the groups |
| Day12.PossibleSelf | day12/src/main.rs:119-138 | runs pass the lenient check against themselves |
| Day12.PossibleTransitive | day12/src/main.rs:119-138 | the lenient check is transitive |
| Day12.RunsGrow | day12/src/main.rs:104-117 | reading further only extends the last run or adds runs |
| Day12.RunsAfterPrefix | day12/src/main.rs:104-117 | a prefix ending with every run closed contributes its runs first |
| Day12.SkipOperational | day12/src/main.rs:168-173 | leading Operationals dropped and nothing else |
| Day12.DamagedPrefix | day12/src/main.rs:178-182 | the length of the leading damaged run |
| Day12.Consume | day12/src/main.rs:176-200 | a complete first group followed by an Operational is consumed with it; otherwise nothing changes |
| Day12.Settle | day12/src/main.rs:168-200 | settling never adds an Unknown and drops at most the first group |
| Day12.CountAfterPrefix | day12/src/main.rs:154-235 | a known prefix with closed runs matches the same groups in front, whatever follows |
| Day12.CountSplit | day12/src/main.rs:203-226 | the arrangements split on the first Unknown into those with it Damaged and those with it Operational |
| Day12.SkipKeepsCount | day12/src/main.rs:168-173 | leading Operationals do not change the number of arrangements |
| Day12.ConsumeKeepsCount | day12/src/main.rs:176-200 | consuming a complete first group does not change the number of arrangements |
| Day12.SettleKeepsCount | day12/src/main.rs:168-200 | settling does not change the number of arrangements |
| Day12.KnownRunsGrow | day12/src/main.rs:203-217 | fixing the first Unknown only extends the runs before it |
| Day12.PruneSound | day12/src/main.rs:164-166 | pruning is sound: a line with some arrangement passes the lenient check |
| Day12.ArrangementsCount | day12/src/main.rs:154-235 | the search counts exactly the assignments of the Unknowns whose damaged runs are the groups |
| Day12.ArrangementsPruned | day12/src/main.rs:164-166 | when the search gives up there is no arrangement |
| Day12.Memo.constructor | day12/src/main.rs:237-244 | a fresh memo is empty |
| Day12.HoldsInsert | day12/src/main.rs:211-223 | storing a computed count keeps the memo sound |
| Day12.HoldsLookup | day12/src/main.rs:159-162 | a stored count is the count for its key's conditions and groups |
| Day12.ArrangementsStep | day12/src/main.rs:203-234 | after settling the count is the sum over both choices for the first Unknown, or the final check when none is left |
| Day12.CalculateArrangements | day12/src/main.rs:154-235 | the memoised recursion returns exactly the count of the search, keeps the memo sound, and reports a hit only for a key already stored |
| Day12.CalculatePossibleArrangements | day12/src/main.rs:237-244 | with a fresh memo the result is the number of arrangements of the line |
| Day12.PerformProcessing | day12/src/main.rs:246-257 | one count per line, each the number of arrangements |
| Day12b.SkipOperationalFrom | day12b/src/main.rs:133-135 | the first index from i on that is not Operational, everything skipped being Operational |
| Day12b.SkipNonOperationalFrom | day12b/src/main.rs:169-172 | the first index from i on that is Operational, everything skipped being something else |
| Day12b.SpaceFits | day12b/src/main.rs:152-162 | past the space check, and unless the last group fills what is left, the group leaves room for one more condition |
| Day12b.CorrectInsert | day12b/src/main.rs:220-226 | storing a computed count keeps every stored count correct |
| Day12b.ResultMemo.constructor | day12b/src/main.rs:250-252 | a fresh memo is empty |
| Day12b.CalculateArrangementsFrom | day12b/src/main.rs:97-248 | the loops and the recursion return exactly the count of the search as written, and store only correct counts |
| Day12b.SearchAt | day12b/src/main.rs:146-248 | after the leading Operationals, the checks and the two options give the search's count |
| Day12b.NextCandidate | day12b/src/main.rs:165-179 | the jump past a window holding an Operational skips the non-Operationals and then the Operationals, always moving forward |
| Day12b.BothOptions | day12b/src/main.rs:186-246 | the group put here plus, when the first condition is Unknown and the one after the window is not Operational, the same groups one further on |
| Day12b.GroupHere | day12b/src/main.rs:190-222 | the group put here is followed by Operationals (all skipped) or by an Unknown taken as Operational; a Damaged after it gives nothing |
| Day12b.Recurse | day12b/src/main.rs:220-244 | a recursive call's count is stored under its own key unless it came from the memo |
| Day12b.CountOperationalFirst | day12b/src/main.rs:133-135 | a leading Operational does not change the number of arrangements |
| Day12b.CountUnknownFirst | day12b/src/main.rs:236-246 | a leading Unknown counts both ways |
| Day12b.CountNoGroups | day12b/src/main.rs:123-130 | with no group left there is one arrangement exactly when nothing Damaged remains |
| Day12b.CountZeroGroup | day12b/src/main.rs:97-248 | a group of length zero is never matched |
| Day12b.CountAfterPrefixMismatch | day12b/src/main.rs:97-248 | a known prefix whose closed runs do not start the groups leaves no arrangement |
| Day12b.CountDamagedFirst | day12b/src/main.rs:186-222 | with a Damaged first the count is the placement of the first group there |
| Day12b.OperationalInWindow | day12b/src/main.rs:164-179 | an Operational inside the window of a Damaged-led row leaves no arrangement |
| Day12b.OverlongRun | day12b/src/main.rs:190-222 | more Damaged in front than the first group leaves no arrangement |
| Day12b.CountNeedsSpace | day12b/src/main.rs:158-162 | the space check is sound: a row shorter than the groups and the gaps between them has no arrangement |
| Day12b.CorrectedCounts | day12b/src/main.rs:97-248 | the corrected search from a and gi counts exactly the arrangements of the rest of the conditions matching the rest of the groups |
| Day12b.PlacedCounts | day12b/src/main.rs:186-222 | the group put at a counts the arrangements that start with a Damaged there |
| Day12b.LastGroupFillsRest | day12b/src/main.rs:152-156 | "#.# 3" is counted 1 as written but has no arrangement |
| Day12b.WindowJumpDropsDamaged | day12b/src/main.rs:164-179 | "#.## 2" is counted 1 as written but has no arrangement |
| Day12b.ShiftSkippedBeforeOperational | day12b/src/main.rs:236-246 | "?.? 1" is counted 1 as written but has two arrangements |
| Day12b.LastGroupCheckStopsShift | day12b/src/main.rs:181-184 | "?.# 1" is counted 0 as written but has one arrangement |
| Day12b.PossibleArrangementsCorrected | day12b/src/main.rs:250-252 | the corrected count of a line is its number of arrangements |
| Day12b.CalculatePossibleArrangements | day12b/src/main.rs:250-252 | the search from the start with a fresh memo, as written |
| Day12b.PerformProcessing | day12b/src/main.rs:254-262 | one count per line, in order |
| Day13.CellOf | day13/src/main.rs:71-79 | '.' is ash and '#' is rock; any other character is refused (a panic in the source) |
| Day13.CellOfSymbol | day13/src/main.rs:16-23 | every cell reads back from its character |
| Day13.Flip | day13/src/main.rs:176-183 | the smudge changes the cell |
| Day13.FlipFlip | day13/src/main.rs:176-183 | flipping twice gives the cell back |
| Day13.RowOf | day13/src/main.rs:70-79 | a line converts exactly when every character is a cell, character by character |
| Day13.RowOfShown | day13/src/main.rs:70-79 | a written row reads back (round trip) |
| Day13.Begun | day13/src/main.rs:64-66 | the first line starts a pattern |
| Day13.ParseLine | day13/src/main.rs:63-84 | a blank line starts a new pattern and any other line is a new row of the last one; an unknown character is an error |
| Day13.ParseShownRows | day13/src/main.rs:63-84 | the rows of a pattern, written out, are read as rows of the last pattern |
| Day13.ParseShownPatterns | day13/src/main.rs:63-84 | written-out patterns separated by blank lines read back as themselves (round trip) |
| Day13.ParseBlankAfter | day13/src/main.rs:81 | a blank line after the patterns starts a new, empty one |
| Day13.MirrorsPairs | day13/src/main.rs:97-109 | mirroring to the nearer edge is every pair of lines at the same distance from the boundary being equal |
| Day13.FindReflectionSize | day13/src/main.rs:97-109 | the reach of the reflection when the lines mirror out to the nearer edge, None otherwise |
| Day13.MirrorsAdjacent | day13/src/main.rs:127-129 | a reflection mirrors the two lines next to it, so that first test adds nothing |
| Day13.ReflectionsBeforeMembers | day13/src/main.rs:120-137 | the reflections found before n are exactly the mirrors above n, each with its reach |
| Day13.ReflectionsBeforeSorted | day13/src/main.rs:120-137 | the reflections are kept in increasing order, as the ordered set keeps them |
| Day13.FindReflectionIndices | day13/src/main.rs:120-137 | the loop over the boundaries finds exactly every reflection |
| Day13.FirstUpperIsNearest | day13/src/main.rs:240-247 | the first reflection is the one nearest the top or left, and 0 stands for none |
| Day13.RowsOfInjective | day13/src/main.rs:139-164 | the rows determine the stored grid |
| Day13.TransposeTwice | day13/src/main.rs:153-161 | the columns of the columns are the rows |
| Day13.ColumnMirrorsEveryRow | day13/src/main.rs:153-162 | a reflection between columns is a reflection of every row about the same place |
| Day13.GetMirroredRowColumns | day13/src/main.rs:139-164 | the rows and columns copied out of the grid and the reflections of each |
| Day13.CopyRows | day13/src/main.rs:141-149 | the row loop copies exactly the grid's rows |
| Day13.CopyColumns | day13/src/main.rs:152-161 | the column loop copies exactly the grid's columns |
| Day13.PerformProcessing1 | day13/src/main.rs:166-174 | the reflections of every pattern, in order |
| Day13.FlipRowsCells | day13/src/main.rs:176-183 | flipping changes the one cell and no other |
| Day13.FlipRowsTwice | day13/src/main.rs:190-193 | flipping a cell twice gives the rows back |
| Day13.FlipCell | day13/src/main.rs:176-183 | the cell at (x, y) is flipped in place and every other cell is kept |
| Day13.RowsAfterFlip | day13/src/main.rs:176-183 | flipping one stored cell flips that cell of the rows and no other |
| Day13.WithoutMembers | day13/src/main.rs:198-207 | the difference keeps exactly what is in the first set and not in the second |
| Day13.WithoutIncreasing | day13/src/main.rs:198-207 | the difference of an ordered set stays ordered |
| Day13.AdditionsAt | day13/src/main.rs:188-217 | the entry for (a, b) is what flipping cell (a, b) adds |
| Day13.SmudgesAll | day13/src/main.rs:185-228 | the collected additions are exactly those of the grid's cells, and a clash is the clash of one of them |
| Day13.SmudgesAreNew | day13/src/main.rs:198-221 | each addition is new reflections between rows or between columns, never both, none of them the original's |
| Day13.FixSmudge | day13/src/main.rs:185-228 | the search gives the single added reflection, an error for a flip adding both kinds or for any number of additions but one; the grid is as it was afterwards |
| Day13.ScanColumn | day13/src/main.rs:187-222 | the inner loop over column x collects its additions and stops at the first clash |
| Day13.AdditionAt | day13/src/main.rs:188-217 | flipping (x, y), finding the reflections and flipping back yields that cell's addition and leaves the grid unchanged |
| Day13.FlipAndFind | day13/src/main.rs:190-193 | the reflections of the grid with one cell flipped; the grid is as it was afterwards |
| Day13.PerformProcessing2 | day13/src/main.rs:230-238 | the smudge fix of every pattern, an error exactly when one pattern has none or several; every grid is left as it was |
| Day13.FixMeaning | day13/src/main.rs:185-228 | the search succeeds exactly when no flip clashes and the flips together add one reflection, and gives that one |
| Day13.FinaliseState | day13/src/main.rs:86-92 | each pattern's rows become a grid padded with ash, an error exactly when some pattern has no rows or no cells |
| Day13.PaddedRows | day13/src/main.rs:86-92 | the rows of the padded grid are the pattern's rows padded with ash |
| Day13.CalcResultConcat | day13/src/main.rs:240-247 | the sum splits over the patterns |
| Day14.CellOf | day14/src/main.rs:50-63 | '.', 'O' and '#' are space, round rock and cube rock, each drawn with its own character; any other is refused |
| Day14.CellOfSymbol | day14/src/main.rs:13-22 | every cell reads back from its character |
| Day14.RowOf | day14/src/main.rs:49-64 | a line converts exactly when every character is a cell, character by character |
| Day14.RowOfShown | day14/src/main.rs:49-64 | a written row reads back (round trip) |
| Day14.ParseLine | day14/src/main.rs:46-69 | every line appends one row, an error (a panic in the source) for an empty line or an unknown character |
| Day14.ParseShownRows | day14/src/main.rs:46-69 | the printed rows of a grid read back as those rows (round trip) |
| Day14.FinaliseState | day14/src/main.rs:71-76 | the rows become a grid as wide as the widest row, short rows padded with space; no cells is an error |
| Day14.Delta | day14/src/main.rs:131-138 | each direction rolls the rocks one cell along one axis |
| Day14.RestingPlace | day14/src/main.rs:102-113 | a rolling rock comes to rest inside the grid |
| Day14.RestingPlaceStops | day14/src/main.rs:102-113 | the resting place has no open cell ahead, lies ahead of the start, and is a space unless the rock never moved |
| Day14.Moved | day14/src/main.rs:102-113 | moving a cell keeps the number of cells |
| Day14.MovedKeeps | day14/src/main.rs:102-113 | moving a cell only rearranges the cells and never moves a cube rock |
| Day14.TryMovingCell | day14/src/main.rs:79-100 | the cell changes places with the next cell along the step exactly when that is an empty cell of the grid, and says whether it moved |
| Day14.RestingPlaceOn | day14/src/main.rs:102-113 | a rock with an open cell ahead rests where it would from that cell |
| Day14.RestingPlaceHere | day14/src/main.rs:102-113 | a rock with no open cell ahead stays where it is |
| Day14.RollOn | day14/src/main.rs:107-112 | one step of the roll moves the rock on to the open cell ahead |
| Day14.RollEnds | day14/src/main.rs:107-112 | the roll ends where the cell ahead is not open, with the grid as `Moved` describes |
| Day14.MoveCell | day14/src/main.rs:102-113 | only a round rock moves, and it ends where it comes to rest |
| Day14.MoveSettles | day14/src/main.rs:115-129 | rolling the rock at the cursor keeps every visited rock settled and settles the cursor's cell too |
| Day14.SwapKeepsStretches | day14/src/main.rs:79-100 | exchanging two cells with no cube rock between them keeps the cells of every stretch between cube rocks |
| Day14.RestingPath | day14/src/main.rs:102-113 | a rolling rock passes over spaces only, in its own column or row |
| Day14.MovedStretches | day14/src/main.rs:102-113 | moving a cell keeps every stretch along the axis of the step: a rock never leaves the stretch between cube rocks it lies in |
| Day14.SettledLines | day14/src/main.rs:131-138 | in a grid settled in one direction every line along that axis has no round rock with a space in front of it |
| Day14.PackedCount | day14/src/main.rs:115-129 | in a stretch of two kinds of cell with one kind packed first, that kind fills exactly as many leading cells as it counts |
| Day14.PackedUnique | day14/src/main.rs:115-129 | two packed stretches holding the same cells are equal |
| Day14.LineDetermined | day14/src/main.rs:115-129 | two settled lines keeping the stretches of the same line are the same line |
| Day14.LinesDetermineGrid | day14/src/main.rs:131-138 | grids whose lines along one axis agree are equal |
| Day14.TiltDetermined | day14/src/main.rs:131-138 | a tilt has one outcome: two grids that keep the cube rocks and stretches of the same grid and are settled in the same direction are equal |
| Day14.TiltNorthExample | day14/src/main.rs:131-138 | tilting `..` over `OO` north can only give `OO` over `..` |
| Day14.TiltFromTopLeft | day14/src/main.rs:115-121 | the cells are only rearranged, the cube rocks stay, every stretch between cube rocks along the step's axis keeps its cells, and for north or west every round rock ends with no open cell in front |
| Day14.TiltFromBottomRight | day14/src/main.rs:123-129 | the cells are only rearranged, the cube rocks stay, every stretch between cube rocks along the step's axis keeps its cells, and for south or east every round rock ends with no open cell in front |
| Day14.Tilt | day14/src/main.rs:131-138 | the grid becomes the tilt of the old one in that direction (same cube rocks, same cells in every stretch, no round rock with an open cell in front), which `TiltDetermined` shows is a single grid |
| Day14.CellLoad | day14/src/main.rs:205-221 | a round rock weighs its distance from the south edge, from 1 to the height, other cells nothing; a round rock in another direction is an error |
| Day14.TotalLoadBounds | day14/src/main.rs:223-227 | the north load lies between the number of round rocks and that number times the height; other directions fail exactly when there are round rocks |
| Day14.TotalLoadUpdate | day14/src/main.rs:223-227 | replacing one cell changes the north load by the difference of the two cells' loads |
| Day14.NorthStepGain | day14/src/main.rs:205-227 | a round rock rolling one cell north into a space adds exactly one to the north load |
| Day14.NorthLoad | day14/src/main.rs:205-227 | the north load of a grid's cells lies between its number of round rocks and that number times the height |
| Day14.ItemsAreItemsOf | day14/src/main.rs:223-227 | a grid's items are its cells in row-major order paired with their coordinates |
| Day14.CalcResult | day14/src/main.rs:229-231 | the result is the north load of the grid's cells |
| Day14.SpunDetermined | day14/src/main.rs:157-161 | a spin cycle has one outcome |
| Day14.SpinChainDetermined | day14/src/main.rs:156-169 | two chains of spin cycles of the same length from the same grid are equal: entry k is the grid after k cycles |
| Day14.PerformProcessing1 | day14/src/main.rs:140-146 | a fresh copy of the grid, which becomes the one grid tilted north from it |
| Day14.SpinCycle | day14/src/main.rs:157-161 | one spin cycle only rearranges the cells and leaves the grid tilted north, west, south and east in turn from the old one |
| Day14.CycleLoads | day14/src/main.rs:156-169 | load k is the north load of the grid after k + 1 spin cycles, each at most the number of cells times the height |
| Day14.LoadAtMost | day14/src/main.rs:223-231 | the north load is at most the number of cells times the height |
| Day14.RepeatsBack | day14/src/main.rs:183-186 | the check succeeds exactly when each of the ten loads one period apart equals the last; an index below zero is an error |
| Day14.FinalLoad | day14/src/main.rs:170-202 | the load read off the repetition is one of the recorded loads at or after the floor |
| Day14.PerformProcessing2 | day14/src/main.rs:153-203 | the answer is the north load after some number of spin cycles past the floor and within the investigated cycles, so at most the number of cells times the height |
| Day16.TileOf | day16/src/main.rs:46-55 | '.', '\', '/', '-' and '\|' are the five tiles, each drawn with its own character; any other is refused |
| Day16.TileOfSymbol | day16/src/main.rs:20-30 | every tile reads back from its character |
| Day16.RowOf | day16/src/main.rs:46-56 | a line converts exactly when every character is a tile, character by character |
| Day16.RowOfShown | day16/src/main.rs:46-56 | a written row reads back (round trip) |
| Day16.ParseLine | day16/src/main.rs:43-59 | an empty line is skipped; any other line appends exactly its tiles as the next row, an unknown character being an error |
| Day16.ParseShownRows | day16/src/main.rs:43-59 | the printed rows of a grid read back as those rows (round trip) |
| Day16.FinaliseState | day16/src/main.rs:67-71 | the rows become a grid as wide as the widest row, short rows padded with space; no cells is an error |
| Day16.Next | day16/src/main.rs:96-109 | the beam moves one cell along its own axis and keeps its direction |
| Day16.NextBack | day16/src/main.rs:96-109 | one cell on and one cell back comes home, and different directions lead to different cells |
| Day16.Outgoing | day16/src/main.rs:118-155 | a beam leaves a tile in one or two different directions |
| Day16.MirrorTurns | day16/src/main.rs:118-141 | a mirror turns the beam through a right angle, and the path can be run backwards |
| Day16.MirrorsDisagree | day16/src/main.rs:118-141 | the two mirrors send every beam opposite ways |
| Day16.SplitterSplits | day16/src/main.rs:142-155 | a splitter met on its flat side sends the beam both ways along it |
| Day16.PassesThrough | day16/src/main.rs:142-155 | space, and a splitter met end on, let the beam straight through |
| Day16.FreshMeaning | day16/src/main.rs:157-171 | a beam passes the filter exactly when it is a candidate on the grid not yet recorded |
| Day16.FreshDistinct | day16/src/main.rs:157-171 | different candidates pass the filter as different beams |
| Day16.MarkMeaning | day16/src/main.rs:172-176 | after marking, exactly the old beams and the marked ones are recorded |
| Day16.MarkMissing | day16/src/main.rs:172-176 | marking distinct unrecorded beams records each one anew |
| Day16.CreateEmptyLightDirections | day16/src/main.rs:84-94 | a fresh grid of empty direction sets as large as the tiles |
| Day16.ProcessLightDirection | day16/src/main.rs:111-178 | the beams a beam carries on as that are on the grid and not yet recorded are returned and recorded, and nothing else changes |
| Day16.StepSound | day16/src/main.rs:204-208 | every beam recorded by processing a lit beam is lit from the start |
| Day16.StepClosed | day16/src/main.rs:204-208 | processing the head of the queue records all its followers |
| Day16.StepMissing | day16/src/main.rs:204-208 | each step shrinks the unrecorded pairs by the beams it queues, so the loop ends |
| Day16.FrontierStep | day16/src/main.rs:204-208 | processing the head of the queue keeps the search invariant |
| Day16.ClosedPath | day16/src/main.rs:187-211 | once every recorded beam has its followers recorded, the end of every path from a recorded beam is recorded |
| Day16.FrontierDone | day16/src/main.rs:187-211 | when the queue runs dry, the cells with a direction recorded are exactly the energised ones |
| Day16.EnergisedTiles | day16/src/main.rs:180-185 | at most every cell is energised |
| Day16.EnergisedTilesCount | day16/src/main.rs:180-185 | the count is the number of cells with some direction recorded |
| Day16.ProcessFrom | day16/src/main.rs:187-211 | the answer is the number of cells the beam from the start reaches |
| Day16.PerformProcessing1 | day16/src/main.rs:213-215 | the cells energised by light entering the top left heading right |
| Day16.EdgeStartInward | day16/src/main.rs:217-226 | every start tried is a beam entering from an edge |
| Day16.InwardEdgeTried | day16/src/main.rs:217-226 | every beam entering from an edge is tried |
| Day16.PerformProcessing2 | day16/src/main.rs:217-226 | the answer is the energy of some inward edge beam and at least that of every one |
| Day17.RowOf | day17/src/main.rs:29-39 | a line converts exactly when every character is a decimal digit, each digit becoming its heat loss |
| Day17.RowOfShown | day17/src/main.rs:29-39 | a row of single-digit heat losses written out reads back (round trip) |
| Day17.ParseLine | day17/src/main.rs:26-42 | an empty line is skipped; any other line appends one heat loss per digit as the next row, a non-digit being an error |
| Day17.FinaliseState | day17/src/main.rs:50-54 | the rows become a grid as wide as the widest row, short rows padded with zero heat loss; no cells is an error |
| Day17.TurnsAreQuarterTurns | day17/src/main.rs:183-236 | left and right turns undo each other, leave the axis, differ, and four left turns come home |
| Day17.Candidate | day17/src/main.rs:177-270 | a turn is offered exactly when the run so far allows it (at least the minimum to turn, under the maximum to go on); it moves one cell in the new direction and counts the run as one more straight on, or 1 after a turn |
| Day17.ForcedRunFits | day17/src/main.rs:106-127 | when the run check passes, every cell the crucible is still forced to cross is on the grid |
| Day17.FollowsRun | day17/src/main.rs:177-270 | after any legal move the straight run is between 1 and the maximum |
| Day17.RelaxFacts | day17/src/main.rs:130-174 | after a move is constructed its key is recorded at no more than its cost, no recorded cost rises, nothing else changes; a move is returned exactly when the cost improved and the cell is not the bottom right |
| Day17.RelaxProgress | day17/src/main.rs:130-174 | a constructed move either leaves the table alone or strictly improves it, so the loop ends |
| Day17.AttemptFacts | day17/src/main.rs:183-270 | every turn's attempt records only legal successors at their cost and returns only those it improved |
| Day17.AttemptIsRelax | day17/src/main.rs:183-270 | a legal turn constructs the move into its new cell |
| Day17.NextMovesExpand | day17/src/main.rs:272-295 | after turning left, right and going straight, every legal successor is recorded at no more than its cost, and the moves appended are the improved ones |
| Day17.NextMovesOf | day17/src/main.rs:272-295 | the three attempts run in order, each against the table the previous left, and their moves are appended in that order |
| Day17.ConstructMove | day17/src/main.rs:130-174 | the best-so-far table and the result change exactly as the relaxation of the target says |
| Day17.TurnLeftMove | day17/src/main.rs:183-208 | the table and the result are those of the left-turn attempt |
| Day17.TurnRightMove | day17/src/main.rs:211-236 | the table and the result are those of the right-turn attempt |
| Day17.GoStraightMove | day17/src/main.rs:244-270 | the table and the result are those of the straight-on attempt |
| Day17.MakeNextMoves | day17/src/main.rs:272-295 | the table becomes the expanded one and the surviving moves are appended to the queue |
| Day17.NoStepIntoStartKey | day17/src/main.rs:305-314 | no legal move lands on a key primed at the top left |
| Day17.ReachExtend | day17/src/main.rs:315-323 | a route extends by a legal move, costing the heat of the cell entered |
| Day17.ReachFromStart | day17/src/main.rs:305-314 | one legal move from a primed start is a route |
| Day17.QueuedReaches | day17/src/main.rs:315-323 | a legal move from a queued move ends a route costing that move's cost plus the heat entered |
| Day17.QueueStep | day17/src/main.rs:315-323 | every move in the queue stays the end of a route at its cost after each turn of the loop |
| Day17.TableStep | day17/src/main.rs:315-323 | every recorded cost stays that of some route after each turn of the loop |
| Day17.ClosedStep | day17/src/main.rs:315-323 | every recorded crucible not waiting in the queue has its successors recorded at no more than their cost |
| Day17.SearchStep | day17/src/main.rs:315-323 | one turn of the loop keeps the search invariant |
| Day17.StartSearch | day17/src/main.rs:298-314 | the primed table and queue satisfy the search invariant |
| Day17.RouteBound | day17/src/main.rs:297-336 | with the queue empty, every route of two or more crucibles is recorded at its end at no more than it costs |
| Day17.ArrivalKey | day17/src/main.rs:324-335 | every route to the bottom right is matched by a bottom-right entry costing no more |
| Day17.KeyArrives | day17/src/main.rs:324-335 | every bottom-right entry is the cost of some route there |
| Day17.SearchAnswer | day17/src/main.rs:324-335 | the bottom-right map is empty only when no route arrives, and its least entry is the cheapest route |
| Day17.MinValue | day17/src/main.rs:331-335 | the least value of a map, attained, None exactly when it is empty |
| Day17.RunMoves | day17/src/main.rs:315-323 | the loop runs until the queue is empty, keeping the search invariant |
| Day17.Perform | day17/src/main.rs:297-336 | there is an answer exactly when some route reaches the bottom right, and it is the least heat lost over all such routes |
| Day17.PerformProcessing1 | day17/src/main.rs:338-346 | the least heat lost by a crucible going at most three cells straight |
| Day17.PerformProcessing2 | day17/src/main.rs:348-356 | the least heat lost by an ultra crucible going four to ten cells straight |
| Day18.Letter | day18/src/main.rs:69-75 | each direction's letter reads back as that direction |
| Day18.ParseLine1 | day18/src/main.rs:65-88 | an empty line changes nothing; otherwise a line is accepted exactly when it has a U/D/L/R letter, a number and a colour code, and appends one instruction in the letter's direction, keeping the rest |
| Day18.ParseShownInstruction | day18/src/main.rs:65-88 | a written part 1 instruction reads back as that instruction (round trip) |
| Day18.Substring | day18/src/main.rs:221-224 | the characters from start to end, clamped to the string, exactly end - start of them when in range |
| Day18.CodeOf | day18/src/main.rs:224-230 | each direction's digit reads back as that direction |
| Day18.ParseLine2 | day18/src/main.rs:213-239 | the appended instruction's steps are the hexadecimal value of code characters 1 to 5 and its direction the digit at 6; a bad number before the code is an error |
| Day18.HexValueShowHex | day18/src/main.rs:222 | hexadecimal writing is undone by hexadecimal reading |
| Day18.DecodeEncoded | day18/src/main.rs:221-230 | the colour code of a move decodes to that move |
| Day18.ParseEncodedInstruction | day18/src/main.rs:213-239 | a part 2 line whose colour code encodes a move reads back as that move, whatever letter and number precede it |
| Day18.Delta | day18/src/main.rs:90-97 | one metre: exactly one coordinate moves, by one, horizontally for left and right, positively for down and right |
| Day18.ShiftIsScaledDelta | day18/src/main.rs:108-109 | a move of n metres is the position plus n times the delta |
| Day18.Vertices | day18/src/main.rs:241-259 | the corners start at the origin and each is the previous one moved by its instruction |
| Day18.LowestIsLeast | day18/src/main.rs:99-114 | the running minimum bounds every corner and is attained |
| Day18.HighestIsGreatest | day18/src/main.rs:99-114 | the running maximum bounds every corner and is attained |
| Day18.BoxIsTight | day18/src/main.rs:99-126 | once shifted by the start every corner lies in the box, and each edge of the box touches a corner |
| Day18.CalculateTileAreaBounds | day18/src/main.rs:99-126 | the loop computes the start and side lengths of the tight box |
| Day18.DigCellsDigsRun | day18/src/main.rs:128-144 | digging a run turns exactly its cells into trench of its colour |
| Day18.Dig | day18/src/main.rs:128-144 | the digger ends where the move ends and the grid becomes the one with the run dug |
| Day18.PaintedIsPath | day18/src/main.rs:146-171 | a tile is trench exactly when it is the start of a non-empty plan or on one of the runs dug |
| Day18.FinaliseState1 | day18/src/main.rs:146-171 | a grid the size of the box with the start and every run dug, the instructions kept |
| Day18.RegionStep | day18/src/main.rs:185-202 | an undug neighbour of a reachable cell is reachable |
| Day18.AddNext | day18/src/main.rs:173-183 | a candidate off the grid is an error; otherwise it is queued exactly when undug and unvisited |
| Day18.VisitNeighbours | day18/src/main.rs:197-201 | the undug, unvisited neighbours are queued up, down, left, right, an error exactly when some neighbour is off the grid |
| Day18.FillDone | day18/src/main.rs:185-202 | a finished fill has visited exactly the cells reachable from the inside tile, and none reaches the edge |
| Day18.PerformProcessing1 | day18/src/main.rs:185-206 | an error exactly when the region leaks to the edge; otherwise the region's size plus the trench length |
| Day18.ShoelaceIsSignedArea | day18/src/main.rs:264-268 | the fold started from the last vertex is minus twice the signed area |
| Day18.PerformProcessing2 | day18/src/main.rs:261-280 | an error exactly when there are no vertices; otherwise half the absolute doubled area, plus half the trench, plus one |
| Day18.RectangleLagoon | day18/src/main.rs:261-280 | a rectangle a right, b down, a left, b up digs an (a+1) by (b+1) lagoon |
| Day19.ParseCheck | day19/src/main.rs:75-81 | '>' and '<' give the two comparisons with the amount; any other delimiter is an error |
| Day19.ParseDestination | day19/src/main.rs:83-89 | "A" exactly accepts, "R" exactly rejects, any other name forwards to the workflow of that name |
| Day19.LoadWorkflow | day19/src/main.rs:91-124 | the word loop computes the workflow the line describes: its name, its rules in order and the last bare destination as the unmatched one; a missing name, amount, destination or unmatched destination is an error |
| Day19.WorkflowOfShown | day19/src/main.rs:91-124 | a written workflow reads back as itself (round trip) |
| Day19.LoadPart | day19/src/main.rs:128-140 | the word loop computes the part the line describes, each attribute's initial bound to its rating, a later one overriding an earlier |
| Day19.PartOfShown | day19/src/main.rs:128-140 | a written part reads back with its ratings (round trip) |
| Day19.ParseLine | day19/src/main.rs:142-158 | an empty line switches to parts; a workflow line is filed under its name, a part line appended with the next index, nothing else changing |
| Day19.PartsStayParts | day19/src/main.rs:142-158 | once in parts, every later line is read as a part |
| Day19.ValuesSumRemove | day19/src/main.rs:218-221 | the sum of a part's ratings does not depend on the order they are visited |
| Day19.FirstMatchIsFirst | day19/src/main.rs:180-203 | a part goes to the destination of the first rule that fires, to none when every rule passes it by, and fails at a rule on a missing attribute reached first |
| Day19.StepOf | day19/src/main.rs:180-205 | a workflow sends a part only to one of its own destinations |
| Day19.FindDestination | day19/src/main.rs:180-205 | the rule loop with its break computes where the workflow sends the part |
| Day19.RoutePart | day19/src/main.rs:171-216 | following workflows from "in" ends in acceptance or rejection as the routing says; an unknown workflow or a missing attribute is an error |
| Day19.AcceptedPartsMembers | day19/src/main.rs:170-216 | routing fails exactly when some part fails; otherwise the accepted parts are exactly those routed to "A" |
| Day19.AcceptedPartsFirstError | day19/src/main.rs:170-216 | the first part that fails ends the processing with its error |
| Day19.XmasRating | day19/src/main.rs:218-221 | an x, m, a, s part rates the sum of those four |
| Day19.PerformProcessing1 | day19/src/main.rs:167-223 | the sum of the ratings of the accepted parts, or the first routing error |
| Day19Ranges.MatchRule | day19/src/main.rs:240-268 | a rating of the range lies in the matched piece exactly when the rule's comparison holds and in the unmatched piece exactly when it fails; both pieces lie inside the range and at least one exists |
| Day19Ranges.CountPositive | day19/src/main.rs:372-381 | a part is counted exactly when some accepted box holds it |
| Day19Ranges.Dispatch | day19/src/main.rs:271-298 | an accepted box is kept, a box for a workflow is queued there, a rejected one dropped, and nothing else happens |
| Day19Ranges.SplitInside | day19/src/main.rs:313-345 | every piece cut from a box lies inside it and is not empty |
| Day19Ranges.SplitPoint | day19/src/main.rs:313-345 | a part in the box ends up exactly where a single part with its ratings goes in part 1 |
| Day19Ranges.SplitError | day19/src/main.rs:313-345 | when the rules fail on a non-empty box, some part in the box fails in part 1 too |
| Day19Ranges.ProcessNext | day19/src/main.rs:313-345 | the accepted pieces are added to the accepted list and the forwarded ones to the back of the queue, as cutting the box along the workflow's rules gives; an unknown workflow or missing attribute is an error |
| Day19Ranges.XmasVolume | day19/src/main.rs:374-379 | an x, m, a, s box holds the product of its four widths |
| Day19Ranges.VolumePositive | day19/src/main.rs:374-379 | a box with no empty range holds at least one part |
| Day19Ranges.TotalVolume | day19/src/main.rs:371-381 | the summed volumes count at least one part per non-empty box |
| Day19Ranges.SplitWeight | day19/src/main.rs:313-345 | cutting a box queues pieces only at the workflow's own later destinations, so the queue's weight is bounded |
| Day19Ranges.PumpStep | day19/src/main.rs:363-370 | one turn of the pump keeps its invariant and lowers the queue's weight, so the loop ends |
| Day19Ranges.PumpError | day19/src/main.rs:363-370 | when the pump fails on a box, some starting part fails in part 1 |
| Day19Ranges.PumpDone | day19/src/main.rs:347-383 | with the queue empty, every starting part routes without error and the accepted boxes hold each accepted part exactly once and no other |
| Day19Ranges.PerformProcessing2 | day19/src/main.rs:347-383 | an error exactly when some part of 1..4000 ratings fails in part 1; otherwise the answer is the total volume of the accepted boxes, which hold each part that part 1 accepts exactly once and no other |
| Day21.TileOf | day21/src/main.rs:58-65 | '.', '#' and 'S' are the only tiles; 'S' alone marks the start, and it is a plot |
| Day21.TileOfSymbol | day21/src/main.rs:18-25 | every tile reads back from its character |
| Day21.ParseLine | day21/src/main.rs:54-73 | an empty line changes nothing; a line is accepted exactly when every character is a tile, appending its tiles as a new line and moving the start to its last 'S' |
| Day21.FinaliseState | day21/src/main.rs:81-90 | an error exactly when no start was seen; otherwise the lines padded with plots into a grid, the start and step counts kept |
| Day21.PlotNeighboursMeaning | day21/src/main.rs:92-101 | the candidates are exactly the in-bounds plots one step up, down, left or right |
| Day21.StepMeaning | day21/src/main.rs:103-117 | a step holds exactly the plots next to some position held before |
| Day21.MakeStep | day21/src/main.rs:92-101 | adds exactly the plot neighbours of the position |
| Day21.StepAll | day21/src/main.rs:109-113 | every position held steps into a fresh set, giving exactly the next step |
| Day21.PerformWalk | day21/src/main.rs:103-117 | the number of positions held after the given number of steps from the start |
| Day21.ReachPlots | day21/src/main.rs:103-117 | every position ever held after the start is a plot in the garden |
| Day21.Predecessor | day21/src/main.rs:103-117 | a position held after a step was reached from a touching position held before |
| Day21.ReachNext | day21/src/main.rs:103-117 | a plot next to a position held is held one step later |
| Day21.ReachParity | day21/src/main.rs:103-117 | after n steps only positions whose x + y has the parity of the start's plus n are held |
| Day21.ReachReturns | day21/src/main.rs:103-117 | a position held is held again two steps later |
| Day21.PerformProcessing | day21/src/main.rs:119-121 | part one's answer is the walk's count |
| Day21.TruncatedRemainder | day21/src/main.rs:130-136 | Rust's remainder takes the dividend's sign and lies strictly between minus and plus the divisor |
| Day21.Wrap | day21/src/main.rs:130-141 | one axis wraps to the Euclidean remainder, inside the side |
| Day21.NegativeRemainder | day21/src/main.rs:130-141 | a negative truncated remainder moved up by the side is the Euclidean remainder |
| Day21.WrapRepeats | day21/src/main.rs:129-143 | a whole side added wraps to the same place |
| Day21.PositionInBounds | day21/src/main.rs:129-143 | each coordinate wraps to its Euclidean remainder, inside the garden |
| Day21.PositionInBoundsExamples | day21/src/main.rs:364-375 | the nine cases of the unit test on a garden of side 3 |
| Day21.TileAtRepeats | day21/src/main.rs:145-157 | moving a whole garden width or height lands on the same tile |
| Day21.TileAtInside | day21/src/main.rs:145-157 | inside the original garden the repeated garden is the garden |
| Day21.TryMakeStep | day21/src/main.rs:145-157 | the unwrapped candidate is added exactly when its wrapped tile is a plot |
| Day21.WrappedNeighboursMeaning | day21/src/main.rs:159-173 | the candidates are exactly the cells one step away whose wrapped tile is a plot |
| Day21.NeighboursAgree | day21/src/main.rs:92-101 | inside the garden, part two's plot neighbours are part one's |
| Day21.KeepPlot | day21/src/main.rs:153-156 | the cell is kept exactly when its wrapped tile is a plot |
| Day21.MakeStep2 | day21/src/main.rs:159-173 | adds exactly the plot neighbours in the repeated garden |
| Day21.Step2Meaning | day21/src/main.rs:175-195 | a step holds exactly the repeated-garden plots next to some position held before |
| Day21.StepAll2 | day21/src/main.rs:183-187 | every position held steps into a fresh set, giving exactly the next step |
| Day21.PerformWalk2 | day21/src/main.rs:175-195 | one count per step, the i-th being the number of positions held after i + 1 steps |
| Day21.Reach2Parity | day21/src/main.rs:175-195 | the parity argument of part one holds in the repeated garden |
| Day21.PerformProcessing2 | day21/src/main.rs:199-202 | the number of steps wanted and the walk's counts |
| Day21.GetDifferences | day21/src/main.rs:214-222 | one fewer value, each the later neighbour minus the earlier |
| Day21.DifferencesRebuild | day21/src/main.rs:214-222 | every value is the first plus the differences before it |
| Day21.RepeatSizeLeast | day21/src/main.rs:226-269 | the size found is the least that repeats, its windows fit and its window is returned; none found exactly when no size fits |
| Day21.DifferencesBack | day21/src/main.rs:235-242 | one window of differences c apart, an error exactly when an index would underflow |
| Day21.CalculateRepeatSize | day21/src/main.rs:226-269 | the loop over sizes 1, 2, ... computes the least repeating size |
| Day21.TrySize | day21/src/main.rs:230-268 | one round either settles the search or passes it to the next size unchanged |
| Day21.CreateRepeatInfos | day21/src/main.rs:276-287 | the two sequences paired from their ends, as many pairs as the shorter holds |
| Day21.ExtendedNext | day21/src/main.rs:298-304 | each extrapolation step adds the repeat's start difference plus its growth times the multiplier to the difference, and the difference to the total |
| Day21.ExtendedContinuesRepeat | day21/src/main.rs:298-304 | the extrapolation continues the repeat it found: one size later, the change of difference grows by the repeat's growth |
| Day21.RepeatSizeBounds | day21/src/main.rs:226-269 | a repeat found has size at least one and windows inside the differences |
| Day21.AsUsize | day21/src/main.rs:306 | the final cast reads the value as a 64-bit unsigned number, unchanged when already one |
| Day21.Extrapolation | day21/src/main.rs:289-307 | an answer exactly when a repeat is found and no fewer values are wanted than known |
| Day21.CalcResult2Internal | day21/src/main.rs:289-307 | the differences, the repeat and the extrapolation loop compute the extrapolation |
| Day21.Extend | day21/src/main.rs:298-304 | the loop computes the extrapolated total and difference |
| Day21.CalcResult2 | day21/src/main.rs:309-311 | the walk's counts extrapolated to the number of steps asked for |
| Day22.OverlapsMeaning | day22/src/main.rs:44-49 | two bricks overlap in x and y exactly when some column is covered by both |
| Day22.OverlapsSymmetric | day22/src/main.rs:44-49 | overlap is symmetric |
| Day22.ParseLine | day22/src/main.rs:68-86 | an empty line changes nothing; otherwise an error exactly when the six numbers cannot be read, else the brick with those corners, no links, and the next id is appended |
| Day22.ParsedIdsInOrder | day22/src/main.rs:68-86 | the bricks read carry ids 0, 1, 2, ... in order |
| Day22.ParseLineShowBrick | day22/src/main.rs:68-86 | a written brick reads back as that brick (round trip) |
| Day22.SortByZYXMeaning | day22/src/main.rs:88-93 | equal exactly when the lowest z, y and x agree; less exactly when lexicographically smaller on (z, y, x) |
| Day22.SortByZYXAntisymmetric | day22/src/main.rs:88-93 | swapping the bricks swaps less and greater and keeps equal |
| Day22.SortByZYXTransitive | day22/src/main.rs:88-93 | the ordering is transitive |
| Day22.SortBricks | day22/src/main.rs:101-107 | the result is sorted by (z, y, x) and a permutation of the bricks |
| Day22.FinaliseState | day22/src/main.rs:101-107 | never an error; the bricks sorted by (z, y, x), a permutation of the input |
| Day22.SortedIdsDistinct | day22/src/main.rs:101-107 | sorting bricks with distinct ids keeps them distinct |
| Day22.SupportMeaning | day22/src/main.rs:113-136 | the level found is the highest top among overlapping stacked bricks (0 when none), and the supporters are exactly the overlapping bricks at that top |
| Day22.RaiseSupporters | day22/src/main.rs:138-141 | each supporter records the new brick as one it supports; a supporter missing from the stack is an error |
| Day22.PlaceBrick | day22/src/main.rs:109-161 | the stack becomes the one with the brick placed |
| Day22.PlacedMeaning | day22/src/main.rs:109-161 | the brick is dropped to one above the level found with its shape and column kept, it is supported by exactly the supporters, they record it, and no other brick changes |
| Day22.PerformProcessing | day22/src/main.rs:163-172 | every brick is placed in turn |
| Day22.PlacedLinked | day22/src/main.rs:109-161 | placing a brick keeps every brick resting directly on its supporters, and the two directions of support mirror each other |
| Day22.SettleLinked | day22/src/main.rs:163-172 | the settled stack holds every brick, each resting on its supporters, with support links mirrored |
| Day22.ProcessedLinked | day22/src/main.rs:68-172 | the whole pipeline from lines to settled stack keeps the links consistent |
| Day22.CanDisintegrate | day22/src/main.rs:177-184 | a brick can be removed exactly when every brick it supports has another supporter |
| Day22.CalcResult | day22/src/main.rs:174-189 | the number of removable bricks |
| Day22.FallenClosed | day22/src/main.rs:191-222 | the bricks that fall include every brick all of whose supporters fall |
| Day22.FallenSupported | day22/src/main.rs:191-222 | every brick that falls other than the one removed rests only on fallen bricks |
| Day22.RemovableIffNothingFalls | day22/src/main.rs:174-222 | a brick is removable in part 1 exactly when removing it makes no other brick fall in part 2 |
| Day22.PushUnsupported | day22/src/main.rs:205-213 | the queue gains exactly the supported bricks whose supporters have all fallen |
| Day22.Cascade | day22/src/main.rs:196-217 | the loop computes exactly the bricks that fall when the brick is removed |
| Day22.CalcResult2 | day22/src/main.rs:191-222 | the sum over bricks of the others that fall when it is removed |
| Day23.Opposite | day23/src/main.rs:19-28 | the opposite direction differs and points exactly the other way |
| Day23.OppositeInvolution | day23/src/main.rs:19-28 | turning round twice gives the direction back |
| Day23.TileOf | day23/src/main.rs:75-91 | '.', '#', '^', '>', 'v' and '<' are exactly the tiles, each drawn with its own character |
| Day23.TileOfSymbol | day23/src/main.rs:37-56 | every tile reads back from its character |
| Day23.RowOfDrawn | day23/src/main.rs:71-96 | a drawn row reads back as that row (round trip) |
| Day23.ParseLine | day23/src/main.rs:71-96 | an empty line changes nothing; an error exactly when some character is not a tile; otherwise the line's tiles are the next row |
| Day23.GetNextCoord | day23/src/main.rs:293-304 | the neighbour in the direction, None exactly when it is off the grid |
| Day23.GetNextCoordBack | day23/src/main.rs:293-304 | stepping on and back again comes home |
| Day23.IsForestOrEdge | day23/src/main.rs:306-314 | true off the grid, and on it exactly when the cell is forest |
| Day23.IsCorridor | day23/src/main.rs:316-343 | a corridor is a tile of the accepted kind with exactly two open neighbours |
| Day23.CorridorHasTwoWays | day23/src/main.rs:316-343 | a corridor tile is open in exactly two different directions |
| Day23.FirstOtherMeaning | day23/src/main.rs:345-372 | the first open direction (north, south, east, west) other than back, None exactly when back is the only way |
| Day23.GetNextInCorridor | day23/src/main.rs:345-372 | the next cell is one step on in an open direction that is not back |
| Day23.CorridorContinues | day23/src/main.rs:345-372 | in a corridor the way on exists and is the only open direction besides back |
| Day23.CorridorEnd | day23/src/main.rs:225-244 | a corridor walk ends on the grid at a tile that is not a corridor, having counted at least the steps so far |
| Day23.WalkToEndOfCorridor | day23/src/main.rs:225-244 | the loop follows the corridor to its end, counting steps from 1 |
| Day23.AdjacentCoordsAndDirections | day23/src/main.rs:201-223 | exactly the on-grid neighbours with their directions |
| Day23.FirstMoves | day23/src/main.rs:249-266 | from a path every on-grid neighbour; from a slope only the one downhill |
| Day23.ExpandMeaning | day23/src/main.rs:118-162 | a walk grows into exactly the unvisited, non-forest candidates, those reaching the end being finished rather than carried on |
| Day23.ContinuationsSmaller | day23/src/main.rs:118-162 | every walk carried on has fewer unvisited cells left, so the pump ends |
| Day23.CalculateNextSteps | day23/src/main.rs:118-162 | appends exactly the walks carried on and the walks finished |
| Day23.Generation | day23/src/main.rs:183-195 | one round of the pump keeps the set of hikes still to be found and shrinks every walk's room |
| Day23.DoWalks | day23/src/main.rs:164-199 | the finished walks are exactly the hikes from the start to the end |
| Day23.HikesFinish | day23/src/main.rs:164-199 | every hike ends at the end cell, has visited more cells and taken more steps than where it began |
| Day23.MaxSteps | day23/src/main.rs:278 | the most steps among the walks, attained, None exactly when there are none |
| Day23.PerformProcessing | day23/src/main.rs:246-279 | on a grid too small to have an end, an error; otherwise an answer exactly when some hike reaches the end, and it is the longest hike |
| Day23.FollowCorridorStops | day23/src/main.rs:399-412 | following a corridor stops at the end cell or a tile that is not a corridor, on open ground, counting the steps taken |
| Day23.NextVisit | day23/src/main.rs:374-442 | a visit moves to an on-grid, non-forest cell it had not visited, which it then has, with more steps |
| Day23.RaiseMeaning | day23/src/main.rs:436-441 | the recorded best for the key becomes the larger of the old and the new, and nothing else changes |
| Day23.Pushed | day23/src/main.rs:430-434 | a new visit goes at the front of the stack, nothing when there is none |
| Day23.GoToNext | day23/src/main.rs:374-442 | the stack gains the next visit in the direction at its front, and the best for its key is raised to its steps |
| Day23.LookFrom | day23/src/main.rs:382-427 | the checks and corridor walk compute the next visit in the direction |
| Day23.FollowCorridorLoop | day23/src/main.rs:397-412 | the loop follows the corridor as the definition says |
| Day23.NextVisitSmaller | day23/src/main.rs:374-442 | each new visit has fewer unvisited cells left, so the search ends |
| Day23.DirsUnfold | day23/src/main.rs:491-526 | a visit's descendants are those of its four directions in turn |
| Day23.BestGrows | day23/src/main.rs:436-441 | after raising, every recorded key holds the most steps of the visits that reached it |
| Day23.Explore | day23/src/main.rs:491-526 | one visit's four directions keep the account of visits still to be produced |
| Day23.PerformProcessing2 | day23/src/main.rs:473-534 | on a grid too small to have an end, an error; otherwise an answer exactly when some visit reaches the end heading south, and it is the most steps of any such visit |
| Day23b.Candidates | day23b/src/main.rs:88-104 | from a path every on-grid neighbour; from a slope only the cell downhill when on the grid; from forest none |
| Day23b.ExpandMeaning | day23b/src/main.rs:105-131 | a walk grows into exactly the unvisited, non-forest candidates, those reaching the end being finished rather than carried on |
| Day23b.ContinuationsSmaller | day23b/src/main.rs:85-133 | every walk carried on has fewer unvisited cells left, so the pump ends |
| Day23b.CalculateNextSteps | day23b/src/main.rs:85-133 | appends exactly the walks carried on and the walks finished |
| Day23b.Generation | day23b/src/main.rs:145-155 | one round of the pump keeps the set of hikes still to be found and shrinks every walk's room |
| Day23b.DoWalks | day23b/src/main.rs:135-158 | the finished walks are exactly the hikes from the start to the end |
| Day23b.HikesFinish | day23b/src/main.rs:135-158 | every hike ends at the end cell having visited more cells than where it began |
| Day23b.MaxLength | day23b/src/main.rs:164-171 | the most cells other than the start among the walks, attained, None exactly when there are none |
| Day23b.PerformProcessing | day23b/src/main.rs:160-173 | on a grid too small to have an end, an error; otherwise an answer exactly when some hike reaches the end, and it is the longest |
| Day23b.Step | day23b/src/main.rs:193-206 | a step exists exactly when the neighbour is on the grid, unvisited and not forest, and is one more step to it, recording the direction of arrival |
| Day23b.NextVisit | day23b/src/main.rs:207-229 | the step is taken unless the cells visited so far were all seen before on arrival at that cell from that direction |
| Day23b.RaiseMeaning | day23b/src/main.rs:239-250 | the record for the key keeps the larger step count and gains the cells visited; no other key changes |
| Day23b.Pushed | day23b/src/main.rs:233-238 | a new visit goes at the front of the stack, nothing when there is none |
| Day23b.GoToNext | day23b/src/main.rs:187-251 | the stack gains the next visit at its front and the record for its key is raised |
| Day23b.StepSmaller | day23b/src/main.rs:187-251 | each new visit has fewer unvisited cells left, so the search ends |
| Day23b.ProducedGrows | day23b/src/main.rs:187-251 | every visit produced has visited more cells, on open ground, its steps counting the cells added |
| Day23b.Explore | day23b/src/main.rs:266-271 | the four directions of one visit keep the account of visits produced |
| Day23b.PerformProcessing2 | day23b/src/main.rs:253-281 | on a grid too small to have an end, an error; no visit reaching the end heading south is an error; an answer is the steps of some visit reaching the end heading south |
| Day23b.ArrivalStepsCountCells | day23b/src/main.rs:187-251 | every visit's steps count the cells it visited besides the start |
| Day24.ParseLine | day24/src/main.rs:53-70 | an empty line changes nothing; an error exactly when the six numbers cannot be read; otherwise the hailstone with that position and velocity and the next id from 1 is appended, the test area kept |
| Day24.ParsedIdsFromOne | day24/src/main.rs:53-70 | the hailstones read carry ids 1, 2, 3, ... in order |
| Day24.ReadStoneShowStone | day24/src/main.rs:55-61 | a written hailstone's six numbers read back (round trip) |
| Day24.ParseLineShowStone | day24/src/main.rs:53-70 | a written hailstone line appends exactly that hailstone |
| Day24.AsRational | day24/src/main.rs:184-186 | the integer as an exact rational |
| Day24.Intersect | day24/src/main.rs:191-225 | no crossing exactly when the corrected x-y velocities are parallel (zero determinant); otherwise the point where the first stone is at the time returned |
| Day24.CrossingOnSecondPath | day24/src/main.rs:191-225 | the crossing returned also lies on the second stone's corrected path |
| Day24.CrossingUnique | day24/src/main.rs:191-225 | any time at which the first stone's path meets the second's is the time returned |
| Day24.Meet | day24/src/main.rs:240-255 | the three crossings with stone 0 exist and coincide exactly when a meeting is returned, with their three times and the common point |
| Day24.SearchCorrections | day24/src/main.rs:233-274 | fewer than four stones is an error; otherwise an answer exactly when some correction in the range is accepted, and it is the answer of the first accepted in x, y, z order |
| Day24.PerformProcessing2 | day24/src/main.rs:227-276 | the search over corrections in [-337, 337] with the same outcome |
| Day25b.Link | day25b/src/main.rs:58-72 | linking adds the other component, links the two both ways, and keeps one connection per pair of names |
| Day25b.AddLinks | day25b/src/main.rs:58-73 | linking a name to each word adds exactly those components and links, one connection per new pair |
| Day25b.ParseLine | day25b/src/main.rs:51-76 | an empty line changes nothing; an error exactly when the line has no first word; otherwise the named component and every other word are present and linked to it both ways, no other link added |
| Day25b.ParsedValid | day25b/src/main.rs:51-76 | the links read are symmetric and every connection joins two known components |
| Day25b.ReachSymmetric | day25b/src/main.rs:100-157 | being connected avoiding the cut wires is symmetric |
| Day25b.ReachTransitive | day25b/src/main.rs:100-157 | being connected avoiding the cut wires is transitive |
| Day25b.GroupIsComponent | day25b/src/main.rs:100-157 | a group found holds exactly the components connected to its first member |
| Day25b.GroupingAtMost | day25b/src/main.rs:128-141 | a partial grouping has no more groups than the full one |
| Day25b.SearchDone | day25b/src/main.rs:108-156 | when the search ends each group is closed and connected, and every component not left over is grouped |
| Day25b.TakeVisit | day25b/src/main.rs:111-134 | taking a component into the current group keeps the search invariant |
| Day25b.PushNeighbours | day25b/src/main.rs:124-133 | the unvisited neighbours not across a cut wire are pushed at the front |
| Day25b.VisitComponent | day25b/src/main.rs:109-134 | one visit keeps the search invariant and removes the visited name |
| Day25b.GetGroups | day25b/src/main.rs:100-157 | no components is an error; otherwise groups exactly when the components split into the given number of groups avoiding the cut, and then the groups are the connected groups covering every component |
| Day25b.SplitSizes | day25b/src/main.rs:184-185 | the two groups' sizes add up to the number of components |
| Day25b.ListConnections | day25b/src/main.rs:162-164 | the list holds every connection exactly once |
| Day25b.TryCut | day25b/src/main.rs:171-176 | an answer exactly when cutting the three wires splits the components into two groups, and it is the product of their sizes |
| Day25b.TryThird | day25b/src/main.rs:169-177 | the innermost loop finds a third wire that splits the components with the two chosen, or none does |
| Day25b.TrySecond | day25b/src/main.rs:166-178 | the middle loop finds a pair of later wires that splits the components with the first, or none does |
| Day25b.FindCut | day25b/src/main.rs:165-179 | the triple loop finds three distinct wires that split the components, or no three do |
| Day25b.PerformProcessing | day25b/src/main.rs:159-187 | an answer is the product of the two group sizes after cutting some three wires; an error only when no three wires split the components in two |


## Left out

- Reading the input file, the generic `process` driver, every `main`, printing, `Display` and timing. The model folds `parse_line` over a given sequence of lines (`Processor.ParseLines`) and starts each stage from a given state.
- Day20.Network.PushButton: some circuits never quiesce, and the source loops forever on them. The model bounds a press by a `fuel` count of deliveries and reports an unfinished press. Day20.Network.PerformProcessing1 and Day20b.Network.PerformProcessing1 answer None when a press does not finish.
- Day20.Network.PerformProcessing2: the source presses until a low pulse reaches "rx". The model stops after `maxPresses` presses and answers None when none qualifies within them; Day20.FirstLowToTargetComplete shows it answers whenever a qualifying press within the limit finishes.
- Day20b.Network.PushButton: bounded by `fuel` as in the first version.
- Day20b.Network.PerformProcessing2: bounded by `maxPresses`, an error when not every watched input has been High within them; Day20b.CadencesComplete shows it succeeds whenever they have, their presses finish and the gate reads. The gate ("dr") and the four watched names (mp, qt, qb, ng) are parameters rather than the input-specific constants of the source.
- Day8.CalcSteps, Day8.PerformProcessing1 and Day8.PerformProcessing2: the walk gives up after `fuel` steps (OutOfFuel), where the source loops forever on a map that never reaches its target.
- Day23.PerformProcessing and Day23.PerformProcessing2: the corridor walk gives up after `fuel` moves. The source would loop on a corridor that is a closed ring.
- Day23.FirstMoves and Day23b.Candidates: a north slope on row 0 or a west slope on column 0 makes the source compute `0 - 1` in usize. A debug build panics there, and a release build wraps to a coordinate off the map, which then gives no move. Unlike the other usize underflows, which are modelled as `Err`, these two follow the release build: such a slope has no move. Maps whose border is forest, apart from the start and the end, never reach that case.
- Day19.RoutePart, Day19.PerformProcessing1 and Day19Ranges.PerformProcessing2 require the workflows to be ranked (a ghost rank that decreases along every rule). Without it the source loops forever on a cycle of workflows.
- Fixed-width integers are modelled as unbounded `int`/`nat`, so overflow and wrap-around are not modelled:
  - the i64 sum and product of TestBin.Evaluate;
  - the low × high product of the day 20 answers;
  - the u32 part ids and u64 part numbers of day 3;
  - the i64 sequences of day 9;
  - the isize coordinates and `Rational64` arithmetic of day 24 (modelled with `real`);
  - the u64 totals of days 4, 6, 11, 12 and 19.

  Parsing keeps the source's bounds: a number too large for its type is a parse error.
- Panics are modelled as `Err` results, with the source's message where it has one. This covers `unwrap`/`expect` on missing data, such as a watched input absent from the gate's memory in Day20b.Network.RecordHighs, the unknown colour of Day2.PerformProcessing2, and the smudge count of Day13.PerformProcessing2. It also covers usize subtractions that underflow: Day6.PerformProcessing2 at time 0, and the end coordinates of Day23.PerformProcessing and Day23b.PerformProcessing on too-small maps.
- Day6.FindWinningCombinations requires `race.time >= 1`: the source's `time - 1` underflows at 0. Day6.PerformProcessing1 reports that case as an error.
- Day5.PerformProcessing1 and Day5Ranges.PerformProcessing2 require every map's `source_start + length` to be positive, where the source's usize `source_start + length - 1` would underflow. Day5Ranges.PerformProcessing2 also requires the seven mappings.
- Numbers.Trim and Numbers.IsWhitespace accept only ASCII whitespace (tab through carriage return, and space). Rust's `str::trim` also strips Unicode whitespace, which the inputs do not contain.
- The standard sort is stable; the sorts of day 5 (`finalise_state`), day 7 (Day7.PerformProcessing) and day 22 (Day22.SortBricks) are proved to sort and permute, but not to keep the order of equal elements.
- Day7.CompareCardsTransitive holds for hands of equal length, which every parsed hand is (five cards).
- Day10.PerformProcessing2 proves only that its answer counts a set of grid tiles off the loop, not that these are exactly the tiles the loop encloses.
- Day14.FinalLoad and Day14.PerformProcessing2: the repetition detection is a heuristic. The model proves that the answer is the north load after some number of spin cycles between the search floor and the investigated cycles, not that it is the load after a billion cycles.
- Day21.CalcResult2 and Day21.Extrapolation: the repeat detection and extrapolation are heuristics. The model states what the extrapolation computes from the measured counts and that a repeat found is the smallest; it does not prove the extrapolated number is the reachable-plot count.
- Day23b.PerformProcessing2: the search prunes visits by the best steps recorded per (cell, direction). The model proves its answer is the length of some visit reaching the end, not that it is the longest.
- Day25b.PerformProcessing requires the component map to be symmetric and every wire's start to be a component, which every parsed state satisfies (Day25b.ParsedValid). The source iterates a hash set, so which cut it finds first is unspecified; the model proves only that the answer comes from some three-wire cut and that an error means no three wires split the components.
- Day22.CalcResult requires every brick a stacked brick supports to be in the stack (`Closed`), and Day22.CalcResult2 requires the support links to run both ways (`Linked`). Day22.ProcessedLinked proves the second of every stack settled from parsed, sorted lines. The source assumes both silently.
- Day18.PerformProcessing1 requires the dug area to be a valid grid. The source's panic when the flood fill reaches the edge is an error.
- Day16.PerformProcessing1, Day16.PerformProcessing2, Day17.PerformProcessing1 and Day17.PerformProcessing2 require a non-empty grid, which `build_cells` guarantees.
- Day17: the search primes the top-left cell's table with keys that no legal move reaches, as the source does. The proved answer is still the cheapest route.
- Day 24 part one (f64 line intersection with a test area) and all of `day24b` (f64 with epsilon checks): floating point is not modelled. Day 24 part two searches the source's own range, 337.
- The regular expression of day 1: the leftmost and rightmost digit-or-word searches are specified directly.
- Day 12b's parsing and expansion are those of day 12, reused from module `Day12`.
- The identity templates `day15` and `day25` have no logic. Day 25 is modelled through `day25b`.
- The memo tables of days 12 and 12b are modelled as maps; their performance is not modelled, only that each stored count is the count of its key.


## Findings

Each row below comes from a natural contract that would not verify against the code as written. Each row names a member that models the code as written, with a lemma exhibiting the input. It also names a corrected member, about which the intended property is proved.

| source | as written | input that shows it | evidently intended | confidence | as-written member | corrected member |
|---|---|---|---|---|---|---|
| day6/src/main.rs:113-119 | the holds tried are `1..time - 1`, which stops before `time - 1` | race of 7 ms with record 5: hold 6 goes 6 mm and wins, yet 5 winning holds are counted instead of 6 | every hold from 1 to `time - 1` is tried; the comment only means to skip 0 and `time` | not executed | Day6.MissedLastHold | Day6.FindWinningCombinationsCorrected |
| day6/src/main.rs:157-172 | part two searches the same `1..time - 1` range for its first and last winning holds | race of 7 ms with record 5: answers 5 instead of 6 | the last winning hold may be `time - 1` | not executed | Day6.MissedLastHoldPartTwo | Day6.PerformProcessing2Corrected |
| day12b/src/main.rs:152-156 | the last group is accepted outright when exactly as many conditions remain as the group is long | "#.# 3": counted 1, but no arrangement exists | the remaining conditions must also all be non-operational | not executed | Day12b.LastGroupFillsRest | Day12b.CorrectedCounts |
| day12b/src/main.rs:164-179 | when the group's window holds an operational, the search jumps past the whole non-operational run before it | "#.## 2": counted 1, but the leading '#' can start no group of 2, so no arrangement exists | the jump must not pass a damaged condition, which has to start a group | not executed | Day12b.WindowJumpDropsDamaged | Day12b.CorrectedCounts |
| day12b/src/main.rs:236-246 | the group is shifted by one only when the condition after it is not operational | "?.? 1": counted 1, but there are two arrangements ("#.." and "..#") | an unknown first condition may always be operational, whatever follows the group | not executed | Day12b.ShiftSkippedBeforeOperational | Day12b.CorrectedCounts |
| day12b/src/main.rs:181-184 | for the last group, a damaged condition after the window gives 0 before the shift is tried | "?.# 1": counted 0, but "..#" is an arrangement | a damaged condition after the window only rules out placing the group here, not shifting it | not executed | Day12b.LastGroupCheckStopsShift | Day12b.CorrectedCounts |
