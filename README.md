# Game 24 — a verified model

A Dafny model of the logic of a browser "24" game. Four numbers from 1 to 9
are combined two at a time with `+`, `-`, `×` and exact `÷` until one tile
remains, and that tile should be 24. The model covers:

- **The solver** (`hasSolution`). It lives in modules `Expressions`,
  `Permutations` and `Solver`. It tries every ordering of the four numbers,
  every triple of operators and three groupings. Each candidate is evaluated
  the way the game does it: as a token list, converted to postfix by a
  shunting-yard pass, then evaluated on a value stack. A division by zero,
  or one that is not exact, discards the candidate. The game and the dump
  script carry two copies of this code. On the token lists the solver builds
  they behave the same, so one model stands for both.
- **Seeded generation** (`Seeded`, `DailyGen`, `DumpDaily`). This is the
  linear congruential generator `state = (state * 9301 + 49297) % 233280`,
  with JavaScript's truncating `%`. The game and the dump script use it
  differently, and each is modelled as written:
  - **The game** (`DailyGen`). Its date seed is `year * 10000 + month * 100 + day`. Its `generateSeededPuzzle` retries at `seed + 1000` until the solver accepts. Its five daily puzzles use the seeds `seed + i`.
  - **The dump script** (`DumpDaily`). Its date seed is `y * 1000000 + m * 10000 + day * 100`. It takes one attempt and records the verdict. Its five seeds are `seed + i * 1000`.
- **The `Game24` session** (`Session`, `Game`).
  - Class `Game.Game24` holds the fields the game logic reads and writes. Each of its methods is proved to leave the object in the state that a function of module `Session` computes from the old state.
  - The properties of the game are lemmas about those functions: undo reverts a move, the penalty is charged at most once, the daily sequence advances and completes, and so on.
  - The invariant kept by every method is `Session.SessionValid`. It says: at most two distinct selected tiles, each naming a tile; one tile fewer per recorded move, each record holding the board before its move; a key buffer of digits.
- **The static daily table** (`DailyTable`). It is the constant map of seven dates to five puzzles each, with its lookup `getDailyPuzzles`.

The environment is an input to the model. `Session.Env` carries the
seconds elapsed on the current daily puzzle together with the values
`Math.random` will return. A date is passed as `DailyGen.Date(year, month, day)`.

## Model

| member | source | states |
|---|---|---|
| Expressions.Apply | script.js:453-461 | one operator on two stack values; an error exactly when dividing by zero or when the quotient is not exact (or an operand is undefined); integer operands give an integer result |
| Expressions.InfixToPostfix | script.js:409-441 | the loop over tokens with its output list and operator stack computes the shunting-yard conversion `ToPostfix` |
| Expressions.EvaluatePostfix | script.js:443-467 | the loop with its value stack computes `EvalPostfix`, the bottom of the final stack or the error thrown |
| Expressions.EvaluateExpression | tmp_dump_daily.js:67-71 | conversion followed by evaluation, over a token list |
| Expressions.EvalExpr | tmp_dump_daily.js:50-65 | direct evaluation of an expression tree under the same exact-division rule; a successful value is an integer |
| Expressions.ShapeTokensAsWritten | tmp_dump_daily.js:80-84 | the balanced, left-comb and right-comb trees print as exactly the token sequences of the three template strings |
| Expressions.ToPostfixOfTokens | tmp_dump_daily.js:31-48 | the shunting-yard conversion of any fully parenthesised expression is the expression's postorder |
| Expressions.EvalPostfixOf | tmp_dump_daily.js:50-65 | evaluating an expression's postorder from any stack pushes the tree's value, or throws the tree's error |
| Expressions.EvalTokensMatchesTree | tmp_dump_daily.js:67-71 | evaluating the printed tokens of any expression equals evaluating the tree |
| Expressions.PrecedenceOfTwoOperators | script.js:427-432 | for `a o1 b o2 c`, `o1` is emitted before `o2` exactly when its precedence is at least that of `o2` |
| Permutations.RemoveAtMultiset | script.js:392 | removing position i takes exactly that element out of the multiset |
| Permutations.GetPermutations | script.js:386-400 | the recursion with its accumulator returns `Perms(arr)` |
| Permutations.PushAll | script.js:395-397 | the inner loop appends every remaining permutation with `current` in front |
| Permutations.PermsCount | tmp_dump_daily.js:17-29 | a list of length n has n! orderings, so 24 for four numbers |
| Permutations.PermsMembership | tmp_dump_daily.js:17-29 | a list is among the orderings exactly when it has the same multiset as the input |
| Seeded.LcgStep | script.js:162 | one generator step: from a state of -5 or more the next state is in [0, 233280); below that it is in (-233280, 0] |
| Seeded.JsRem | script.js:162 | JavaScript's remainder: in [0, n) for a non-negative dividend, in (-n, 0] for a negative one |
| Seeded.Digit | script.js:145 | `Math.floor(r * 9) + 1` is in 1..9 for r in [0, 1) |
| Seeded.SeededRandom.constructor | script.js:158-160 | the generator starts with its state equal to the seed |
| Seeded.SeededRandom.Next | script.js:161-164 | one call advances the state by one generator step and returns state / 233280 |
| Seeded.DrawFour | tmp_dump_daily.js:101 | four draws give `SeededDigits(seed, 4)` and leave the state four steps on |
| Seeded.StateInRange | tmp_dump_daily.js:9-15 | from a non-negative seed every state is in [0, 233280) |
| Seeded.UnitInRange | tmp_dump_daily.js:13 | a state in range gives a value in [0, 1) |
| Seeded.SeededDigitsInRange | tmp_dump_daily.js:101 | from a non-negative seed every drawn number is in 1..9 |
| Seeded.NegativeSeedLeavesRange | script.js:162 | a negative seed keeps the state negative and can draw a number below 1 |
| Seeded.SeedSeventyOne | script.js:143-146 | seed 71 draws 1, 1, 1, 1 |
| Solver.EveryOperatorTried | script.js:355 | every operator is in the list the loops run over |
| Solver.EveryShapeTried | script.js:362-366 | every grouping is in the list of templates |
| Solver.CandidateMeansTree | script.js:362-371 | a candidate's tokens evaluate to 24 exactly when its expression tree does |
| Solver.NoReorderingHits | script.js:357-383 | if no ordering, operator triple or grouping hits 24, the numbers are not solvable |
| Solver.HasSolution | script.js:352-384 | the nested loops with early return answer true exactly when some reordering, operator triple and grouping reaches 24 |
| Solver.SolvableUnderReorder | tmp_dump_daily.js:73-96 | the verdict is the same for any reordering of the input |
| Solver.SolvableExample | script.js:364 | 5, 7, 2, 7 reaches 24 as `((5 × 2) + 7) + 7` |
| Solver.SmallLeavesBound | tmp_dump_daily.js:50-65 | a tree whose leaves are in -1..1 evaluates to at most 2^(leaves-1) in absolute value |
| Solver.UnsolvableExample | tmp_dump_daily.js:73-96 | 1, 1, 1, 1 has no solution |
| DailyGen.RetryBy | script.js:139-156 | the recursion's result, when there is one, is a four-number puzzle flagged solvable |
| DailyGen.RetryByAccepted | script.js:151-155 | a returned puzzle is one the verdict accepted |
| DailyGen.RetryByFindsFirst | script.js:139-156 | a returned puzzle is the first accepted attempt on the chain seed, seed + 1000, …; no result means every allowed attempt was rejected |
| DailyGen.RetryFindsFirst | script.js:139-156 | the same, with the solver as the verdict |
| DailyGen.AttemptShift | script.js:152 | retrying at seed + 1000 shifts the chain of attempts by one |
| DailyGen.GenerateSeededPuzzle | script.js:139-156 | the method, with its generator object and recursive retry, returns `Retry(seed, fuel)` |
| DailyGen.RetryWithAt | script.js:118 | the generator used for the daily set, applied to a seed, is `RetryBy` at that seed |
| DailyGen.DailyFromStep | script.js:117-125 | one step of the daily loop: stop when no puzzle comes back, otherwise push the record and go on |
| DailyGen.DailyFromAt | script.js:117-125 | the k-th record from step i carries the date, index i + k and the puzzle generated at seed + i + k |
| DailyGen.DailyFromEnds | script.js:117-125 | fewer records than steps means the generation at the next seed gave nothing |
| DailyGen.DailyRecordsBy | script.js:114-125 | at most five records; record k has index k, the date, four numbers, the flag true and numbers the verdict accepted; fewer than five only when a generation gave nothing |
| DailyGen.DailyOfAt | script.js:118-124 | record k is exactly the puzzle generated at date seed + k |
| DailyGen.DailySetRecords | script.js:117-125 | every daily record has index k, flag true, four numbers, and numbers the solver accepts |
| DailyGen.RetryByInRange | script.js:144-146 | from a non-negative seed a returned puzzle has numbers in 1..9 |
| DailyGen.DailyInRangeBy | script.js:117-125 | from a non-negative date seed every daily number is in 1..9 |
| DailyGen.DailySetInRange | script.js:117-125 | the same for the solver's verdict |
| DailyGen.DateSeed | script.js:128-137 | a calendar date's seed lies in its year's block, from `year * 10000 + 101` to `year * 10000 + 1231` |
| DailyGen.NextDaySeed | script.js:136 | the next day of the same month has the next seed |
| DailyGen.ShiftedSeedsShare | script.js:118 | with seeds one apart, puzzle i of the later set is puzzle i + 1 of the earlier |
| DailyGen.ConsecutiveDaysShare | script.js:118 | with the `seed + i` stride, tomorrow's puzzle i has today's puzzle i + 1's numbers |
| DailyGen.RetrySkipsUnsolvable | script.js:151-153 | seed 71 draws an unsolvable puzzle, so generation from 71 is generation from 1071 |
| DumpDaily.DumpPuzzle | tmp_dump_daily.js:98-104 | the puzzle for a seed has four numbers |
| DumpDaily.GenerateSeededPuzzle | tmp_dump_daily.js:98-104 | one attempt: the seeded draws and the solver's verdict on them, with no retry |
| DumpDaily.DumpDay | tmp_dump_daily.js:121-127 | the loop yields five puzzles, puzzle i at seed `seed + i * 1000` |
| DumpDaily.DateSeed | tmp_dump_daily.js:1-7 | a calendar date's seed lies in its year's block, from `year * 1000000 + 10100` to `year * 1000000 + 123100` |
| DumpDaily.DateSeedMultipleOfHundred | tmp_dump_daily.js:1-7 | every date seed is a multiple of 100 |
| DumpDaily.DateSeedDecodes | tmp_dump_daily.js:1-7 | for month 1..12 and day 1..31 the seed splits back into year, month and day |
| DumpDaily.DateSeedInjective | tmp_dump_daily.js:1-7 | different dates (month 1..12, day 1..31) give different seeds |
| DumpDaily.PuzzleSeedsDistinct | tmp_dump_daily.js:125 | the five seeds of a day are pairwise distinct |
| DumpDaily.TenDaysApart | tmp_dump_daily.js:125 | with the stride of 1000, puzzle i + 1 of a day is puzzle i of the day ten days later |
| DumpDaily.DumpPuzzleInRange | tmp_dump_daily.js:101 | from a non-negative seed the four numbers are in 1..9 |
| DumpDaily.DumpCanRecordNoSolution | tmp_dump_daily.js:98-104 | without a retry the recorded verdict can be false (seed 71) |
| Session.Without | script.js:503 | the filter keeps every index except the clicked one, and shrinks the selection when it was there |
| Session.ApplyMove | script.js:716-775 | no move unless two tiles are selected and the division guard passes; otherwise one tile fewer, the result at index1's position (one lower when index2 came before it), one history record holding the old board, counts and puzzle id, the merged counts at index1, index2's count deleted without re-indexing, the selection cleared and every other field unchanged |
| Session.UpdateMultiset | script.js:766 | overwriting a tile trades its value for the new one |
| Session.TradeTwo | script.js:766-767 | two singleton removals compose into one |
| Session.MergeMultiset | script.js:766-767 | overwrite-then-splice trades the two operands for the result |
| Session.ApplyMoveMerges | script.js:765-767 | a move replaces the two operand values on the board by the result |
| Session.Batch | script.js:337-340 | four draws in [0, 1) give four numbers in 1..9 |
| Session.BatchShift | script.js:348 | the recursive call sees the draws after the first four |
| Session.GeneratedByFirst | script.js:335-350 | generateNumbers keeps the first batch the solver accepts; when none is accepted, no batch was |
| Session.GeneratedByInRange | script.js:339 | the generated numbers are in 1..9 |
| Session.GenerateNumbersSpec | script.js:335-350 | four numbers, the initial numbers equal to them, no combination counts, everything else unchanged |
| Session.GenerateNumbersStep | script.js:343-349 | one round of generateNumbers: stop on a solvable batch, otherwise recurse on the remaining draws |
| Session.GenerateNumbersSolvable | script.js:335-350 | the board is in 1..9, and it is unsolvable only if every offered batch was |
| Session.LoadDailyPuzzleSpec | script.js:167-185 | the current record's numbers become the board and the initial numbers, with the counts cleared; without a record the fallback generates numbers |
| Session.NextDailyPuzzleSpec | script.js:995-1019 | the count goes up by one, the index becomes the old count, history, selection and penalties are cleared and the next record is loaded |
| Session.NextDailyResets | script.js:996-1014 | after the resets the board is ready to load |
| Session.CheckDailyWinSpec | script.js:1045-1066 | no change unless one tile of 24 remains; then the puzzle's time with its penalty is stored, and before the fifth puzzle the next one is loaded with the game active, while after the fifth the final time is the sum and the challenge is complete |
| Session.DailyWinSteps | script.js:1046-1061 | the win is "stop and record", then either "resume and load the next" or "total and complete" |
| Session.CheckWinSpec | script.js:936-947 | daily mode hands over to the daily check; in practice the game stops exactly when one tile of 24 remains |
| Session.PerformOperationSpec | script.js:716-782 | a rejected move changes nothing; a made move is followed by the win check |
| Session.SelectNumberSpec | script.js:498-520 | nothing while stopped; clicking a selected tile removes it and clears the operator; otherwise the first click selects, a second click with an operator performs it, and a second without waits; a third is ignored |
| Session.SelectOperationSpec | script.js:522-533 | nothing while stopped; with one tile the operator is stored, with two it is performed, with none nothing happens |
| Session.ClearSelectionSpec | script.js:669-681 | no tiles, no operator and an empty key buffer, nothing else changed |
| Session.FirstAvailable | script.js:697-704 | the first tile with the value that is not selected, or none |
| Session.SelectNumberByValueSpec | script.js:697-714 | selects the first free tile with the value, or empties the key buffer when there is none |
| Session.DigitValue | script.js:689 | a digit's value is in 0..9 |
| Session.ParseInt | script.js:689 | parsing a string of digits gives a non-negative number |
| Session.Decimal | script.js:689 | the decimal form of a number is a non-empty string of digits |
| Session.ParseDecimal | script.js:689 | parsing the decimal form of n gives back n |
| Session.ProcessNumberBufferSpec | script.js:684-695 | an empty buffer does nothing; otherwise the buffer is emptied and its value selected |
| Session.TypedValueSelects | script.js:684-695 | typing the digits of v selects by the value v |
| Session.UndoSpec | script.js:805-834 | no change when history is empty, the day is complete or the top record belongs to another daily puzzle; otherwise the top record is popped and its board and counts restored, the selection and gameActive left alone |
| Session.ResetSpec | script.js:879-900 | nothing while stopped or after the day is complete; otherwise back to the initial numbers with no counts, no history and no selection |
| Session.Pick | script.js:850 | `Math.floor(r * (i + 1))` is a position in 0..i |
| Session.Swap | script.js:851 | a swap keeps the length |
| Session.SwapMultiset | script.js:851 | a swap is a permutation |
| Session.ShuffledFrom | script.js:849-852 | the swap loop keeps the length |
| Session.ShuffledPermutes | script.js:849-852 | the whole loop permutes the board |
| Session.ShuffleSpec | script.js:836-877 | nothing while stopped; otherwise the board is permuted and the selection cleared, nothing else changed |
| Session.CheckNoSolutionSpec | script.js:902-934 | judged on the stored flag (daily) or the solver on the initial numbers: a wrong claim adds 30 seconds (also to the daily penalty in daily mode) unless already charged; a right claim stops the game |
| Session.GenerateDailyPuzzlesSpec | script.js:104-126 | the records stay when the first one is for the date; otherwise they are the day's set |
| Session.GeneratedRecordsSolvable | script.js:117-125 | freshly written records are at most five, indexed 0.., flagged true, for the date, and solvable |
| Session.GenerateDailyIdempotent | script.js:108-111 | a second call for the same date changes nothing |
| Session.RejectedDivisionChangesNothing | script.js:739-743 | a division by zero or a non-exact division leaves the whole state unchanged |
| Session.OtherOperatorsAlwaysMove | script.js:726-738 | with two tiles selected, +, - and × always make a move |
| Session.PracticeWinIffTwentyFour | script.js:940-942 | in practice, a move stops the game exactly when it leaves one tile of 24 |
| Session.UndoRevertsMove | script.js:805-834 | undo right after the move alone (performOperation's board change, before its win check) gives back the state before it, with the selection cleared |
| Session.NonWinningPerformIsMove | script.js:936-947 | on a move that does not leave a single 24, performOperation is the move alone: the win check changes nothing |
| Session.PerformThenUndo | script.js:805-834 | undo after the whole of performOperation: a move short of 24 is taken back; a practice win is taken back on the board but the game stays stopped; after a daily win undo does nothing |
| Session.Step | script.js:498-533 | the three events "click tile, choose operator, click tile" keep the invariant |
| Session.StepIsMove | script.js:498-533 | on a running game the three events are performOperation on the pair with the chosen operator, and a move short of 24 is the move alone; on a stopped game they change nothing |
| Session.ClicksSelect | script.js:498-533 | the first click selects the tile, and choosing the operator then records it |
| Session.StepUndone | script.js:805-834 | a move short of 24 made by clicks, undone, gives back the state before it with no operator |
| Session.Replay | script.js:498-533 | a sequence of moves made by clicks, none reaching 24, keeps the invariant |
| Session.UndoTimes | script.js:805-834 | repeated undo keeps the invariant |
| Session.UndoTimesSplit | script.js:805-834 | n + 1 undos are n undos followed by one |
| Session.MovesThenUndos | script.js:805-834 | N moves made by clicks, none reaching 24, followed by N undos give back the starting state, with the operator cleared when N > 0 |
| Session.CheckNoSolutionIdempotent | script.js:916-922 | a second claim of no solution changes nothing more |
| Session.CheckNoSolutionTimes | script.js:902-934 | repeated claims keep the invariant |
| Session.PenaltyAtMostOnce | script.js:916-922 | any number of claims add at most 30 seconds, and none once the penalty is charged |
| Session.CorrectClaimStops | script.js:929-933 | a right claim in practice stops the game with no penalty |
| Session.CompletedDayIsFrozen | script.js:805-900 | after the day is complete, undo and reset change nothing |
| Session.FifthWinCompletes | script.js:1057-1061 | winning the fifth puzzle completes the challenge with the total of the five times |
| Game.Game24.constructor | script.js:2-34 | the initial field values, with the initial mode as practice |
| Game.Game24.SelectNumber | script.js:498-520 | new state is `SelectNumberSpec` of the old one, invariant kept |
| Game.Game24.SelectOperation | script.js:522-533 | new state is `SelectOperationSpec` of the old one, invariant kept |
| Game.Game24.PerformOperation | script.js:716-782 | new state is `PerformOperationSpec` of the old one, invariant kept |
| Game.Game24.CombineSelected | script.js:749-781 | a move that is made: merge, then the win check |
| Game.Game24.MergeSelected | script.js:749-775 | history push, board merge, count merge and deselect give `Merged` |
| Game.Game24.RecordAndMerge | script.js:753-767 | the record is pushed and the two tiles merged in place |
| Game.Game24.RecordMove | script.js:753-763 | one record is pushed on the history |
| Game.Game24.MergeNumbers | script.js:766-767 | `numbers[index1] = result` then `splice(index2, 1)` |
| Game.Game24.MergeCounts | script.js:770-771 | the count at index1 is set, index2's is deleted, nothing is re-indexed |
| Game.Game24.Deselect | script.js:774-775 | no tiles and no operator |
| Game.Game24.CheckWinCondition | script.js:936-947 | new state is `CheckWinSpec` of the old one |
| Game.Game24.CheckDailyWinCondition | script.js:1045-1066 | new state is `CheckDailyWinSpec` of the old one |
| Game.Game24.WinAndAdvance | script.js:1046-1056 | a win before the fifth puzzle gives `CheckDailyWinSpec` |
| Game.Game24.WinAndComplete | script.js:1046-1061 | a win on the fifth puzzle gives `CheckDailyWinSpec` |
| Game.Game24.StopAndRecordTime | script.js:1047-1051 | the game stops and the time is appended |
| Game.Game24.ResumeWithNextPuzzle | script.js:1053-1056 | the game resumes and the next puzzle is loaded |
| Game.Game24.CompleteDailyChallenge | script.js:1058-1061 | the final time is the sum of the five and the challenge is complete |
| Game.Game24.NextDailyPuzzle | script.js:995-1019 | new state is `NextDailyPuzzleSpec` of the old one |
| Game.Game24.AdvanceDailyPuzzle | script.js:996-1014 | the resets before loading, leaving the board ready to load |
| Game.Game24.ClearPenalties | script.js:1008-1009 | the penalty and the penalty flag are cleared |
| Game.Game24.ClearHistory | script.js:1012-1014 | history, selection and operator are cleared |
| Game.Game24.LoadDailyPuzzle | script.js:167-185 | new state is `LoadDailyPuzzleSpec` of the old one |
| Game.Game24.LoadBoard | script.js:173-175 | board and initial numbers set to the puzzle's, counts cleared |
| Game.Game24.DrawBatch | script.js:337-340 | the four-draw loop gives `Batch(draws)` |
| Game.Game24.GenerateNumbers | script.js:335-350 | new state is `GenerateNumbersSpec` of the old one |
| Game.Game24.Undo | script.js:805-834 | new state is `UndoSpec` of the old one |
| Game.Game24.Shuffle | script.js:836-877 | the swap loop on the board field gives `ShuffleSpec` of the old state |
| Game.Game24.Reset | script.js:879-900 | new state is `ResetSpec` of the old one |
| Game.Game24.RestoreBoard | script.js:888-889 | the board goes back to the initial numbers, with no counts |
| Game.Game24.CheckNoSolution | script.js:902-934 | new state is `CheckNoSolutionSpec` of the old one |
| Game.Game24.AddNoSolutionPenalty | script.js:916-922 | 30 seconds on the penalty (and on the daily penalty in daily mode), flag set |
| Game.Game24.ClearSelection | script.js:669-681 | new state is `ClearSelectionSpec` of the old one |
| Game.Game24.ProcessNumberBuffer | script.js:684-695 | new state is `ProcessNumberBufferSpec` of the old one |
| Game.Game24.SelectNumberByValue | script.js:697-714 | new state is `SelectNumberByValueSpec` of the old one |
| Game.Game24.GenerateDailyPuzzles | script.js:104-126 | new state is `GenerateDailyPuzzlesSpec` of the old one |
| Game.Game24.DailyPuzzlesFor | script.js:114-125 | the five-step loop returns the day's set `DailySet(date, fuel)` |
| Game.Game24.PushDailyPuzzle | script.js:118-124 | one step of the loop: push the generated record, or report that generation gave nothing |
| DailyTable.GetDailyPuzzles | daily-puzzles.js:78-86 | null exactly for a key that is neither in the table nor inherited from Object.prototype; a table key gives the entry's challenge number and puzzles unchanged; an inherited name gives two undefined fields |
| DailyTable.InheritedKeysAreNotDates | daily-puzzles.js:3-86 | no Object.prototype name is shaped like a date, and every table key is |
| DailyTable.SeptemberKey | daily-puzzles.js:4 | the key of a September 2025 day is a ten-character date string |
| DailyTable.TableDates | daily-puzzles.js:3-75 | the table holds exactly seven keys, the consecutive days 2025-09-09 to 2025-09-15 |
| DailyTable.ChallengeNumbersInStep | daily-puzzles.js:4-73 | the lookup finds each of the seven days, and the challenge numbers run 1 to 7 in step with them |
| DailyTable.TableWellFormed | daily-puzzles.js:4-73 | every entry holds five puzzles of four numbers in 1..9 |
| DailyTable.LookupWellFormed | daily-puzzles.js:78-86 | for a `YYYY-MM-DD` key: null exactly outside the seven dates, and otherwise both fields defined and a well-formed day |
| DailyTable.FiveFiveTwoTwoSolvable | daily-puzzles.js:20 | 5, 5, 2, 2 reaches 24 as `(5 × 5) - (2 ÷ 2)` |
| DailyTable.EightEightTwoOneSolvable | daily-puzzles.js:28 | 8, 8, 2, 1 reaches 24 as `(8 × 2) + (8 × 1)` |
| DailyTable.FlagsDisagreeWithSolver | daily-puzzles.js:20-28 | two entries are flagged unsolvable although the solver's shapes solve them |

## Left out

- The DOM and UI are not modelled: rendering, history display, buttons, messages, modals, animations, the clipboard, the keyboard listener and navigation.
- Timers are not modelled (`setInterval`, `setTimeout`, the key-buffer timeout, the 400 ms delay around the shuffle). The seconds elapsed on the current daily puzzle are an input, `Env.elapsed`.
- `Math.random` is replaced by a sequence of draws in [0, 1) supplied with the event (`Env.draws`, or the `draws` parameter of `Shuffle` and `GenerateNumbers`).
- Date parsing (`new Date`, `toISOString`, the local- and UTC-getters, `Intl.DateTimeFormat`) is not modelled. A date is given as year, month and day, and a table key as a string.
- The regular expression that tokenises expression strings is not modelled. Token lists are built directly, which agrees with the regex for non-negative numbers.
- Solver.HasSolution: it accepts any four integers, but the code only calls it on boards of digits 1..9. For a negative number the token `Num(-3)` stands where the code's regex would read `-` and `3`, so its verdict on such boards is not the code's.
- Session.Replay: it covers only moves that do not reach 24, so Session.MovesThenUndos says nothing about a sequence that wins. A winning move and the undo after it are covered by Session.PerformThenUndo.
- DailyTable.GetDailyPuzzles: of the names an object inherits, it covers only Object.prototype's twelve standard properties; keys added to Object.prototype at run time are not modelled.
- The `< 0.001` tolerance is not modelled. Exact division keeps every value an integer, so the test is equality with 24. The generator's `state / 233280` and `Math.floor(r * 9)` are modelled on exact reals, not on binary floating point.
- DailyGen.RetryBy: the retry recursion of `generateSeededPuzzle` is unbounded in the code. The model allows `fuel` attempts and returns no puzzle when they run out; the daily set then stops at that record.
- Game.Game24.GenerateNumbers: its recursion lasts only as long as the supplied draws. When they run out, the last batch stays on the board even if it is unsolvable.
- The solver is not shown to decide all groupings. It tries only the three groupings of the code, and its verdict is proved equal to "some reordering, operator triple and one of those three groupings reaches 24".
- The stored `hasSolution` flags of the static table are not shown to agree with the solver. `DailyTable.FlagsDisagreeWithSolver` shows two entries where they differ.
- `startDailyChallenge`, `startPracticeMode`, `newGame`, `loadCompletedDailyState`, `clearGameState` and `handleKeyPress` are not modelled, because they are UI entry points. The mode is a field that these would set.
- The initial `currentMode` of `null` is modelled as practice, which is how every branch of the code treats it.
- A history record's `resultIndex` and display symbol are not modelled. `resultIndex` always equals `index1` and nothing reads it.
- Game.Game24.SelectNumber: its index must name a tile on the board, as every click and keyboard path in the code guarantees.
- Game.Game24.CheckNoSolution: it requires `initialNumbers` to hold four numbers, the only boards the game builds.
- The methods of `Game.Game24` write their fields through small helper methods (`MergeNumbers`, `LoadBoard`, …), one per group of assignments in the code. The order of assignments inside a group is not tracked.
- The board and history fields are `seq` values reassigned in place, so aliasing between a history record's `originalNumbers` and the live board is not modelled; the code copies them with `[...]` anyway.
