/**
 * The Game24 session as a state machine on values (script.js:498-1065):
 * the board, the selection, the undo history, the penalty flags and the
 * daily sequencer. Each function here is the specification of one method
 * of the Game24 class in module Game; the clock and Math.random are inputs.
 */
module Session {
  import opened Wrappers
  import opened Expressions
  import opened Permutations
  import opened Seeded
  import opened Solver
  import opened DailyGen

  /** currentMode; the initial `null` behaves as practice everywhere. */
  datatype Mode = Practice | Daily

  /** A history record's puzzleId: 'practice' or the daily puzzle count. */
  datatype PuzzleId = PracticeTag | DailyTag(count: int)

  /** One entry of `history` (script.js:753-763); resultIndex is always index1. */
  datatype Move = Move(
    num1: int, num2: int, operation: Op, result: int,
    index1: int, index2: int,
    originalNumbers: seq<int>, originalCount: map<int, int>,
    puzzleId: PuzzleId)

  /**
   * What the environment supplies to one event: the seconds elapsed on the
   * current daily puzzle's clock, and Math.random's upcoming values.
   */
  datatype Env = Env(elapsed: int, draws: seq<real>)

  /** The fields of Game24 the game logic reads and writes. */
  datatype Session = Session(
    mode: Mode,
    numbers: seq<int>,
    selected: seq<int>,
    operation: Option<Op>,
    history: seq<Move>,
    gameActive: bool,
    penaltyTime: int,
    initialNumbers: seq<int>,
    combinationCount: map<int, int>,
    keyBuffer: string,
    noSolutionPenaltyApplied: bool,
    dailyPuzzleCount: int,
    dailyPuzzleTimes: seq<int>,
    dailyPuzzlePenalty: int,
    dailyPuzzles: seq<DailyRecord>,
    currentPuzzleIndex: int,
    finalDailyTime: int,
    dailyChallengeCompleted: bool)

  // ---------------------------------------------------------------------
  // Invariants
  // ---------------------------------------------------------------------

  /** A value Math.random can return. */
  predicate UnitDraw(r: real)
  {
    0.0 <= r < 1.0
  }

  predicate AllUnit(draws: seq<real>)
  {
    forall k :: 0 <= k < |draws| ==> UnitDraw(draws[k])
  }

  /** Enough draws for one generateNumbers attempt, all in [0, 1). */
  predicate EnvOk(env: Env)
  {
    |env.draws| >= 4 && AllUnit(env.draws)
  }

  /** At most two distinct tile indices, each naming a tile on the board. */
  predicate SelectionOk(sel: seq<int>, n: int)
  {
    |sel| <= 2
    && (forall k :: 0 <= k < |sel| ==> 0 <= sel[k] < n)
    && (|sel| == 2 ==> sel[0] != sel[1])
  }

  predicate IsDigitChar(c: char)
  {
    '0' <= c <= '9'
  }

  /** A string of decimal digits. */
  predicate AllDigits(str: string)
  {
    forall k :: 0 <= k < |str| ==> IsDigitChar(str[k])
  }

  /** Record k holds the board of the k-th move, with one tile fewer per move of `n`. */
  predicate HistoryShaped(history: seq<Move>, n: int)
  {
    forall k :: 0 <= k < |history| ==> |history[k].originalNumbers| == n - k
  }

  /** Every daily record holds four numbers. */
  predicate RecordsShaped(rs: seq<DailyRecord>)
  {
    forall k :: 0 <= k < |rs| ==> |rs[k].numbers| == 4
  }

  /**
   * The invariant every operation keeps: a valid selection; one tile fewer
   * per recorded move, each record holding the board as it was before that
   * move; a board of four (or, before the first game, none); a key buffer
   * of digits; daily records of four numbers.
   */
  predicate SessionValid(s: Session)
  {
    SelectionOk(s.selected, |s.numbers|)
    && |s.numbers| + |s.history| == |s.initialNumbers|
    && HistoryShaped(s.history, |s.initialNumbers|)
    && (|s.initialNumbers| == 0 || |s.initialNumbers| == 4)
    && AllDigits(s.keyBuffer)
    && RecordsShaped(s.dailyPuzzles)
  }

  /** One tile left and it is 24. */
  predicate Won(s: Session)
  {
    |s.numbers| == 1 && s.numbers[0] == 24
  }

  // ---------------------------------------------------------------------
  // Small helpers
  // ---------------------------------------------------------------------

  /** `selectedNumbers.filter(i => i !== index)`. */
  function Without(xs: seq<int>, x: int): (r: seq<int>)
    ensures forall y :: y in r <==> y in xs && y != x
    ensures x !in xs ==> r == xs
    ensures x in xs ==> |r| < |xs|
  {
    if |xs| == 0 then []
    else if xs[0] == x then Without(xs[1..], x)
    else [xs[0]] + Without(xs[1..], x)
  }

  /** `combinationCount[k] || 0`. */
  function CountAt(cc: map<int, int>, k: int): int
  {
    if k in cc then cc[k] else 0
  }

  /** The puzzleId a new history record gets. */
  function IdOf(s: Session): PuzzleId
  {
    if s.mode == Daily then DailyTag(s.dailyPuzzleCount) else PracticeTag
  }

  /** `reduce((sum, time) => sum + time, 0)`. */
  function Sum(xs: seq<int>): int
  {
    if |xs| == 0 then 0 else Sum(xs[..|xs| - 1]) + xs[|xs| - 1]
  }

  // ---------------------------------------------------------------------
  // Combining two tiles
  // ---------------------------------------------------------------------

  /** The division guard of performOperation: a zero divisor or a non-exact quotient. */
  predicate DivisionRejected(op: Op, num1: int, num2: int)
  {
    op == Div && (num2 == 0 || num1 % num2 != 0)
  }

  /**
   * performOperation up to, not including, checkWinCondition
   * (script.js:716-775): None when fewer or more than two tiles are selected
   * or the division guard rejects the pair, otherwise the new board, counts,
   * history and a cleared selection.
   */
  function ApplyMove(s: Session, op: Op): (r: Option<Session>)
    requires SessionValid(s)
    ensures r.None? <==> |s.selected| != 2 || DivisionRejected(op, s.numbers[s.selected[0]], s.numbers[s.selected[1]])
    ensures r.Some? ==> SessionValid(r.value)
    ensures r.Some? ==>
      var i1, i2 := s.selected[0], s.selected[1];
      var t := r.value;
      |t.numbers| == |s.numbers| - 1
      && t.selected == [] && t.operation.None?
      && |t.history| == |s.history| + 1 && t.history[..|s.history|] == s.history
      && t.history[|s.history|].originalNumbers == s.numbers
      && t.history[|s.history|].originalCount == s.combinationCount
      && t.history[|s.history|].puzzleId == IdOf(s)
      && Apply(op, Int(s.numbers[i1]), Int(s.numbers[i2])) == Ok(Int(t.history[|s.history|].result))
      && t.numbers[if i1 < i2 then i1 else i1 - 1] == t.history[|s.history|].result
      && CountAt(t.combinationCount, i1) == CountAt(s.combinationCount, i1) + CountAt(s.combinationCount, i2) + 1
      && i2 !in t.combinationCount
      && t.(numbers := s.numbers, selected := s.selected, operation := s.operation, history := s.history,
            combinationCount := s.combinationCount) == s
  {
    if |s.selected| != 2 then None
    else
      var i1, i2 := s.selected[0], s.selected[1];
      var num1, num2 := s.numbers[i1], s.numbers[i2];
      match Apply(op, Int(num1), Int(num2))
      case Ok(Int(result)) => Some(Merged(s, op, result))
      case _ => None
  }

  /**
   * The state after the selected tiles are combined into `result`: the
   * move recorded, the result in the first tile's place, the second tile
   * and its count gone, the selection cleared.
   */
  function Merged(s: Session, op: Op, result: int): Session
    requires |s.selected| == 2 && 0 <= s.selected[0] < |s.numbers| && 0 <= s.selected[1] < |s.numbers|
  {
    var i1, i2 := s.selected[0], s.selected[1];
    var total := CountAt(s.combinationCount, i1) + CountAt(s.combinationCount, i2) + 1;
    var move := Move(s.numbers[i1], s.numbers[i2], op, result, i1, i2, s.numbers, s.combinationCount, IdOf(s));
    s.(history := s.history + [move],
       numbers := RemoveAt(s.numbers[i1 := result], i2),
       combinationCount := s.combinationCount[i1 := total] - {i2},
       selected := [],
       operation := None)
  }

  /** The merge takes the two operands out of the board and puts the result in. */
  lemma MergeMultiset(xs: seq<int>, i1: nat, i2: nat, v: int)
    requires i1 < |xs| && i2 < |xs| && i1 != i2
    ensures multiset(RemoveAt(xs[i1 := v], i2)) + multiset{xs[i1], xs[i2]} == multiset(xs) + multiset{v}
  {
    var ys := xs[i1 := v];
    RemoveAtMultiset(ys, i2);
    UpdateMultiset(xs, i1, v);
    assert ys[i2] == xs[i2];
    TradeTwo(multiset(RemoveAt(ys, i2)), multiset(ys), multiset(xs), xs[i1], xs[i2], v);
  }

  /** Two singletons taken out one after the other. */
  lemma TradeTwo(rest: multiset<int>, mid: multiset<int>, all: multiset<int>, a: int, b: int, v: int)
    requires rest + multiset{b} == mid && mid + multiset{a} == all + multiset{v}
    ensures rest + multiset{a, b} == all + multiset{v}
  {
    assert multiset{a, b} == multiset{b} + multiset{a};
  }

  /** Writing `v` at index i trades the old value for `v`. */
  lemma UpdateMultiset(xs: seq<int>, i: nat, v: int)
    requires i < |xs|
    ensures multiset(xs[i := v]) + multiset{xs[i]} == multiset(xs) + multiset{v}
  {
    assert xs == xs[..i] + [xs[i]] + xs[i + 1..];
    assert xs[i := v] == xs[..i] + [v] + xs[i + 1..];
  }

  /** A successful move replaces exactly the two operand values by the result. */
  lemma ApplyMoveMerges(s: Session, op: Op)
    requires SessionValid(s)
    requires ApplyMove(s, op).Some?
    ensures var t := ApplyMove(s, op).value;
      multiset(t.numbers) + multiset{s.numbers[s.selected[0]], s.numbers[s.selected[1]]}
        == multiset(s.numbers) + multiset{t.history[|s.history|].result}
  {
    var t := ApplyMove(s, op).value;
    MergeMultiset(s.numbers, s.selected[0], s.selected[1], t.history[|s.history|].result);
  }

  // ---------------------------------------------------------------------
  // Generating numbers and loading a daily puzzle
  // ---------------------------------------------------------------------

  /** `Math.floor(Math.random() * 9) + 1` four times, from the front of `draws`. */
  function Batch(draws: seq<real>): (b: seq<int>)
    requires |draws| >= 4
    ensures |b| == 4
    ensures AllUnit(draws) ==> forall k :: 0 <= k < 4 ==> 1 <= b[k] <= 9
  {
    [Digit(draws[0]), Digit(draws[1]), Digit(draws[2]), Digit(draws[3])]
  }

  /** The k-th attempt of generateNumbers. */
  function BatchAt(draws: seq<real>, k: nat): (b: seq<int>)
    requires 4 * k + 4 <= |draws|
    ensures |b| == 4
  {
    Batch(draws[4 * k..])
  }

  /**
   * generateNumbers under the verdict `accept` (script.js:335-350): draw four
   * numbers, and draw again while they are rejected. The draws supplied
   * bound the retries; when they run out the last batch stays on the board.
   */
  ghost function GeneratedBy(accept: seq<int> -> bool, draws: seq<real>): (nums: seq<int>)
    requires |draws| >= 4
    ensures |nums| == 4
    decreases |draws|
  {
    var b := Batch(draws);
    if accept(b) || |draws| < 8 then b else GeneratedBy(accept, draws[4..])
  }

  /** Attempts from `draws[4..]` are the later attempts from `draws`. */
  lemma BatchShift(draws: seq<real>, rest: seq<real>)
    requires |draws| >= 4 && rest == draws[4..]
    ensures BatchAt(draws, 0) == Batch(draws)
    ensures forall k: nat :: 4 * k + 4 <= |rest| ==> BatchAt(rest, k) == BatchAt(draws, k + 1)
  {
    forall k: nat | 4 * k + 4 <= |rest| ensures BatchAt(rest, k) == BatchAt(draws, k + 1) {
      assert rest[4 * k..] == draws[4 * (k + 1)..];
    }
  }

  /**
   * The numbers generateNumbers leaves are its first accepted attempt; when
   * they are rejected, so was every attempt the draws allowed.
   */
  lemma {:induction false} GeneratedByFirst(accept: seq<int> -> bool, draws: seq<real>)
    requires |draws| >= 4
    ensures exists k: nat :: 4 * k + 4 <= |draws| && GeneratedBy(accept, draws) == BatchAt(draws, k)
                          && forall j: nat :: j < k ==> !accept(BatchAt(draws, j))
    ensures !accept(GeneratedBy(accept, draws)) ==>
      forall k: nat :: 4 * k + 4 <= |draws| ==> !accept(BatchAt(draws, k))
    decreases |draws|
  {
    var rest := draws[4..];
    BatchShift(draws, rest);
    if accept(Batch(draws)) {
      assert GeneratedBy(accept, draws) == BatchAt(draws, 0);
    } else if |draws| < 8 {
      assert GeneratedBy(accept, draws) == BatchAt(draws, 0);
      forall k: nat | 4 * k + 4 <= |draws| ensures !accept(BatchAt(draws, k)) {
        assert k == 0;
      }
    } else {
      GeneratedByFirst(accept, rest);
      assert GeneratedBy(accept, draws) == GeneratedBy(accept, rest);
      var k: nat :| 4 * k + 4 <= |rest| && GeneratedBy(accept, rest) == BatchAt(rest, k)
                  && forall j: nat :: j < k ==> !accept(BatchAt(rest, j));
      forall j: nat | j < k + 1 ensures !accept(BatchAt(draws, j)) {
        if j > 0 {
          assert BatchAt(draws, j) == BatchAt(rest, j - 1);
        }
      }
      assert GeneratedBy(accept, draws) == BatchAt(draws, k + 1);
      if !accept(GeneratedBy(accept, draws)) {
        forall j: nat | 4 * j + 4 <= |draws| ensures !accept(BatchAt(draws, j)) {
          if j > 0 {
            assert BatchAt(draws, j) == BatchAt(rest, j - 1);
          }
        }
      }
    }
  }

  /** Generated numbers from draws in [0, 1) lie in 1..9. */
  lemma GeneratedByInRange(accept: seq<int> -> bool, draws: seq<real>)
    requires |draws| >= 4 && AllUnit(draws)
    ensures forall i :: 0 <= i < 4 ==> 1 <= GeneratedBy(accept, draws)[i] <= 9
  {
    GeneratedByFirst(accept, draws);
    var k: nat :| 4 * k + 4 <= |draws| && GeneratedBy(accept, draws) == BatchAt(draws, k);
    assert AllUnit(draws[4 * k..]);
  }

  /**
   * The state a board is loaded into: no history, no selection, and valid
   * but for the old board, which is about to be replaced.
   */
  predicate ReadyToLoad(s: Session)
  {
    s.history == [] && s.selected == [] && SessionValid(s.(numbers := s.initialNumbers))
  }

  /** generateNumbers: a fresh board of four, its copy in initialNumbers, counts cleared. */
  ghost function GenerateNumbersSpec(s: Session, draws: seq<real>): (r: Session)
    requires ReadyToLoad(s) && |draws| >= 4
    ensures SessionValid(r)
    ensures |r.numbers| == 4 && r.initialNumbers == r.numbers && r.combinationCount == map[]
    ensures r.(numbers := s.numbers, initialNumbers := s.initialNumbers, combinationCount := s.combinationCount) == s
  {
    var nums := GeneratedBy(Solvable, draws);
    s.(numbers := nums, initialNumbers := nums, combinationCount := map[])
  }

  /** One attempt of generateNumbers: keep the batch, or start again from the next four draws. */
  lemma GenerateNumbersStep(s: Session, draws: seq<real>)
    requires ReadyToLoad(s) && |draws| >= 4
    ensures var b := Batch(draws);
      var t := s.(numbers := b, initialNumbers := b, combinationCount := map[]);
      ReadyToLoad(t) &&
      (Solvable(b) || |draws| < 8 ==> GenerateNumbersSpec(s, draws) == t) &&
      (!Solvable(b) && |draws| >= 8 ==> GenerateNumbersSpec(t, draws[4..]) == GenerateNumbersSpec(s, draws))
  {
  }

  /** From draws in [0, 1), generateNumbers leaves four numbers in 1..9, solvable unless every attempt was not. */
  lemma GenerateNumbersSolvable(s: Session, draws: seq<real>)
    requires ReadyToLoad(s) && |draws| >= 4 && AllUnit(draws)
    ensures forall i :: 0 <= i < 4 ==> 1 <= GenerateNumbersSpec(s, draws).numbers[i] <= 9
    ensures !Solvable(GenerateNumbersSpec(s, draws).numbers) ==>
      forall k: nat :: 4 * k + 4 <= |draws| ==> !Solvable(BatchAt(draws, k))
  {
    GeneratedByInRange(Solvable, draws);
    GeneratedByFirst(Solvable, draws);
  }

  /**
   * loadDailyPuzzle (script.js:167-185): the record at currentPuzzleIndex,
   * or generateNumbers when there is none.
   */
  ghost function LoadDailyPuzzleSpec(s: Session, env: Env): (r: Session)
    requires ReadyToLoad(s) && EnvOk(env)
    ensures SessionValid(r)
    ensures 0 <= s.currentPuzzleIndex < |s.dailyPuzzles| ==>
      r.numbers == s.dailyPuzzles[s.currentPuzzleIndex].numbers && r.initialNumbers == r.numbers
    ensures r.combinationCount == map[] && |r.numbers| == 4
    ensures r.(numbers := s.numbers, initialNumbers := s.initialNumbers, combinationCount := s.combinationCount) == s
  {
    if 0 <= s.currentPuzzleIndex < |s.dailyPuzzles| then
      var nums := s.dailyPuzzles[s.currentPuzzleIndex].numbers;
      s.(numbers := nums, initialNumbers := nums, combinationCount := map[])
    else
      GenerateNumbersSpec(s, env.draws)
  }

  /**
   * nextDailyPuzzle (script.js:995-1019): advance the counter, point the
   * index at the new puzzle, clear this puzzle's penalties, history and
   * selection, and load it.
   */
  ghost function NextDailyPuzzleSpec(s: Session, env: Env): (r: Session)
    requires SessionValid(s) && EnvOk(env)
    ensures SessionValid(r)
    ensures r.dailyPuzzleCount == s.dailyPuzzleCount + 1 && r.currentPuzzleIndex == s.dailyPuzzleCount
    ensures r.history == [] && r.selected == [] && r.operation.None?
    ensures r.penaltyTime == 0 && r.dailyPuzzlePenalty == 0 && !r.noSolutionPenaltyApplied
    ensures 0 <= s.dailyPuzzleCount < |s.dailyPuzzles| ==> r.numbers == s.dailyPuzzles[s.dailyPuzzleCount].numbers
    ensures r.gameActive == s.gameActive && r.dailyPuzzleTimes == s.dailyPuzzleTimes
    ensures r.dailyPuzzles == s.dailyPuzzles && r.mode == s.mode
  {
    LoadDailyPuzzleSpec(NextDailyResets(s), env)
  }

  /** nextDailyPuzzle's resets, which leave a state ready to load. */
  function NextDailyResets(s: Session): (t: Session)
    requires SessionValid(s)
    ensures ReadyToLoad(t)
  {
    s.(dailyPuzzleCount := s.dailyPuzzleCount + 1,
       currentPuzzleIndex := s.dailyPuzzleCount,
       dailyPuzzlePenalty := 0,
       penaltyTime := 0,
       noSolutionPenaltyApplied := false,
       history := [],
       selected := [],
       operation := None)
  }

  // ---------------------------------------------------------------------
  // Winning
  // ---------------------------------------------------------------------

  /**
   * checkDailyWinCondition (script.js:1045-1065) with showDailyComplete's
   * flag (script.js:1124): on 24, record the puzzle's time with its
   * penalty; before the fifth puzzle move on, after it store the total and
   * mark the day complete.
   */
  ghost function CheckDailyWinSpec(s: Session, env: Env): (r: Session)
    requires SessionValid(s) && EnvOk(env)
    ensures SessionValid(r)
    ensures !Won(s) ==> r == s
    ensures Won(s) ==> r.dailyPuzzleTimes == s.dailyPuzzleTimes + [env.elapsed + s.dailyPuzzlePenalty]
    ensures Won(s) && s.dailyPuzzleCount < 5 ==>
      r.gameActive && r.dailyPuzzleCount == s.dailyPuzzleCount + 1 && r.history == []
    ensures Won(s) && s.dailyPuzzleCount >= 5 ==>
      !r.gameActive && r.dailyChallengeCompleted && r.finalDailyTime == Sum(r.dailyPuzzleTimes)
      && r.numbers == s.numbers && r.history == s.history
  {
    if Won(s) then
      var times := s.dailyPuzzleTimes + [env.elapsed + s.dailyPuzzlePenalty];
      if s.dailyPuzzleCount < 5 then
        NextDailyPuzzleSpec(s.(dailyPuzzleTimes := times, gameActive := true), env)
      else
        s.(dailyPuzzleTimes := times, gameActive := false, finalDailyTime := Sum(times),
           dailyChallengeCompleted := true)
    else s
  }

  /** The steps of a solved daily puzzle: stop and store the time, then go on or finish. */
  lemma DailyWinSteps(s: Session, env: Env)
    requires SessionValid(s) && EnvOk(env) && Won(s)
    ensures var t := s.(gameActive := false, dailyPuzzleTimes := s.dailyPuzzleTimes + [env.elapsed + s.dailyPuzzlePenalty]);
      SessionValid(t)
      && (s.dailyPuzzleCount < 5 ==> CheckDailyWinSpec(s, env) == NextDailyPuzzleSpec(t.(gameActive := true), env))
      && (s.dailyPuzzleCount >= 5 ==>
            CheckDailyWinSpec(s, env) == t.(finalDailyTime := Sum(t.dailyPuzzleTimes), dailyChallengeCompleted := true))
  {
  }

  /**
   * checkWinCondition (script.js:936-947): daily mode hands over to the
   * daily check; in practice the game stops exactly on a single 24 tile.
   */
  ghost function CheckWinSpec(s: Session, env: Env): (r: Session)
    requires SessionValid(s) && EnvOk(env)
    ensures SessionValid(r)
    ensures s.mode == Daily ==> r == CheckDailyWinSpec(s, env)
    ensures s.mode == Practice ==> r == s.(gameActive := s.gameActive && !Won(s))
  {
    if s.mode == Daily then CheckDailyWinSpec(s, env)
    else if Won(s) then s.(gameActive := false)
    else s
  }

  /** performOperation (script.js:716-782): the move, then the win check. */
  ghost function PerformOperationSpec(s: Session, op: Op, env: Env): (r: Session)
    requires SessionValid(s) && EnvOk(env)
    ensures SessionValid(r)
    ensures ApplyMove(s, op).None? ==> r == s
    ensures ApplyMove(s, op).Some? ==> r == CheckWinSpec(ApplyMove(s, op).value, env)
  {
    match ApplyMove(s, op)
    case None => s
    case Some(t) => CheckWinSpec(t, env)
  }

  // ---------------------------------------------------------------------
  // Selecting
  // ---------------------------------------------------------------------

  /**
   * selectNumber (script.js:498-520): nothing while the game is stopped;
   * clicking a selected tile deselects it and forgets the operator; a first
   * tile is selected; a second tile is selected and, when an operator is
   * waiting, combined; a third tile is ignored.
   */
  ghost function SelectNumberSpec(s: Session, index: int, env: Env): (r: Session)
    requires SessionValid(s) && EnvOk(env) && 0 <= index < |s.numbers|
    ensures SessionValid(r)
    ensures !s.gameActive ==> r == s
    ensures s.gameActive && index in s.selected ==>
      r == s.(selected := Without(s.selected, index), operation := None) && index !in r.selected
    ensures s.gameActive && index !in s.selected && |s.selected| == 0 ==> r == s.(selected := [index])
    ensures s.gameActive && index !in s.selected && |s.selected| == 1 && s.operation.Some? ==>
      r == PerformOperationSpec(s.(selected := s.selected + [index]), s.operation.value, env)
    ensures s.gameActive && index !in s.selected && |s.selected| == 1 && s.operation.None? ==>
      r == s.(selected := s.selected + [index])
    ensures s.gameActive && index !in s.selected && |s.selected| == 2 ==> r == s
  {
    if !s.gameActive then s
    else if index in s.selected then s.(selected := Without(s.selected, index), operation := None)
    else if |s.selected| == 0 then s.(selected := [index])
    else if |s.selected| == 1 && s.operation.Some? then
      PerformOperationSpec(s.(selected := s.selected + [index]), s.operation.value, env)
    else if |s.selected| == 1 then s.(selected := s.selected + [index])
    else s
  }

  /**
   * selectOperation (script.js:522-533): with one tile selected the
   * operator waits; with two it is applied at once.
   */
  ghost function SelectOperationSpec(s: Session, op: Op, env: Env): (r: Session)
    requires SessionValid(s) && EnvOk(env)
    ensures SessionValid(r)
    ensures !s.gameActive ==> r == s
    ensures s.gameActive && |s.selected| == 1 ==> r == s.(operation := Some(op))
    ensures s.gameActive && |s.selected| == 2 ==> r == PerformOperationSpec(s, op, env)
    ensures s.gameActive && |s.selected| == 0 ==> r == s
  {
    if !s.gameActive then s
    else if |s.selected| == 1 then s.(operation := Some(op))
    else if |s.selected| == 2 then PerformOperationSpec(s, op, env)
    else s
  }

  /** clearSelection (script.js:669-681): no tiles, no operator, an empty key buffer. */
  function ClearSelectionSpec(s: Session): (r: Session)
    requires SessionValid(s)
    ensures SessionValid(r)
    ensures r.selected == [] && r.operation.None? && r.keyBuffer == ""
    ensures r.(selected := s.selected, operation := s.operation, keyBuffer := s.keyBuffer) == s
  {
    s.(selected := [], operation := None, keyBuffer := "")
  }

  /**
   * The index selectNumberByValue picks (script.js:697-700): the first tile
   * holding `v` that is not already selected.
   */
  function FirstAvailable(nums: seq<int>, sel: seq<int>, v: int, from: nat): (r: Option<int>)
    requires from <= |nums|
    ensures r.Some? ==> from <= r.value < |nums| && nums[r.value] == v && r.value !in sel
    ensures r.Some? ==> forall j :: from <= j < r.value && nums[j] == v ==> j in sel
    ensures r.None? ==> forall j :: from <= j < |nums| && nums[j] == v ==> j in sel
    decreases |nums| - from
  {
    if from == |nums| then None
    else if nums[from] == v && from !in sel then Some(from)
    else FirstAvailable(nums, sel, v, from + 1)
  }

  /**
   * selectNumberByValue (script.js:697-714): select the first free tile
   * with that value, or clear the key buffer when there is none.
   */
  ghost function SelectNumberByValueSpec(s: Session, v: int, env: Env): (r: Session)
    requires SessionValid(s) && EnvOk(env)
    ensures SessionValid(r)
    ensures FirstAvailable(s.numbers, s.selected, v, 0).None? ==> r == s.(keyBuffer := "")
    ensures FirstAvailable(s.numbers, s.selected, v, 0).Some? ==>
      r == SelectNumberSpec(s, FirstAvailable(s.numbers, s.selected, v, 0).value, env)
  {
    match FirstAvailable(s.numbers, s.selected, v, 0)
    case Some(i) => SelectNumberSpec(s, i, env)
    case None => s.(keyBuffer := "")
  }

  /** The value of a digit character. */
  function DigitValue(c: char): (d: int)
    requires IsDigitChar(c)
    ensures 0 <= d <= 9
  {
    c as int - '0' as int
  }

  /** `parseInt` of a string of decimal digits. */
  function ParseInt(str: string): (n: int)
    requires AllDigits(str)
    ensures n >= 0
  {
    if |str| == 0 then 0 else ParseInt(str[..|str| - 1]) * 10 + DigitValue(str[|str| - 1])
  }

  /** The decimal digits of `n`, as a key press sequence types them. */
  function Decimal(n: nat): (str: string)
    ensures |str| >= 1
    ensures AllDigits(str)
  {
    if n < 10 then [('0' as int + n) as char]
    else Decimal(n / 10) + [('0' as int + n % 10) as char]
  }

  /** Reading back the digits of a number gives the number. */
  lemma {:induction false} ParseDecimal(n: nat)
    ensures ParseInt(Decimal(n)) == n
  {
    if n >= 10 {
      ParseDecimal(n / 10);
      var str := Decimal(n);
      assert str[..|str| - 1] == Decimal(n / 10);
    }
  }

  /**
   * processNumberBuffer (script.js:684-695): an empty buffer does nothing;
   * otherwise the buffer is emptied and its number selected by value.
   */
  ghost function ProcessNumberBufferSpec(s: Session, env: Env): (r: Session)
    requires SessionValid(s) && EnvOk(env)
    ensures SessionValid(r)
    ensures s.keyBuffer == "" ==> r == s
    ensures s.keyBuffer != "" ==> r == SelectNumberByValueSpec(s.(keyBuffer := ""), ParseInt(s.keyBuffer), env)
  {
    if s.keyBuffer == "" then s
    else SelectNumberByValueSpec(s.(keyBuffer := ""), ParseInt(s.keyBuffer), env)
  }

  /** Typing a tile's value and letting the buffer expire selects the first free tile with that value. */
  lemma TypedValueSelects(s: Session, v: nat, env: Env)
    requires SessionValid(s) && EnvOk(env)
    ensures SessionValid(s.(keyBuffer := Decimal(v)))
    ensures ProcessNumberBufferSpec(s.(keyBuffer := Decimal(v)), env)
         == SelectNumberByValueSpec(s.(keyBuffer := ""), v, env)
  {
    ParseDecimal(v);
  }

  // ---------------------------------------------------------------------
  // Undo, reset, shuffle
  // ---------------------------------------------------------------------

  /**
   * undo (script.js:805-834): nothing with an empty history, after the day
   * is complete, or when the last record belongs to another daily puzzle;
   * otherwise pop it and restore its board and counts. The selection and
   * gameActive are left as they are.
   */
  predicate UndoBlocked(s: Session)
  {
    |s.history| == 0
    || (s.mode == Daily && s.dailyChallengeCompleted)
    || (s.mode == Daily && s.history[|s.history| - 1].puzzleId != DailyTag(s.dailyPuzzleCount))
  }

  function UndoSpec(s: Session): (r: Session)
    requires SessionValid(s)
    ensures SessionValid(r)
    ensures UndoBlocked(s) ==> r == s
    ensures !UndoBlocked(s) ==>
      r.history == s.history[..|s.history| - 1]
      && r.numbers == s.history[|s.history| - 1].originalNumbers
      && r.combinationCount == s.history[|s.history| - 1].originalCount
      && r.(numbers := s.numbers, history := s.history, combinationCount := s.combinationCount) == s
  {
    if |s.history| == 0 then s
    else if s.mode == Daily && s.dailyChallengeCompleted then s
    else if s.mode == Daily && s.history[|s.history| - 1].puzzleId != DailyTag(s.dailyPuzzleCount) then s
    else
      var last := s.history[|s.history| - 1];
      s.(history := s.history[..|s.history| - 1], numbers := last.originalNumbers,
         combinationCount := last.originalCount)
  }

  /**
   * reset (script.js:879-900): while the game runs and the day is not
   * complete, back to the initial board with no history, counts or selection.
   */
  function ResetSpec(s: Session): (r: Session)
    requires SessionValid(s)
    ensures SessionValid(r)
    ensures !s.gameActive || (s.mode == Daily && s.dailyChallengeCompleted) ==> r == s
    ensures s.gameActive && !(s.mode == Daily && s.dailyChallengeCompleted) ==>
      r.numbers == s.initialNumbers && r.history == [] && r.combinationCount == map[]
      && r.selected == [] && r.operation.None?
      && r.(numbers := s.numbers, history := s.history, combinationCount := s.combinationCount,
            selected := s.selected, operation := s.operation) == s
  {
    if !s.gameActive then s
    else if s.mode == Daily && s.dailyChallengeCompleted then s
    else s.(numbers := s.initialNumbers, combinationCount := map[], history := [], selected := [],
            operation := None)
  }

  /** `Math.floor(r * m)`: for a draw in [0, 1), an index below m. */
  function Pick(r: real, m: nat): (j: int)
    requires UnitDraw(r) && m > 0
    ensures 0 <= j < m
  {
    assert r * m as real < m as real;
    (r * m as real).Floor
  }

  /** Swap positions i and j. */
  function Swap(xs: seq<int>, i: nat, j: nat): (r: seq<int>)
    requires i < |xs| && j < |xs|
    ensures |r| == |xs|
  {
    xs[i := xs[j]][j := xs[i]]
  }

  /**
   * The Fisher–Yates loop of shuffle (script.js:849-852) from position i
   * down to 1; the loop at position i consumes draw number |xs| - 1 - i.
   */
  function ShuffledFrom(xs: seq<int>, i: int, draws: seq<real>): (r: seq<int>)
    requires i < |xs| && |draws| >= |xs| - 1 && AllUnit(draws)
    ensures |r| == |xs|
    decreases i
  {
    if i <= 0 then xs
    else
      var j := Pick(draws[|xs| - 1 - i], i + 1);
      ShuffledFrom(Swap(xs, i, j), i - 1, draws)
  }

  /** A swap keeps the same numbers. */
  lemma SwapMultiset(xs: seq<int>, i: nat, j: nat)
    requires i < |xs| && j < |xs|
    ensures multiset(Swap(xs, i, j)) == multiset(xs)
  {
    var ys := xs[i := xs[j]];
    assert multiset(ys) == multiset(xs) - multiset{xs[i]} + multiset{xs[j]};
    assert ys[j] == xs[j];
  }

  /** The shuffle only reorders the board. */
  lemma {:induction false} ShuffledPermutes(xs: seq<int>, i: int, draws: seq<real>)
    requires i < |xs| && |draws| >= |xs| - 1 && AllUnit(draws)
    ensures multiset(ShuffledFrom(xs, i, draws)) == multiset(xs)
    decreases i
  {
    if i > 0 {
      var j := Pick(draws[|xs| - 1 - i], i + 1);
      SwapMultiset(xs, i, j);
      ShuffledPermutes(Swap(xs, i, j), i - 1, draws);
    }
  }

  /**
   * shuffle (script.js:836-877): while the game runs, permute the board and
   * clear the selection; history and counts are kept.
   */
  function ShuffleSpec(s: Session, draws: seq<real>): (r: Session)
    requires SessionValid(s) && |draws| >= |s.numbers| - 1 && AllUnit(draws)
    ensures SessionValid(r)
    ensures !s.gameActive ==> r == s
    ensures s.gameActive ==>
      multiset(r.numbers) == multiset(s.numbers) && r.selected == [] && r.operation.None?
      && r.(numbers := s.numbers, selected := s.selected, operation := s.operation) == s
  {
    if !s.gameActive then s
    else
      ShuffledPermutes(s.numbers, |s.numbers| - 1, draws);
      s.(numbers := ShuffledFrom(s.numbers, |s.numbers| - 1, draws), selected := [], operation := None)
  }

  // ---------------------------------------------------------------------
  // Declaring "no solution"
  // ---------------------------------------------------------------------

  /**
   * The verdict checkNoSolution uses: in daily mode the stored flag of the
   * current record, otherwise (and when there is no record) the solver on
   * initialNumbers (script.js:905-913).
   */
  ghost predicate JudgedSolvable(s: Session)
  {
    if s.mode == Daily && 0 <= s.currentPuzzleIndex < |s.dailyPuzzles| then
      s.dailyPuzzles[s.currentPuzzleIndex].hasSolution
    else Solvable(s.initialNumbers)
  }

  /**
   * checkNoSolution (script.js:902-934): a wrong claim costs 30 seconds once
   * per puzzle; a right claim stops the game.
   */
  ghost function CheckNoSolutionSpec(s: Session): (r: Session)
    requires SessionValid(s)
    ensures SessionValid(r)
    ensures JudgedSolvable(s) && !s.noSolutionPenaltyApplied ==>
      r == s.(penaltyTime := s.penaltyTime + 30,
              dailyPuzzlePenalty := if s.mode == Daily then s.dailyPuzzlePenalty + 30 else s.dailyPuzzlePenalty,
              noSolutionPenaltyApplied := true)
    ensures JudgedSolvable(s) && s.noSolutionPenaltyApplied ==> r == s
    ensures !JudgedSolvable(s) ==> r == s.(gameActive := false)
  {
    if JudgedSolvable(s) then
      if !s.noSolutionPenaltyApplied then
        s.(penaltyTime := s.penaltyTime + 30,
           dailyPuzzlePenalty := if s.mode == Daily then s.dailyPuzzlePenalty + 30 else s.dailyPuzzlePenalty,
           noSolutionPenaltyApplied := true)
      else s
    else s.(gameActive := false)
  }

  // ---------------------------------------------------------------------
  // Generating the day's records
  // ---------------------------------------------------------------------

  /**
   * generateDailyPuzzles (script.js:104-126): keep the records when they
   * are already for `date`, otherwise replace them with the day's set.
   */
  ghost function GenerateDailyPuzzlesSpec(s: Session, date: Date, fuel: nat): (r: Session)
    requires SessionValid(s)
    ensures SessionValid(r)
    ensures |s.dailyPuzzles| > 0 && s.dailyPuzzles[0].date == date ==> r == s
    ensures !(|s.dailyPuzzles| > 0 && s.dailyPuzzles[0].date == date) ==>
      r == s.(dailyPuzzles := DailySet(date, fuel))
  {
    if |s.dailyPuzzles| > 0 && s.dailyPuzzles[0].date == date then s
    else
      DailySetRecords(date, fuel);
      s.(dailyPuzzles := DailySet(date, fuel))
  }

  // ---------------------------------------------------------------------
  // Lemmas
  // ---------------------------------------------------------------------

  /** Every record written for a day is solvable, has four numbers and its position as puzzleIndex. */
  lemma GeneratedRecordsSolvable(s: Session, date: Date, fuel: nat)
    requires SessionValid(s)
    requires !(|s.dailyPuzzles| > 0 && s.dailyPuzzles[0].date == date)
    ensures var rs := GenerateDailyPuzzlesSpec(s, date, fuel).dailyPuzzles;
      |rs| <= 5 && forall k :: 0 <= k < |rs| ==>
        rs[k].puzzleIndex == k && rs[k].hasSolution && rs[k].date == date && Solvable(rs[k].numbers)
  {
    DailySetRecords(date, fuel);
  }

  /** A second generateDailyPuzzles for the same date changes nothing. */
  lemma GenerateDailyIdempotent(s: Session, date: Date, fuel: nat)
    requires SessionValid(s)
    ensures GenerateDailyPuzzlesSpec(GenerateDailyPuzzlesSpec(s, date, fuel), date, fuel)
         == GenerateDailyPuzzlesSpec(s, date, fuel)
  {
    if !(|s.dailyPuzzles| > 0 && s.dailyPuzzles[0].date == date) {
      DailySetRecords(date, fuel);
    }
  }

  /** A rejected division leaves board, history and selection as they were. */
  lemma RejectedDivisionChangesNothing(s: Session, env: Env)
    requires SessionValid(s) && EnvOk(env) && |s.selected| == 2
    requires DivisionRejected(Div, s.numbers[s.selected[0]], s.numbers[s.selected[1]])
    ensures PerformOperationSpec(s, Div, env) == s
  {
  }

  /** Every other operator on two selected tiles always makes the move. */
  lemma OtherOperatorsAlwaysMove(s: Session, op: Op)
    requires SessionValid(s) && |s.selected| == 2 && op != Div
    ensures ApplyMove(s, op).Some?
  {
  }

  /** In practice mode performOperation stops the game exactly when it leaves a single 24. */
  lemma PracticeWinIffTwentyFour(s: Session, op: Op, env: Env)
    requires SessionValid(s) && EnvOk(env) && s.mode == Practice && s.gameActive
    requires ApplyMove(s, op).Some?
    ensures !PerformOperationSpec(s, op, env).gameActive <==> Won(ApplyMove(s, op).value)
    ensures PerformOperationSpec(s, op, env).numbers == ApplyMove(s, op).value.numbers
  {
  }

  /**
   * A move followed by undo gives back the board, counts and history, while
   * the day is not complete; only the selection stays cleared. This is the
   * move alone; PerformThenUndo adds the win check.
   */
  lemma UndoRevertsMove(s: Session, op: Op)
    requires SessionValid(s) && ApplyMove(s, op).Some?
    requires !(s.mode == Daily && s.dailyChallengeCompleted)
    ensures UndoSpec(ApplyMove(s, op).value) == s.(selected := [], operation := None)
  {
    var m := ApplyMove(s, op).value;
    assert m.history[..|m.history| - 1] == s.history;
  }

  /** On a move that does not reach 24, performOperation is the move alone. */
  lemma NonWinningPerformIsMove(s: Session, op: Op, env: Env)
    requires SessionValid(s) && EnvOk(env) && ApplyMove(s, op).Some?
    requires !Won(ApplyMove(s, op).value)
    ensures PerformOperationSpec(s, op, env) == ApplyMove(s, op).value
  {
  }

  /**
   * Undo after the whole of performOperation: a move that does not reach 24
   * is taken back; a practice win is taken back on the board but the game
   * stays stopped; a daily win has moved on to the next puzzle (with an
   * empty history) or completed the day, and undo does nothing.
   */
  lemma PerformThenUndo(s: Session, op: Op, env: Env)
    requires SessionValid(s) && EnvOk(env) && ApplyMove(s, op).Some?
    requires !(s.mode == Daily && s.dailyChallengeCompleted)
    ensures var m := ApplyMove(s, op).value;
      var r := PerformOperationSpec(s, op, env);
      (!Won(m) ==> UndoSpec(r) == s.(selected := [], operation := None))
      && (Won(m) && s.mode == Practice ==>
            !r.gameActive && UndoSpec(r) == s.(selected := [], operation := None, gameActive := false))
      && (Won(m) && s.mode == Daily ==> UndoBlocked(r) && UndoSpec(r) == r)
  {
    UndoRevertsMove(s, op);
  }

  /**
   * A move that the three events select i1, choose op, select i2 make from
   * a session with nothing selected and the game running, and that does not
   * reach 24.
   */
  predicate PlainMove(s: Session, i1: int, i2: int, op: Op)
    requires SessionValid(s)
  {
    0 <= i1 < |s.numbers| && 0 <= i2 < |s.numbers| && i1 != i2 && s.selected == [] && s.gameActive
    && !DivisionRejected(op, s.numbers[i1], s.numbers[i2])
    && !Won(ApplyMove(s.(selected := [i1, i2], operation := Some(op)), op).value)
  }

  /**
   * The three events of one move, from a session with nothing selected:
   * click tile i1, choose op, click tile i2. None on an invalid pair.
   */
  ghost function Step(s: Session, i1: int, i2: int, op: Op, env: Env): (r: Option<Session>)
    requires SessionValid(s) && EnvOk(env)
    ensures r.Some? ==> SessionValid(r.value)
  {
    if !(0 <= i1 < |s.numbers| && 0 <= i2 < |s.numbers| && i1 != i2 && s.selected == []) then None
    else
      var a := SelectNumberSpec(s, i1, env);
      var b := SelectOperationSpec(a, op, env);
      Some(SelectNumberSpec(b, i2, env))
  }

  /**
   * While the game runs the three events are performOperation on the pair
   * with the operator chosen, and a move that does not reach 24 is the move
   * alone; on a stopped game they change nothing.
   */
  lemma StepIsMove(s: Session, i1: int, i2: int, op: Op, env: Env)
    requires SessionValid(s) && EnvOk(env)
    requires 0 <= i1 < |s.numbers| && 0 <= i2 < |s.numbers| && i1 != i2 && s.selected == []
    ensures !s.gameActive ==> Step(s, i1, i2, op, env) == Some(s)
    ensures s.gameActive ==>
      var t := s.(selected := [i1, i2], operation := Some(op));
      Step(s, i1, i2, op, env) == Some(PerformOperationSpec(t, op, env))
      && (PlainMove(s, i1, i2, op) ==> Step(s, i1, i2, op, env) == ApplyMove(t, op))
  {
    if s.gameActive {
      var t := s.(selected := [i1, i2], operation := Some(op));
      ClicksSelect(s, i1, op, env);
      assert SelectOperationSpec(SelectNumberSpec(s, i1, env), op, env).(selected := [i1] + [i2]) == t;
      if PlainMove(s, i1, i2, op) {
        NonWinningPerformIsMove(t, op, env);
      }
    }
  }

  /** The first two events, on a running game with nothing selected, select the tile and the operator. */
  lemma ClicksSelect(s: Session, i1: int, op: Op, env: Env)
    requires SessionValid(s) && EnvOk(env) && s.gameActive
    requires 0 <= i1 < |s.numbers| && s.selected == []
    ensures SelectOperationSpec(SelectNumberSpec(s, i1, env), op, env) == s.(selected := [i1], operation := Some(op))
  {
    assert SelectNumberSpec(s, i1, env) == s.(selected := [i1]);
  }

  /**
   * Undo takes back a plain move made by clicks, while the day is not
   * complete.
   */
  lemma StepUndone(s: Session, i1: int, i2: int, op: Op, env: Env)
    requires SessionValid(s) && EnvOk(env) && PlainMove(s, i1, i2, op)
    requires !(s.mode == Daily && s.dailyChallengeCompleted)
    ensures Step(s, i1, i2, op, env).Some?
    ensures var m := Step(s, i1, i2, op, env).value;
      m.selected == [] && m.operation.None? && m.gameActive && m.mode == s.mode
      && m.dailyChallengeCompleted == s.dailyChallengeCompleted
      && UndoSpec(m) == s.(operation := None)
  {
    var t := s.(selected := [i1, i2], operation := Some(op));
    StepIsMove(s, i1, i2, op, env);
    UndoRevertsMove(t, op);
  }

  /**
   * A sequence of plain moves, each made by clicks on the pair it names:
   * the session after them, or None once a pair is invalid, the game is
   * stopped, a move is rejected or a move reaches 24.
   */
  ghost function Replay(s: Session, moves: seq<(int, int, Op)>, env: Env): (r: Option<Session>)
    requires SessionValid(s) && EnvOk(env)
    ensures r.Some? ==> SessionValid(r.value)
    decreases |moves|
  {
    if |moves| == 0 then Some(s)
    else if !PlainMove(s, moves[0].0, moves[0].1, moves[0].2) then None
    else
      match Step(s, moves[0].0, moves[0].1, moves[0].2, env)
      case None => None
      case Some(t) => Replay(t, moves[1..], env)
  }

  /** `n` undos in a row. */
  function UndoTimes(s: Session, n: nat): (r: Session)
    requires SessionValid(s)
    ensures SessionValid(r)
    decreases n
  {
    if n == 0 then s else UndoTimes(UndoSpec(s), n - 1)
  }

  /**
   * N plain moves made by clicks, followed by N undos, give back the starting
   * session, board, counts and history included, while the day is not
   * complete; only the operator is forgotten.
   */
  lemma {:induction false} MovesThenUndos(s: Session, moves: seq<(int, int, Op)>, env: Env)
    requires SessionValid(s) && EnvOk(env) && Replay(s, moves, env).Some?
    requires !(s.mode == Daily && s.dailyChallengeCompleted)
    ensures UndoTimes(Replay(s, moves, env).value, |moves|)
         == if |moves| == 0 then s else s.(operation := None)
    decreases |moves|
  {
    if |moves| > 0 {
      StepUndone(s, moves[0].0, moves[0].1, moves[0].2, env);
      var m := Step(s, moves[0].0, moves[0].1, moves[0].2, env).value;
      var rest := moves[1..];
      assert Replay(s, moves, env) == Replay(m, rest, env);
      MovesThenUndos(m, rest, env);
      UndoTimesSplit(Replay(m, rest, env).value, |rest|);
    }
  }

  /** The last of n + 1 undos applies to the session after the first n. */
  lemma {:induction false} UndoTimesSplit(s: Session, n: nat)
    requires SessionValid(s)
    ensures UndoTimes(s, n + 1) == UndoSpec(UndoTimes(s, n))
    decreases n
  {
    if n > 0 {
      UndoTimesSplit(UndoSpec(s), n - 1);
    }
  }

  /** Declaring "no solution" twice is the same as declaring it once. */
  lemma CheckNoSolutionIdempotent(s: Session)
    requires SessionValid(s)
    ensures CheckNoSolutionSpec(CheckNoSolutionSpec(s)) == CheckNoSolutionSpec(s)
  {
    var r := CheckNoSolutionSpec(s);
    assert JudgedSolvable(r) == JudgedSolvable(s);
  }

  /** However often it is declared, the no-solution penalty adds at most 30 seconds per puzzle. */
  lemma {:induction false} PenaltyAtMostOnce(s: Session, n: nat)
    requires SessionValid(s)
    ensures var r := CheckNoSolutionTimes(s, n);
      s.penaltyTime <= r.penaltyTime <= s.penaltyTime + 30
      && (s.noSolutionPenaltyApplied ==> r.penaltyTime == s.penaltyTime)
    decreases n
  {
    if n > 0 {
      var r1 := CheckNoSolutionSpec(s);
      PenaltyAtMostOnce(r1, n - 1);
      assert JudgedSolvable(r1) == JudgedSolvable(s);
      if JudgedSolvable(s) && !s.noSolutionPenaltyApplied {
        assert r1.noSolutionPenaltyApplied;
      }
    }
  }

  /** `n` no-solution declarations in a row. */
  ghost function CheckNoSolutionTimes(s: Session, n: nat): (r: Session)
    requires SessionValid(s)
    ensures SessionValid(r)
    decreases n
  {
    if n == 0 then s else CheckNoSolutionTimes(CheckNoSolutionSpec(s), n - 1)
  }

  /** In practice mode an unsolvable initial board stops the game on the first declaration. */
  lemma CorrectClaimStops(s: Session)
    requires SessionValid(s) && s.mode == Practice && !Solvable(s.initialNumbers)
    ensures !CheckNoSolutionSpec(s).gameActive
    ensures CheckNoSolutionSpec(s).penaltyTime == s.penaltyTime
  {
  }

  /** Once the day is complete, undo and reset do nothing. */
  lemma CompletedDayIsFrozen(s: Session)
    requires SessionValid(s) && s.mode == Daily && s.dailyChallengeCompleted
    ensures UndoSpec(s) == s && ResetSpec(s) == s
  {
  }

  /** Solving the fifth puzzle completes the day with the sum of the five recorded times. */
  lemma FifthWinCompletes(s: Session, env: Env)
    requires SessionValid(s) && EnvOk(env) && s.mode == Daily && s.dailyPuzzleCount >= 5 && Won(s)
    ensures var r := CheckWinSpec(s, env);
      r.dailyChallengeCompleted && !r.gameActive
      && r.finalDailyTime == Sum(s.dailyPuzzleTimes) + env.elapsed + s.dailyPuzzlePenalty
  {
    var times := s.dailyPuzzleTimes + [env.elapsed + s.dailyPuzzlePenalty];
    assert times[..|times| - 1] == s.dailyPuzzleTimes;
  }
}
