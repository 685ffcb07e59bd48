/**
 * The Game24 class of script.js with the fields its game logic updates in
 * place. Every method does what the JavaScript method does, step by step,
 * and promises that the new state is the one its specification function in
 * module Session gives for the old state.
 */
module Game {
  import opened Wrappers
  import opened Expressions
  import opened Seeded
  import opened Permutations
  import opened Solver
  import opened DailyGen
  import opened Session

  class Game24 {
    var currentMode: Mode
    var numbers: seq<int>
    var selectedNumbers: seq<int>
    var selectedOperation: Option<Op>
    var history: seq<Move>
    var gameActive: bool
    var penaltyTime: int
    var initialNumbers: seq<int>
    var combinationCount: map<int, int>
    var keyBuffer: string
    var noSolutionPenaltyApplied: bool
    var dailyPuzzleCount: int
    var dailyPuzzleTimes: seq<int>
    var dailyPuzzlePenalty: int
    var dailyPuzzles: seq<DailyRecord>
    var currentPuzzleIndex: int
    var finalDailyTime: int
    var dailyChallengeCompleted: bool

    /** The fields as one Session value. */
    function State(): Session
      reads this
    {
      Session(currentMode, numbers, selectedNumbers, selectedOperation, history, gameActive,
              penaltyTime, initialNumbers, combinationCount, keyBuffer, noSolutionPenaltyApplied,
              dailyPuzzleCount, dailyPuzzleTimes, dailyPuzzlePenalty, dailyPuzzles,
              currentPuzzleIndex, finalDailyTime, dailyChallengeCompleted)
    }

    predicate Valid()
      reads this
    {
      SessionValid(State())
    }

    /** The constructor's field values (script.js:2-34); the mode starts as practice. */
    constructor()
      ensures Valid()
      ensures State() == Session(Practice, [], [], None, [], true, 0, [], map[], "", false,
                                 0, [], 0, [], 0, 0, false)
    {
      currentMode := Practice;
      numbers := [];
      selectedNumbers := [];
      selectedOperation := None;
      history := [];
      gameActive := true;
      penaltyTime := 0;
      initialNumbers := [];
      combinationCount := map[];
      keyBuffer := "";
      noSolutionPenaltyApplied := false;
      dailyPuzzleCount := 0;
      dailyPuzzleTimes := [];
      dailyPuzzlePenalty := 0;
      dailyPuzzles := [];
      currentPuzzleIndex := 0;
      finalDailyTime := 0;
      dailyChallengeCompleted := false;
    }

    /** selectNumber (script.js:498-520). */
    method SelectNumber(index: int, env: Env)
      requires Valid() && EnvOk(env) && 0 <= index < |numbers|
      modifies this
      ensures Valid()
      ensures State() == SelectNumberSpec(old(State()), index, env)
    {
      if !gameActive {
        return;
      }
      if index in selectedNumbers {
        selectedNumbers := Without(selectedNumbers, index);
        selectedOperation := None;
      } else if |selectedNumbers| == 0 {
        selectedNumbers := selectedNumbers + [index];
      } else if |selectedNumbers| == 1 && selectedOperation.Some? {
        selectedNumbers := selectedNumbers + [index];
        PerformOperation(selectedOperation.value, env);
      } else if |selectedNumbers| == 1 {
        selectedNumbers := selectedNumbers + [index];
      }
    }

    /** selectOperation (script.js:522-533). */
    method SelectOperation(op: Op, env: Env)
      requires Valid() && EnvOk(env)
      modifies this
      ensures Valid()
      ensures State() == SelectOperationSpec(old(State()), op, env)
    {
      if !gameActive {
        return;
      }
      if |selectedNumbers| == 1 {
        selectedOperation := Some(op);
      } else if |selectedNumbers| == 2 {
        PerformOperation(op, env);
      }
    }

    /** performOperation (script.js:716-782). */
    method PerformOperation(op: Op, env: Env)
      requires Valid() && EnvOk(env)
      modifies this
      ensures Valid()
      ensures State() == PerformOperationSpec(old(State()), op, env)
    {
      if |selectedNumbers| != 2 {
        return;
      }
      var index1, index2 := selectedNumbers[0], selectedNumbers[1];
      var num1, num2 := numbers[index1], numbers[index2];
      var result: int;
      match op {
        case Add => result := num1 + num2;
        case Sub => result := num1 - num2;
        case Mul => result := num1 * num2;
        case Div =>
          if num2 == 0 || num1 % num2 != 0 {
            return;
          }
          result := num1 / num2;
      }
      CombineSelected(op, result, env);
    }

    /**
     * The rest of performOperation once the operator has produced `result`
     * (script.js:749-781): record the move, merge the two tiles and their
     * counts, clear the selection and check for a win.
     */
    method CombineSelected(op: Op, result: int, env: Env)
      requires Valid() && EnvOk(env) && |selectedNumbers| == 2
      requires Apply(op, Int(numbers[selectedNumbers[0]]), Int(numbers[selectedNumbers[1]])) == Ok(Int(result))
      modifies this
      ensures Valid()
      ensures State() == PerformOperationSpec(old(State()), op, env)
    {
      MergeSelected(op, result);
      CheckWinCondition(env);
    }

    /** Record the move, merge the two tiles and their counts, clear the selection (script.js:749-775). */
    method MergeSelected(op: Op, result: int)
      requires |selectedNumbers| == 2 && 0 <= selectedNumbers[0] < |numbers| && 0 <= selectedNumbers[1] < |numbers|
      modifies this
      ensures State() == Merged(old(State()), op, result)
    {
      var index1, index2 := selectedNumbers[0], selectedNumbers[1];
      var num1, num2 := numbers[index1], numbers[index2];
      var currentCombinationCount := CountAt(combinationCount, index1) + CountAt(combinationCount, index2) + 1;
      var puzzleId := if currentMode == Daily then DailyTag(dailyPuzzleCount) else PracticeTag;
      RecordAndMerge(Move(num1, num2, op, result, index1, index2, numbers, combinationCount, puzzleId));
      MergeCounts(index1, index2, currentCombinationCount);
      Deselect();
    }

    /** Push the move and put its result in place of the two tiles. */
    method RecordAndMerge(move: Move)
      requires 0 <= move.index1 < |numbers| && 0 <= move.index2 < |numbers|
      modifies this
      ensures State() == old(State()).(history := old(history) + [move],
                                       numbers := RemoveAt(old(numbers)[move.index1 := move.result], move.index2))
    {
      RecordMove(move);
      MergeNumbers(move.index1, move.index2, move.result);
    }

    /** `this.history.push(...)` (script.js:753-763). */
    method RecordMove(move: Move)
      modifies this
      ensures State() == old(State()).(history := old(history) + [move])
    {
      history := history + [move];
    }

    /** The result replaces the first tile and the second is spliced out (script.js:766-767). */
    method MergeNumbers(index1: int, index2: int, result: int)
      requires 0 <= index1 < |numbers| && 0 <= index2 < |numbers|
      modifies this
      ensures State() == old(State()).(numbers := RemoveAt(old(numbers)[index1 := result], index2))
    {
      numbers := numbers[index1 := result];
      numbers := numbers[..index2] + numbers[index2 + 1..];
    }

    /** The merged tile's count of combinations (script.js:750, 770-771). */
    method MergeCounts(index1: int, index2: int, total: int)
      modifies this
      ensures State() == old(State()).(combinationCount := old(combinationCount)[index1 := total] - {index2})
    {
      combinationCount := combinationCount[index1 := total];
      combinationCount := combinationCount - {index2};
    }

    /** `selectedNumbers = []; selectedOperation = null`. */
    method Deselect()
      modifies this
      ensures State() == old(State()).(selected := [], operation := None)
    {
      selectedNumbers := [];
      selectedOperation := None;
    }

    /** checkWinCondition (script.js:936-947). */
    method CheckWinCondition(env: Env)
      requires Valid() && EnvOk(env)
      modifies this
      ensures Valid()
      ensures State() == CheckWinSpec(old(State()), env)
    {
      if currentMode == Daily {
        CheckDailyWinCondition(env);
      } else if |numbers| == 1 && numbers[0] == 24 {
        gameActive := false;
      }
    }

    /** checkDailyWinCondition (script.js:1045-1065), with showDailyComplete's flag. */
    method CheckDailyWinCondition(env: Env)
      requires Valid() && EnvOk(env)
      modifies this
      ensures Valid()
      ensures State() == CheckDailyWinSpec(old(State()), env)
    {
      if |numbers| == 1 && numbers[0] == 24 {
        if dailyPuzzleCount < 5 {
          WinAndAdvance(env);
        } else {
          WinAndComplete(env);
        }
      }
    }

    /** A daily puzzle before the fifth solved: its time is stored and the next puzzle loaded (script.js:1046-1056). */
    method WinAndAdvance(env: Env)
      requires Valid() && EnvOk(env) && Won(State()) && dailyPuzzleCount < 5
      modifies this
      ensures Valid()
      ensures State() == CheckDailyWinSpec(old(State()), env)
    {
      DailyWinSteps(State(), env);
      StopAndRecordTime(env.elapsed + dailyPuzzlePenalty);
      ResumeWithNextPuzzle(env);
    }

    /** The fifth daily puzzle solved: its time is stored and the challenge completed (script.js:1046-1051, 1057-1061). */
    method WinAndComplete(env: Env)
      requires Valid() && EnvOk(env) && Won(State()) && dailyPuzzleCount >= 5
      modifies this
      ensures Valid()
      ensures State() == CheckDailyWinSpec(old(State()), env)
    {
      DailyWinSteps(State(), env);
      StopAndRecordTime(env.elapsed + dailyPuzzlePenalty);
      CompleteDailyChallenge();
    }

    /** The puzzle is over and its time, penalty included, is stored (script.js:1047-1051). */
    method StopAndRecordTime(time: int)
      modifies this
      ensures State() == old(State()).(gameActive := false, dailyPuzzleTimes := old(dailyPuzzleTimes) + [time])
    {
      gameActive := false;
      dailyPuzzleTimes := dailyPuzzleTimes + [time];
    }

    /** "Move to next puzzle immediately" (script.js:1053-1056). */
    method ResumeWithNextPuzzle(env: Env)
      requires Valid() && EnvOk(env)
      modifies this
      ensures Valid()
      ensures State() == NextDailyPuzzleSpec(old(State()).(gameActive := true), env)
    {
      gameActive := true;
      NextDailyPuzzle(env);
    }

    /** The final time is the sum of the five, and the challenge is marked complete (script.js:1058-1061). */
    method CompleteDailyChallenge()
      modifies this
      ensures State() == old(State()).(finalDailyTime := Sum(old(dailyPuzzleTimes)), dailyChallengeCompleted := true)
    {
      finalDailyTime := Sum(dailyPuzzleTimes);
      dailyChallengeCompleted := true;
    }

    /** nextDailyPuzzle (script.js:995-1019). */
    method NextDailyPuzzle(env: Env)
      requires Valid() && EnvOk(env)
      modifies this
      ensures Valid()
      ensures State() == NextDailyPuzzleSpec(old(State()), env)
    {
      AdvanceDailyPuzzle();
      LoadDailyPuzzle(env);
    }

    /** The resets nextDailyPuzzle makes before loading (script.js:996-1014). */
    method AdvanceDailyPuzzle()
      requires Valid()
      modifies this
      ensures ReadyToLoad(State())
      ensures State() == NextDailyResets(old(State()))
    {
      dailyPuzzleCount := dailyPuzzleCount + 1;
      currentPuzzleIndex := dailyPuzzleCount - 1;
      dailyPuzzlePenalty := 0;
      ClearPenalties();
      ClearHistory();
    }

    /** "Clear any accumulated penalties from previous puzzles" (script.js:1008-1009). */
    method ClearPenalties()
      modifies this
      ensures State() == old(State()).(penaltyTime := 0, noSolutionPenaltyApplied := false)
    {
      penaltyTime := 0;
      noSolutionPenaltyApplied := false;
    }

    /** "Clear history from previous puzzle" (script.js:1012-1014). */
    method ClearHistory()
      modifies this
      ensures State() == old(State()).(history := [], selected := [], operation := None)
    {
      history := [];
      selectedNumbers := [];
      selectedOperation := None;
    }

    /** loadDailyPuzzle (script.js:167-185); the fallback is initializeGame's generateNumbers. */
    method LoadDailyPuzzle(env: Env)
      requires ReadyToLoad(State()) && EnvOk(env)
      modifies this
      ensures Valid()
      ensures State() == LoadDailyPuzzleSpec(old(State()), env)
    {
      if 0 <= currentPuzzleIndex < |dailyPuzzles| {
        LoadBoard(dailyPuzzles[currentPuzzleIndex].numbers);
      } else {
        GenerateNumbers(env.draws);
      }
    }

    /** A new board: `numbers` and its copy in `initialNumbers`, no combination counts. */
    method LoadBoard(nums: seq<int>)
      modifies this
      ensures State() == old(State()).(numbers := nums, initialNumbers := nums, combinationCount := map[])
    {
      numbers := nums;
      initialNumbers := nums;
      combinationCount := map[];
    }

    /** The loop of generateNumbers (script.js:337-340): four numbers `Math.floor(random() * 9) + 1`. */
    static method DrawBatch(draws: seq<real>) returns (batch: seq<int>)
      requires |draws| >= 4
      ensures batch == Batch(draws)
    {
      batch := [];
      var i := 0;
      while i < 4
        invariant 0 <= i <= 4
        invariant batch == Batch(draws)[..i]
      {
        batch := batch + [Digit(draws[i])];
        i := i + 1;
      }
    }

    /** generateNumbers (script.js:335-350), drawing from `draws` instead of Math.random. */
    method GenerateNumbers(draws: seq<real>)
      requires ReadyToLoad(State()) && |draws| >= 4
      modifies this
      ensures Valid()
      ensures State() == GenerateNumbersSpec(old(State()), draws)
      decreases |draws|
    {
      var batch := DrawBatch(draws);
      LoadBoard(batch);
      GenerateNumbersStep(old(State()), draws);
      var solvable := HasSolution(numbers);
      if !solvable && |draws| >= 8 {
        GenerateNumbers(draws[4..]);
      }
    }

    /** undo (script.js:805-834). */
    method Undo()
      requires Valid()
      modifies this
      ensures Valid()
      ensures State() == UndoSpec(old(State()))
    {
      if |history| == 0 {
        return;
      }
      if currentMode == Daily && dailyChallengeCompleted {
        return;
      }
      if currentMode == Daily {
        var lastOperation := history[|history| - 1];
        if lastOperation.puzzleId != DailyTag(dailyPuzzleCount) {
          return;
        }
      }
      var lastOperation := history[|history| - 1];
      history := history[..|history| - 1];
      numbers := lastOperation.originalNumbers;
      combinationCount := lastOperation.originalCount;
    }

    /** shuffle (script.js:836-877): the Fisher–Yates swap loop, one draw per position. */
    method Shuffle(draws: seq<real>)
      requires Valid() && |draws| >= |numbers| - 1 && AllUnit(draws)
      modifies this
      ensures Valid()
      ensures State() == ShuffleSpec(old(State()), draws)
    {
      if !gameActive {
        return;
      }
      var i := |numbers| - 1;
      while i > 0
        invariant -1 <= i < |numbers| && |numbers| == |old(numbers)|
        invariant ShuffledFrom(numbers, i, draws) == ShuffledFrom(old(numbers), |old(numbers)| - 1, draws)
        invariant State() == old(State()).(numbers := numbers)
        decreases i
      {
        var j := Pick(draws[|numbers| - 1 - i], i + 1);
        numbers := numbers[i := numbers[j]][j := numbers[i]];
        i := i - 1;
      }
      Deselect();
    }

    /** reset (script.js:879-900). */
    method Reset()
      requires Valid()
      modifies this
      ensures Valid()
      ensures State() == ResetSpec(old(State()))
    {
      if !gameActive {
        return;
      }
      if currentMode == Daily && dailyChallengeCompleted {
        return;
      }
      RestoreBoard();
      ClearHistory();
    }

    /** Back to the initial numbers with no combination counts (script.js:888-889). */
    method RestoreBoard()
      modifies this
      ensures State() == old(State()).(numbers := old(initialNumbers), combinationCount := map[])
    {
      numbers := initialNumbers;
      combinationCount := map[];
    }

    /** checkNoSolution (script.js:902-934). */
    method CheckNoSolution()
      requires Valid() && |initialNumbers| == 4
      modifies this
      ensures Valid()
      ensures State() == CheckNoSolutionSpec(old(State()))
    {
      var hasSolution: bool;
      if currentMode == Daily && 0 <= currentPuzzleIndex < |dailyPuzzles| {
        hasSolution := dailyPuzzles[currentPuzzleIndex].hasSolution;
      } else {
        hasSolution := HasSolution(initialNumbers);
      }
      if hasSolution {
        if !noSolutionPenaltyApplied {
          AddNoSolutionPenalty();
        }
      } else {
        gameActive := false;
      }
    }

    /** The 30-second penalty for a wrong "no solution", counted once (script.js:916-922). */
    method AddNoSolutionPenalty()
      modifies this
      ensures State() == old(State()).(penaltyTime := old(penaltyTime) + 30,
        dailyPuzzlePenalty := if old(currentMode) == Daily then old(dailyPuzzlePenalty) + 30 else old(dailyPuzzlePenalty),
        noSolutionPenaltyApplied := true)
    {
      penaltyTime := penaltyTime + 30;
      if currentMode == Daily {
        dailyPuzzlePenalty := dailyPuzzlePenalty + 30;
      }
      noSolutionPenaltyApplied := true;
    }

    /** clearSelection (script.js:669-681). */
    method ClearSelection()
      requires Valid()
      modifies this
      ensures Valid()
      ensures State() == ClearSelectionSpec(old(State()))
    {
      selectedNumbers := [];
      selectedOperation := None;
      keyBuffer := "";
    }

    /** processNumberBuffer (script.js:684-695). */
    method ProcessNumberBuffer(env: Env)
      requires Valid() && EnvOk(env)
      modifies this
      ensures Valid()
      ensures State() == ProcessNumberBufferSpec(old(State()), env)
    {
      if keyBuffer == "" {
        return;
      }
      var number := ParseInt(keyBuffer);
      keyBuffer := "";
      SelectNumberByValue(number, env);
    }

    /** selectNumberByValue (script.js:697-714). */
    method SelectNumberByValue(value: int, env: Env)
      requires Valid() && EnvOk(env)
      modifies this
      ensures Valid()
      ensures State() == SelectNumberByValueSpec(old(State()), value, env)
    {
      var available := FirstAvailable(numbers, selectedNumbers, value, 0);
      if available.Some? {
        SelectNumber(available.value, env);
      } else {
        keyBuffer := "";
      }
    }

    /**
     * generateDailyPuzzles (script.js:104-126) for `date`; a retry that runs
     * out of fuel ends the list.
     */
    method GenerateDailyPuzzles(date: Date, fuel: nat)
      requires Valid()
      modifies this
      ensures Valid()
      ensures State() == GenerateDailyPuzzlesSpec(old(State()), date, fuel)
    {
      if |dailyPuzzles| > 0 && dailyPuzzles[0].date == date {
        return;
      }
      DailySetRecords(date, fuel);
      dailyPuzzles := [];
      dailyPuzzles := DailyPuzzlesFor(date, fuel);
    }

    /** The loop of generateDailyPuzzles (script.js:117-125), pushing the five records of `date`. */
    static method DailyPuzzlesFor(date: Date, fuel: nat) returns (records: seq<DailyRecord>)
      ensures records == DailySet(date, fuel)
    {
      records := [];
      var seed := DateSeed(date);
      var i := 0;
      while i < 5
        invariant 0 <= i <= 5 && |records| == i
        invariant records + DailyFrom(RetryWith(Solvable, fuel), date, seed, i) == DailySet(date, fuel)
      {
        var done;
        records, done := PushDailyPuzzle(date, seed, i, fuel, records);
        if done {
          return;
        }
        i := i + 1;
      }
      assert records + [] == records;
    }

    /**
     * One pass of that loop: the record for puzzle `i`, or `done` when its
     * retry ran out of fuel and the day has no further records.
     */
    static method PushDailyPuzzle(date: Date, seed: int, i: nat, fuel: nat, records: seq<DailyRecord>)
      returns (next: seq<DailyRecord>, done: bool)
      requires i < 5
      ensures done ==> next == records + DailyFrom(RetryWith(Solvable, fuel), date, seed, i)
      ensures !done ==> |next| == |records| + 1
      ensures !done ==> next + DailyFrom(RetryWith(Solvable, fuel), date, seed, i + 1) == records + DailyFrom(RetryWith(Solvable, fuel), date, seed, i)
    {
      var puzzle := DailyGen.GenerateSeededPuzzle(seed + i, fuel);
      RetryWithAt(Solvable, fuel, seed + i);
      if puzzle.None? {
        DailyFromStep(RetryWith(Solvable, fuel), date, seed, i);
        assert records + [] == records;
        return records, true;
      }
      DailyFromAppend(RetryWith(Solvable, fuel), date, seed, i, records, puzzle.value);
      next := records + [DailyRecord(date, i, puzzle.value.numbers, puzzle.value.hasSolution)];
      done := false;
    }
  }
}
