/**
 * The daily dump script (tmp_dump_daily.js): its own date seed, a seeded
 * puzzle that records the solver's verdict without retrying, and the
 * five puzzles of a day at seeds `seed + i * 1000`.
 */
module DumpDaily {
  import opened Seeded
  import opened Solver

  /**
   * getDateSeed: `y * 1000000 + m * 10000 + day * 100` (tmp_dump_daily.js:1-7).
   * A calendar date's seed lies in its year's block, between `year * 1000000
   * + 10100` (1 January) and `year * 1000000 + 123100` (31 December).
   */
  function DateSeed(year: int, month: int, day: int): (r: int)
    ensures 1 <= month <= 12 && 1 <= day <= 31 ==> year * 1000000 + 10100 <= r <= year * 1000000 + 123100
  {
    year * 1000000 + month * 10000 + day * 100
  }

  /** The puzzle generateSeededPuzzle returns for `seed`: the four draws and the solver's verdict. */
  ghost function DumpPuzzle(seed: int): (p: Puzzle)
    ensures |p.numbers| == 4
  {
    var nums := SeededDigits(seed, 4);
    Puzzle(nums, Solvable(nums))
  }

  /** The seed of the i-th puzzle of a day (tmp_dump_daily.js:125). */
  function PuzzleSeed(seed: int, i: int): int
  {
    seed + i * 1000
  }

  /** generateSeededPuzzle (tmp_dump_daily.js:98-104): one attempt, no retry. */
  method GenerateSeededPuzzle(seed: int) returns (p: Puzzle)
    ensures p.numbers == SeededDigits(seed, 4)
    ensures p.hasSolution == Solvable(p.numbers)
  {
    var rand := new SeededRandom(seed);
    var nums := DrawFour(rand);
    var solv := HasSolution(nums);
    p := Puzzle(nums, solv);
  }

  /**
   * The loop at tmp_dump_daily.js:124-127, collecting the five puzzles it
   * logs.
   */
  method DumpDay(year: int, month: int, day: int) returns (puzzles: seq<Puzzle>)
    ensures |puzzles| == 5
    ensures forall i :: 0 <= i < 5 ==> puzzles[i] == DumpPuzzle(PuzzleSeed(DateSeed(year, month, day), i))
  {
    var seed := DateSeed(year, month, day);
    puzzles := [];
    var i := 0;
    while i < 5
      invariant 0 <= i <= 5
      invariant |puzzles| == i
      invariant forall k :: 0 <= k < i ==> puzzles[k] == DumpPuzzle(PuzzleSeed(seed, k))
    {
      var p := GenerateSeededPuzzle(PuzzleSeed(seed, i));
      puzzles := puzzles + [p];
      i := i + 1;
    }
  }

  // ---------------------------------------------------------------------
  // Lemmas
  // ---------------------------------------------------------------------

  /** Every date seed is a multiple of 100. */
  lemma DateSeedMultipleOfHundred(year: int, month: int, day: int)
    ensures DateSeed(year, month, day) % 100 == 0
  {
    var k := year * 10000 + month * 100 + day;
    var s := DateSeed(year, month, day);
    assert s == 100 * k;
    assert s / 100 == k;
  }

  /** The date seed splits back into its year, month and day. */
  lemma DateSeedDecodes(year: int, month: int, day: int)
    requires 1 <= month <= 12 && 1 <= day <= 31
    ensures DateSeed(year, month, day) / 100 % 100 == day
    ensures DateSeed(year, month, day) / 10000 % 100 == month
    ensures DateSeed(year, month, day) / 1000000 == year
  {
    var s := DateSeed(year, month, day);
    assert s == 100 * (year * 10000 + month * 100 + day);
    assert s / 100 == year * 10000 + month * 100 + day;
    assert s / 100 == 100 * (year * 100 + month) + day;
    assert s / 10000 == year * 100 + month by {
      assert s == 10000 * (year * 100 + month) + day * 100;
    }
    assert s / 1000000 == year by {
      assert s == 1000000 * year + (month * 10000 + day * 100);
    }
  }

  /** Different calendar dates give different seeds. */
  lemma DateSeedInjective(y1: int, m1: int, d1: int, y2: int, m2: int, d2: int)
    requires 1 <= m1 <= 12 && 1 <= d1 <= 31
    requires 1 <= m2 <= 12 && 1 <= d2 <= 31
    requires DateSeed(y1, m1, d1) == DateSeed(y2, m2, d2)
    ensures y1 == y2 && m1 == m2 && d1 == d2
  {
    DateSeedDecodes(y1, m1, d1);
    DateSeedDecodes(y2, m2, d2);
  }

  /** The five seeds of one day are pairwise distinct. */
  lemma PuzzleSeedsDistinct(seed: int, i: int, j: int)
    requires 0 <= i < 5 && 0 <= j < 5 && i != j
    ensures PuzzleSeed(seed, i) != PuzzleSeed(seed, j)
  {
  }

  /**
   * The stride of 1000 is ten days of date seed: the second puzzle of a
   * day is the first puzzle of the day ten days later in the same month.
   */
  lemma TenDaysApart(year: int, month: int, day: int, i: int)
    requires 0 <= i < 4
    ensures DumpPuzzle(PuzzleSeed(DateSeed(year, month, day), i + 1))
         == DumpPuzzle(PuzzleSeed(DateSeed(year, month, day + 10), i))
  {
    assert PuzzleSeed(DateSeed(year, month, day), i + 1) == PuzzleSeed(DateSeed(year, month, day + 10), i);
  }

  /** From a non-negative seed the four numbers are in 1..9. */
  lemma DumpPuzzleInRange(seed: int)
    requires seed >= 0
    ensures forall k :: 0 <= k < 4 ==> 1 <= DumpPuzzle(seed).numbers[k] <= 9
  {
    SeededDigitsInRange(seed, 4);
  }

  /** Without a retry the recorded verdict can be false: seed 71 draws 1, 1, 1, 1. */
  lemma DumpCanRecordNoSolution()
    ensures !DumpPuzzle(71).hasSolution
  {
    SeedSeventyOne();
    UnsolvableExample();
  }
}
