/**
 * The game's own seeded generation (script.js:104-165): the date seed,
 * generateSeededPuzzle, which retries at `seed + 1000` until the solver
 * accepts, and the five records generateDailyPuzzles writes for a day.
 */
module DailyGen {
  import opened Wrappers
  import opened Seeded
  import opened Solver

  /** A calendar date as the seed sees it. */
  datatype Date = Date(year: int, month: int, day: int)

  /** One entry of `dailyPuzzles`. */
  datatype DailyRecord = DailyRecord(date: Date, puzzleIndex: int, numbers: seq<int>, hasSolution: bool)

  /**
   * getDateSeed: `year * 10000 + month * 100 + day` (script.js:128-137).
   * A calendar date's seed lies in its year's block, between `year * 10000
   * + 101` (1 January) and `year * 10000 + 1231` (31 December).
   */
  function DateSeed(d: Date): (r: int)
    ensures 1 <= d.month <= 12 && 1 <= d.day <= 31 ==> d.year * 10000 + 101 <= r <= d.year * 10000 + 1231
  {
    d.year * 10000 + d.month * 100 + d.day
  }

  /** The numbers drawn by the k-th attempt from `seed`, which uses seed `seed + 1000 * k`. */
  function Attempt(seed: int, k: nat): seq<int>
  {
    SeededDigits(seed + 1000 * k, 4)
  }

  /**
   * What generateSeededPuzzle returns when `accept` is its verdict on four
   * numbers, allowing it `fuel` attempts: the first attempt accepted, or
   * None when every allowed attempt is rejected.
   */
  ghost function RetryBy(accept: seq<int> -> bool, seed: int, fuel: nat): (r: Option<Puzzle>)
    ensures r.Some? ==> r.value.hasSolution && |r.value.numbers| == 4
    decreases fuel
  {
    if fuel == 0 then None
    else
      var nums := SeededDigits(seed, 4);
      if accept(nums) then Some(Puzzle(nums, true)) else RetryBy(accept, seed + 1000, fuel - 1)
  }

  /** Every puzzle the retry returns is one the verdict accepts. */
  lemma {:induction false} RetryByAccepted(accept: seq<int> -> bool, seed: int, fuel: nat)
    ensures RetryBy(accept, seed, fuel).Some? ==> accept(RetryBy(accept, seed, fuel).value.numbers)
    decreases fuel
  {
    if fuel > 0 && !accept(SeededDigits(seed, 4)) {
      RetryByAccepted(accept, seed + 1000, fuel - 1);
    }
  }

  /** The retry with the solver's verdict, as the game runs it. */
  ghost function Retry(seed: int, fuel: nat): (r: Option<Puzzle>)
    ensures r.Some? ==> r.value.hasSolution && |r.value.numbers| == 4
  {
    RetryBy(Solvable, seed, fuel)
  }

  /**
   * The retry returns the first attempt the verdict accepts, and returns
   * None only when it rejects every allowed attempt.
   */
  lemma {:induction false} RetryByFindsFirst(accept: seq<int> -> bool, seed: int, fuel: nat)
    ensures RetryBy(accept, seed, fuel).Some? ==>
      exists k :: 0 <= k < fuel && RetryBy(accept, seed, fuel).value.numbers == Attempt(seed, k)
               && forall j :: 0 <= j < k ==> !accept(Attempt(seed, j))
    ensures RetryBy(accept, seed, fuel).None? ==> forall k :: 0 <= k < fuel ==> !accept(Attempt(seed, k))
    decreases fuel
  {
    if fuel > 0 {
      var next := seed + 1000;
      AttemptShift(seed, next);
      var r := RetryBy(accept, seed, fuel);
      if accept(Attempt(seed, 0)) {
        assert r.value.numbers == Attempt(seed, 0);
      } else {
        RetryByFindsFirst(accept, next, fuel - 1);
        assert r == RetryBy(accept, next, fuel - 1);
        if r.Some? {
          var k :| 0 <= k < fuel - 1 && r.value.numbers == Attempt(next, k)
                   && forall j :: 0 <= j < k ==> !accept(Attempt(next, j));
          forall j | 0 <= j < k + 1 ensures !accept(Attempt(seed, j)) {
            if j > 0 {
              assert Attempt(seed, j) == Attempt(next, j - 1);
            }
          }
          assert r.value.numbers == Attempt(seed, k + 1);
        } else {
          forall k | 0 <= k < fuel ensures !accept(Attempt(seed, k)) {
            if k > 0 {
              assert Attempt(seed, k) == Attempt(next, k - 1);
            }
          }
        }
      }
    }
  }

  /**
   * generateSeededPuzzle returns the first attempt the solver accepts, and
   * None only when the solver rejects every allowed attempt.
   */
  lemma RetryFindsFirst(seed: int, fuel: nat)
    ensures Retry(seed, fuel).Some? ==>
      exists k :: 0 <= k < fuel && Retry(seed, fuel).value.numbers == Attempt(seed, k)
               && forall j :: 0 <= j < k ==> !Solvable(Attempt(seed, j))
    ensures Retry(seed, fuel).None? ==> forall k :: 0 <= k < fuel ==> !Solvable(Attempt(seed, k))
  {
    RetryByFindsFirst(Solvable, seed, fuel);
  }

  /** Attempts from `seed + 1000` are the later attempts from `seed`. */
  lemma AttemptShift(seed: int, next: int)
    requires next == seed + 1000
    ensures Attempt(seed, 0) == SeededDigits(seed, 4)
    ensures forall k: nat :: Attempt(next, k) == Attempt(seed, k + 1)
  {
    forall k: nat ensures Attempt(next, k) == Attempt(seed, k + 1) {
      assert next + 1000 * k == seed + 1000 * (k + 1);
    }
  }

  /** generateSeededPuzzle (script.js:139-156), with one unit of fuel per attempt. */
  method GenerateSeededPuzzle(seed: int, fuel: nat) returns (r: Option<Puzzle>)
    ensures r == Retry(seed, fuel)
    decreases fuel
  {
    if fuel == 0 {
      return None;
    }
    var rand := new SeededRandom(seed);
    var numbers := DrawFour(rand);
    var hasSolution := HasSolution(numbers);
    if !hasSolution {
      r := GenerateSeededPuzzle(seed + 1000, fuel - 1);
      return;
    }
    r := Some(Puzzle(numbers, hasSolution));
  }

  /** The retry under the verdict `accept` with `fuel` attempts, as a function of the seed. */
  ghost function RetryWith(accept: seq<int> -> bool, fuel: nat): int -> Option<Puzzle>
  {
    seed => RetryBy(accept, seed, fuel)
  }

  /** Applying RetryWith is the retry at that seed. */
  lemma RetryWithAt(accept: seq<int> -> bool, fuel: nat, seed: int)
    ensures RetryWith(accept, fuel)(seed) == RetryBy(accept, seed, fuel)
  {
  }

  /**
   * The records generateDailyPuzzles pushes from index `i` on, the i-th
   * from `retry(seed + i)`; the sequence stops where a retry returns None.
   */
  ghost function DailyFrom(retry: int -> Option<Puzzle>, date: Date, seed: int, i: nat): (rs: seq<DailyRecord>)
    requires i <= 5
    ensures |rs| <= 5 - i
    decreases 5 - i
  {
    if i == 5 then []
    else
      match retry(seed + i)
      case None => []
      case Some(p) => [DailyRecord(date, i, p.numbers, p.hasSolution)] + DailyFrom(retry, date, seed, i + 1)
  }

  /** The records of a day under the verdict `accept`, starting at the date seed. */
  ghost function DailyOf(accept: seq<int> -> bool, date: Date, fuel: nat): seq<DailyRecord>
  {
    DailyFrom(RetryWith(accept, fuel), date, DateSeed(date), 0)
  }

  /** The five records of a day (script.js:114-125). */
  ghost function DailySet(date: Date, fuel: nat): seq<DailyRecord>
  {
    DailyOf(Solvable, date, fuel)
  }

  // ---------------------------------------------------------------------
  // Lemmas
  // ---------------------------------------------------------------------

  /** One step of DailyFrom: the record at index `i`, or the end when its retry returns None. */
  lemma DailyFromStep(retry: int -> Option<Puzzle>, date: Date, seed: int, i: nat)
    requires i < 5
    ensures retry(seed + i).None? ==> DailyFrom(retry, date, seed, i) == []
    ensures retry(seed + i).Some? ==>
      DailyFrom(retry, date, seed, i)
      == [DailyRecord(date, i, retry(seed + i).value.numbers, retry(seed + i).value.hasSolution)] + DailyFrom(retry, date, seed, i + 1)
  {
  }

  /**
   * The loop step of generateDailyPuzzles: appending record i, when its
   * retry succeeds, keeps `records + DailyFrom(i)` the same sequence.
   */
  lemma DailyFromAppend(retry: int -> Option<Puzzle>, date: Date, seed: int, i: nat, records: seq<DailyRecord>, p: Puzzle)
    requires i < 5 && retry(seed + i) == Some(p)
    ensures (records + [DailyRecord(date, i, p.numbers, p.hasSolution)]) + DailyFrom(retry, date, seed, i + 1)
         == records + DailyFrom(retry, date, seed, i)
  {
    DailyFromStep(retry, date, seed, i);
  }

  /** Record k of DailyFrom comes from the retry at seed `seed + i + k` and carries its date and index. */
  lemma {:induction false} DailyFromAt(retry: int -> Option<Puzzle>, date: Date, seed: int, i: nat, k: nat)
    requires i <= 5 && k < |DailyFrom(retry, date, seed, i)|
    ensures var r := DailyFrom(retry, date, seed, i)[k];
      r.date == date && r.puzzleIndex == i + k && retry(seed + i + k) == Some(Puzzle(r.numbers, r.hasSolution))
    decreases 5 - i
  {
    var rs := DailyFrom(retry, date, seed, i);
    var tail := DailyFrom(retry, date, seed, i + 1);
    assert rs == [rs[0]] + tail;
    if k > 0 {
      DailyFromAt(retry, date, seed, i + 1, k - 1);
      assert rs[k] == tail[k - 1];
      assert seed + i + k == seed + (i + 1) + (k - 1);
    }
  }

  /** A list shorter than the rest of the day ends at a retry that returned None. */
  lemma {:induction false} DailyFromEnds(retry: int -> Option<Puzzle>, date: Date, seed: int, i: nat)
    requires i <= 5
    ensures var rs := DailyFrom(retry, date, seed, i);
      |rs| < 5 - i ==> retry(seed + i + |rs|).None?
    decreases 5 - i
  {
    if i < 5 && retry(seed + i).Some? {
      DailyFromEnds(retry, date, seed, i + 1);
      var rs := DailyFrom(retry, date, seed, i);
      var tail := DailyFrom(retry, date, seed, i + 1);
      assert rs == [rs[0]] + tail;
      assert seed + i + |rs| == seed + (i + 1) + |tail|;
    }
  }

  /**
   * Under any verdict, every record of a day is accepted, carries its
   * position as puzzleIndex and holds four numbers; fewer than five
   * records means the next retry ran out of fuel.
   */
  lemma DailyRecordsBy(accept: seq<int> -> bool, date: Date, fuel: nat)
    ensures |DailyOf(accept, date, fuel)| <= 5
    ensures forall k :: 0 <= k < |DailyOf(accept, date, fuel)| ==>
      var r := DailyOf(accept, date, fuel)[k];
      r.puzzleIndex == k && r.hasSolution && r.date == date && |r.numbers| == 4 && accept(r.numbers)
    ensures |DailyOf(accept, date, fuel)| < 5 ==>
      RetryBy(accept, DateSeed(date) + |DailyOf(accept, date, fuel)|, fuel).None?
  {
    var rs := DailyOf(accept, date, fuel);
    forall k | 0 <= k < |rs|
      ensures rs[k].puzzleIndex == k && rs[k].hasSolution && rs[k].date == date && |rs[k].numbers| == 4 && accept(rs[k].numbers)
    {
      DailyOfAt(accept, date, fuel, k);
    }
    DailyFromEnds(RetryWith(accept, fuel), date, DateSeed(date), 0);
    RetryWithAt(accept, fuel, DateSeed(date) + 0 + |rs|);
  }

  /** Record k of a day is the accepted retry at seed `DateSeed(date) + k`. */
  lemma DailyOfAt(accept: seq<int> -> bool, date: Date, fuel: nat, k: nat)
    requires k < |DailyOf(accept, date, fuel)|
    ensures var r := DailyOf(accept, date, fuel)[k];
      r.puzzleIndex == k && r.hasSolution && r.date == date && |r.numbers| == 4 && accept(r.numbers)
      && RetryBy(accept, DateSeed(date) + k, fuel) == Some(Puzzle(r.numbers, true))
  {
    RecordFromSeedAt(accept, date, DateSeed(date), fuel, k);
  }

  /** Record k of the records from `seed` is the accepted retry at `seed + k`. */
  lemma RecordFromSeedAt(accept: seq<int> -> bool, date: Date, seed: int, fuel: nat, k: nat)
    requires k < |DailyFrom(RetryWith(accept, fuel), date, seed, 0)|
    ensures var r := DailyFrom(RetryWith(accept, fuel), date, seed, 0)[k];
      r.puzzleIndex == k && r.hasSolution && r.date == date && |r.numbers| == 4 && accept(r.numbers)
      && RetryBy(accept, seed + k, fuel) == Some(Puzzle(r.numbers, true))
  {
    var r := DailyFrom(RetryWith(accept, fuel), date, seed, 0)[k];
    DailyFromAt(RetryWith(accept, fuel), date, seed, 0, k);
    RetryWithAt(accept, fuel, seed + k);
    assert RetryBy(accept, seed + k, fuel) == Some(Puzzle(r.numbers, r.hasSolution));
    RetryByAccepted(accept, seed + k, fuel);
  }

  /** Every record of a day is solvable, carries its position as puzzleIndex and holds four numbers. */
  lemma DailySetRecords(date: Date, fuel: nat)
    ensures |DailySet(date, fuel)| <= 5
    ensures forall k :: 0 <= k < |DailySet(date, fuel)| ==>
      var r := DailySet(date, fuel)[k];
      r.puzzleIndex == k && r.hasSolution && r.date == date && |r.numbers| == 4 && Solvable(r.numbers)
  {
    DailyRecordsBy(Solvable, date, fuel);
  }

  /** From a non-negative seed every accepted puzzle has its numbers in 1..9. */
  lemma RetryByInRange(accept: seq<int> -> bool, seed: int, fuel: nat)
    requires seed >= 0
    requires RetryBy(accept, seed, fuel).Some?
    ensures forall i :: 0 <= i < 4 ==> 1 <= RetryBy(accept, seed, fuel).value.numbers[i] <= 9
  {
    RetryByFindsFirst(accept, seed, fuel);
    var k :| 0 <= k < fuel && RetryBy(accept, seed, fuel).value.numbers == Attempt(seed, k);
    SeededDigitsInRange(seed + 1000 * k, 4);
  }

  /** Under any verdict, the records of a day with a non-negative seed have their numbers in 1..9. */
  lemma DailyInRangeBy(accept: seq<int> -> bool, date: Date, fuel: nat)
    requires DateSeed(date) >= 0
    ensures forall k, i :: 0 <= k < |DailyOf(accept, date, fuel)| && 0 <= i < 4 ==>
      1 <= DailyOf(accept, date, fuel)[k].numbers[i] <= 9
  {
    var rs := DailyOf(accept, date, fuel);
    forall k | 0 <= k < |rs|
      ensures forall i :: 0 <= i < 4 ==> 1 <= rs[k].numbers[i] <= 9
    {
      DailyOfAt(accept, date, fuel, k);
      RetryByInRange(accept, DateSeed(date) + k, fuel);
    }
  }

  /** The records of a day with a non-negative seed have their numbers in 1..9. */
  lemma DailySetInRange(date: Date, fuel: nat)
    requires DateSeed(date) >= 0
    ensures forall k, i :: 0 <= k < |DailySet(date, fuel)| && 0 <= i < 4 ==>
      1 <= DailySet(date, fuel)[k].numbers[i] <= 9
  {
    DailyInRangeBy(Solvable, date, fuel);
  }

  /**
   * The stride `seed + i` is one day of date seed: under any verdict,
   * puzzle i + 1 of a day is puzzle i of the next day in the same month.
   * DailySet is this with the solver's verdict.
   */
  lemma ConsecutiveDaysShare(accept: seq<int> -> bool, year: int, month: int, day: int, fuel: nat, i: nat)
    requires i + 1 < |DailyOf(accept, Date(year, month, day), fuel)|
    requires i < |DailyOf(accept, Date(year, month, day + 1), fuel)|
    ensures DailyOf(accept, Date(year, month, day + 1), fuel)[i].numbers == DailyOf(accept, Date(year, month, day), fuel)[i + 1].numbers
  {
    var today, tomorrow := Date(year, month, day), Date(year, month, day + 1);
    var seed := DateSeed(today);
    NextDaySeed(year, month, day);
    assert DailyOf(accept, tomorrow, fuel) == DailyFrom(RetryWith(accept, fuel), tomorrow, seed + 1, 0);
    ShiftedSeedsShare(RetryWith(accept, fuel), today, tomorrow, seed, i);
  }

  /** The next day of the same month has the next date seed. */
  lemma NextDaySeed(year: int, month: int, day: int)
    ensures DateSeed(Date(year, month, day + 1)) == DateSeed(Date(year, month, day)) + 1
  {
  }

  /** Records i + 1 from `seed` and i from `seed + 1` come from the same retry. */
  lemma ShiftedSeedsShare(retry: int -> Option<Puzzle>, date1: Date, date2: Date, seed: int, i: nat)
    requires i + 1 < |DailyFrom(retry, date1, seed, 0)|
    requires i < |DailyFrom(retry, date2, seed + 1, 0)|
    ensures DailyFrom(retry, date2, seed + 1, 0)[i].numbers == DailyFrom(retry, date1, seed, 0)[i + 1].numbers
  {
    DailyFromAt(retry, date1, seed, 0, i + 1);
    DailyFromAt(retry, date2, seed + 1, 0, i);
    assert seed + 0 + (i + 1) == seed + 1 + 0 + i;
  }

  /** The retry rejects seed 71, whose draws are 1, 1, 1, 1, and moves on to seed 1071. */
  lemma RetrySkipsUnsolvable(fuel: nat)
    requires fuel >= 1
    ensures Retry(71, fuel) == Retry(1071, fuel - 1)
  {
    SeedSeventyOne();
    UnsolvableExample();
  }
}
