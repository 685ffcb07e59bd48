/**
 * The static table of daily puzzles (daily-puzzles.js): seven dates from
 * 2025-09-09 to 2025-09-15, each with its challenge number and five
 * puzzles, and the lookup getDailyPuzzles that answers null for a date the
 * table does not hold.
 */
module DailyTable {
  import opened Wrappers
  import opened Seeded
  import opened Expressions
  import opened Solver

  /** `{ challengeNumber, puzzles }`, one entry of DAILY_PUZZLES. */
  datatype DayData = DayData(challengeNumber: int, puzzles: seq<Puzzle>)

  /** The date keys of the table, in order. */
  const Dates: seq<string> :=
    ["2025-09-09", "2025-09-10", "2025-09-11", "2025-09-12", "2025-09-13", "2025-09-14", "2025-09-15"]

  /** DAILY_PUZZLES (daily-puzzles.js:3-74). */
  const DailyPuzzles: map<string, DayData> := map[
    "2025-09-09" := DayData(1, [Puzzle([6, 8, 7, 7], false), Puzzle([5, 7, 2, 7], true), Puzzle([4, 6, 7, 7], true),
                                Puzzle([3, 5, 3, 8], false), Puzzle([2, 4, 8, 8], true)]),
    "2025-09-10" := DayData(2, [Puzzle([9, 3, 2, 1], true), Puzzle([8, 8, 1, 1], false), Puzzle([7, 6, 4, 3], true),
                                Puzzle([5, 5, 2, 2], false), Puzzle([9, 7, 3, 1], true)]),
    "2025-09-11" := DayData(3, [Puzzle([6, 4, 3, 2], true), Puzzle([8, 8, 2, 1], false), Puzzle([9, 5, 4, 1], true),
                                Puzzle([7, 7, 1, 1], false), Puzzle([6, 5, 3, 2], true)]),
    "2025-09-12" := DayData(4, [Puzzle([8, 6, 2, 1], true), Puzzle([9, 9, 1, 1], false), Puzzle([7, 4, 3, 2], true),
                                Puzzle([5, 5, 3, 1], false), Puzzle([8, 7, 2, 1], true)]),
    "2025-09-13" := DayData(5, [Puzzle([6, 5, 4, 1], true), Puzzle([8, 8, 3, 1], false), Puzzle([9, 6, 2, 1], true),
                                Puzzle([7, 7, 2, 1], false), Puzzle([5, 4, 3, 2], true)]),
    "2025-09-14" := DayData(6, [Puzzle([8, 7, 3, 1], true), Puzzle([9, 9, 2, 1], false), Puzzle([6, 5, 4, 2], true),
                                Puzzle([8, 8, 1, 1], false), Puzzle([7, 6, 3, 1], true)]),
    "2025-09-15" := DayData(7, [Puzzle([9, 5, 3, 1], true), Puzzle([7, 7, 3, 1], false), Puzzle([8, 6, 4, 1], true),
                                Puzzle([5, 5, 2, 1], false), Puzzle([9, 7, 2, 1], true)])
  ]

  /**
   * The property names every object inherits from Object.prototype:
   * `DAILY_PUZZLES[name]` finds these as well as the table's own keys.
   */
  const InheritedKeys: set<string> := {
    "constructor", "hasOwnProperty", "isPrototypeOf", "propertyIsEnumerable",
    "toLocaleString", "toString", "valueOf", "__proto__",
    "__defineGetter__", "__defineSetter__", "__lookupGetter__", "__lookupSetter__"}

  /**
   * The object getDailyPuzzles builds, `{ challengeNumber, puzzles }`; a field
   * is None where the property it copies is undefined.
   */
  datatype DayAnswer = DayAnswer(challengeNumber: Option<int>, puzzles: Option<seq<Puzzle>>)

  /**
   * getDailyPuzzles (daily-puzzles.js:78-86): null when the lookup finds
   * nothing; for a key of the table its challenge number and puzzles; for an
   * inherited property, which is truthy but has neither field, an object of
   * two undefined fields.
   */
  function GetDailyPuzzles(dateString: string): (r: Option<DayAnswer>)
    ensures r.None? <==> dateString !in DailyPuzzles && dateString !in InheritedKeys
    ensures dateString in DailyPuzzles ==>
      r == Some(DayAnswer(Some(DailyPuzzles[dateString].challengeNumber), Some(DailyPuzzles[dateString].puzzles)))
    ensures dateString !in DailyPuzzles && dateString in InheritedKeys ==> r == Some(DayAnswer(None, None))
  {
    if dateString in DailyPuzzles then
      var dayData := DailyPuzzles[dateString];
      Some(DayAnswer(Some(dayData.challengeNumber), Some(dayData.puzzles)))
    else if dateString in InheritedKeys then Some(DayAnswer(None, None))
    else None
  }

  /** A `YYYY-MM-DD` string: ten characters, digits with dashes at 4 and 7. */
  predicate DateShaped(key: string)
  {
    |key| == 10
    && forall k :: 0 <= k < 10 ==> if k == 4 || k == 7 then key[k] == '-' else '0' <= key[k] <= '9'
  }

  /** Five puzzles, each of four numbers in 1..9. */
  predicate DayWellFormed(d: DayData)
  {
    |d.puzzles| == 5
    && forall i :: 0 <= i < 5 ==> PuzzleWellFormed(d.puzzles[i])
  }

  predicate PuzzleWellFormed(p: Puzzle)
  {
    |p.numbers| == 4 && forall j :: 0 <= j < 4 ==> 1 <= p.numbers[j] <= 9
  }

  /** `"2025-09-"` followed by the two digits of `day`. */
  function SeptemberKey(day: int): (key: string)
    requires 1 <= day <= 30
    ensures |key| == 10
  {
    "2025-09-" + [('0' as int + day / 10) as char, ('0' as int + day % 10) as char]
  }

  // ---------------------------------------------------------------------
  // Lemmas
  // ---------------------------------------------------------------------

  /** The table holds exactly the seven dates, and they are the days 9 to 15 of September 2025. */
  lemma TableDates()
    ensures DailyPuzzles.Keys == set k | 0 <= k < |Dates| :: Dates[k]
    ensures |Dates| == 7
    ensures forall k :: 0 <= k < 7 ==> Dates[k] == SeptemberKey(9 + k)
  {
    assert SeptemberKey(9) == "2025-09-09";
    assert SeptemberKey(10) == "2025-09-10";
    assert SeptemberKey(11) == "2025-09-11";
    assert SeptemberKey(12) == "2025-09-12";
    assert SeptemberKey(13) == "2025-09-13";
    assert SeptemberKey(14) == "2025-09-14";
    assert SeptemberKey(15) == "2025-09-15";
    var byIndex := set k | 0 <= k < |Dates| :: Dates[k];
    forall key | key in DailyPuzzles.Keys ensures key in byIndex {
      if key == "2025-09-09" { assert key == Dates[0]; }
      else if key == "2025-09-10" { assert key == Dates[1]; }
      else if key == "2025-09-11" { assert key == Dates[2]; }
      else if key == "2025-09-12" { assert key == Dates[3]; }
      else if key == "2025-09-13" { assert key == Dates[4]; }
      else if key == "2025-09-14" { assert key == Dates[5]; }
      else { assert key == Dates[6]; }
    }
  }

  /** The challenge numbers run 1 to 7 in step with the dates, and the lookup answers them unchanged. */
  lemma ChallengeNumbersInStep()
    ensures forall k :: 0 <= k < 7 ==>
      GetDailyPuzzles(SeptemberKey(9 + k)) == Some(DayAnswer(Some(k + 1), Some(DailyPuzzles[Dates[k]].puzzles)))
  {
    TableDates();
  }

  /** Every entry holds five puzzles of four numbers in 1..9. */
  lemma TableWellFormed()
    ensures forall key :: key in DailyPuzzles ==> DayWellFormed(DailyPuzzles[key])
  {
    TableDates();
    forall k | 0 <= k < 7 ensures DayWellFormed(DailyPuzzles[Dates[k]]) {
      var d := DailyPuzzles[Dates[k]];
      forall i | 0 <= i < 5 ensures PuzzleWellFormed(d.puzzles[i]) {
      }
    }
  }

  /** No inherited property name looks like a date; every key of the table does. */
  lemma InheritedKeysAreNotDates()
    ensures forall key :: key in InheritedKeys ==> !DateShaped(key)
    ensures forall key :: key in DailyPuzzles ==> DateShaped(key)
  {
    forall key | key in InheritedKeys ensures |key| != 10 {
    }
    TableDates();
    forall k | 0 <= k < 7 ensures DateShaped(Dates[k]) {
    }
  }

  /**
   * For a date-shaped key the lookup answers null exactly outside the seven
   * dates, and otherwise a well-formed day with both fields defined.
   */
  lemma LookupWellFormed(dateString: string)
    requires DateShaped(dateString)
    ensures GetDailyPuzzles(dateString).None? <==> dateString !in Dates
    ensures var r := GetDailyPuzzles(dateString);
      r.Some? ==>
        r.value.challengeNumber.Some? && r.value.puzzles.Some?
        && DayWellFormed(DayData(r.value.challengeNumber.value, r.value.puzzles.value))
  {
    TableWellFormed();
    TableDates();
    InheritedKeysAreNotDates();
    if dateString in DailyPuzzles {
      var k :| 0 <= k < |Dates| && Dates[k] == dateString;
    }
  }

  /** `(5 * 5) - (2 / 2)` is 24. */
  lemma FiveFiveTwoTwoSolvable()
    ensures Solvable([5, 5, 2, 2])
  {
    assert Solves(Solution([5, 5, 2, 2], Mul, Sub, Div, Balanced), [5, 5, 2, 2]);
  }

  /** `(8 * 2) + (8 * 1)` is 24. */
  lemma EightEightTwoOneSolvable()
    ensures Solvable([8, 8, 2, 1])
  {
    var p := [8, 2, 8, 1];
    assert multiset(p) == multiset([8, 8, 2, 1]);
    assert Solves(Solution(p, Mul, Add, Mul, Balanced), [8, 8, 2, 1]);
  }

  /**
   * The stored flags are not the solver's verdict: [5, 5, 2, 2] and
   * [8, 8, 2, 1] are both marked unsolvable, yet both reach 24.
   */
  lemma FlagsDisagreeWithSolver()
    ensures DailyPuzzles["2025-09-10"].puzzles[3] == Puzzle([5, 5, 2, 2], false) && Solvable([5, 5, 2, 2])
    ensures DailyPuzzles["2025-09-11"].puzzles[1] == Puzzle([8, 8, 2, 1], false) && Solvable([8, 8, 2, 1])
  {
    FiveFiveTwoTwoSolvable();
    EightEightTwoOneSolvable();
  }
}
