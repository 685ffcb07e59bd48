/**
 * seededRandom: the linear congruential generator both generators use
 * (script.js:158-165, tmp_dump_daily.js:9-15), and the four draws
 * `Math.floor(random() * 9) + 1` a seeded puzzle takes from it.
 */
module Seeded {

  const Modulus: int := 233280
  const Multiplier: int := 9301
  const Increment: int := 49297

  /** JavaScript's `%` on integers: the remainder has the sign of the dividend. */
  function JsRem(a: int, n: int): (r: int)
    requires n > 0
    ensures a >= 0 ==> 0 <= r < n
    ensures a < 0 ==> -n < r <= 0
  {
    if a >= 0 then a % n else -((-a) % n)
  }

  /**
   * `state = (state * 9301 + 49297) % 233280`: from a state of -5 or more
   * the next state is in [0, 233280); below that the dividend is negative
   * and so is the remainder.
   */
  function LcgStep(state: int): (r: int)
    ensures state >= -5 ==> 0 <= r < Modulus
    ensures state <= -6 ==> -Modulus < r <= 0
  {
    JsRem(state * Multiplier + Increment, Modulus)
  }

  /** The state after `n` calls of the generator. */
  function LcgIter(seed: int, n: nat): int
  {
    if n == 0 then seed else LcgStep(LcgIter(seed, n - 1))
  }

  /** `state / 233280`, the value a call returns. */
  function Unit(state: int): real
  {
    state as real / Modulus as real
  }

  /** `Math.floor(r * 9) + 1`. A draw in [0, 1) gives a digit in 1..9. */
  function Digit(r: real): (d: int)
    ensures 0.0 <= r < 1.0 ==> 1 <= d <= 9
  {
    (r * 9.0).Floor + 1
  }

  /** The first `n` numbers a generator seeded with `seed` yields. */
  function SeededDigits(seed: int, n: nat): (ds: seq<int>)
    ensures |ds| == n
  {
    if n == 0 then [] else SeededDigits(seed, n - 1) + [Digit(Unit(LcgIter(seed, n)))]
  }

  /** `{ numbers, hasSolution }`, the record a seeded generation returns. */
  datatype Puzzle = Puzzle(numbers: seq<int>, hasSolution: bool)

  /** The closure `seededRandom(seed)` returns, with its captured `state`. */
  class SeededRandom {
    var state: int

    constructor(seed: int)
      ensures state == seed
    {
      state := seed;
    }

    method Next() returns (r: real)
      modifies this
      ensures state == LcgStep(old(state))
      ensures r == Unit(state)
    {
      state := LcgStep(state);
      r := state as real / Modulus as real;
    }
  }

  /** The loop `for (let i = 0; i < 4; i++) nums.push(Math.floor(rand() * 9) + 1)`. */
  method DrawFour(rand: SeededRandom) returns (nums: seq<int>)
    modifies rand
    ensures nums == SeededDigits(old(rand.state), 4)
    ensures rand.state == LcgIter(old(rand.state), 4)
  {
    ghost var seed := rand.state;
    nums := [];
    var i := 0;
    while i < 4
      invariant 0 <= i <= 4
      invariant nums == SeededDigits(seed, i)
      invariant rand.state == LcgIter(seed, i)
    {
      var r := rand.Next();
      nums := nums + [Digit(r)];
      i := i + 1;
    }
  }

  // ---------------------------------------------------------------------
  // Lemmas
  // ---------------------------------------------------------------------

  /** From a non-negative state the generator stays in [0, 233280). */
  lemma {:induction false} StateInRange(seed: int, n: nat)
    requires seed >= 0 && n >= 1
    ensures 0 <= LcgIter(seed, n) < Modulus
  {
    if n > 1 {
      StateInRange(seed, n - 1);
    }
  }

  /** Every value a call returns from a non-negative seed lies in [0, 1). */
  lemma UnitInRange(state: int)
    requires 0 <= state < Modulus
    ensures 0.0 <= Unit(state) < 1.0
  {
  }

  /** From a non-negative seed every seeded number is in 1..9. */
  lemma {:induction false} SeededDigitsInRange(seed: int, n: nat)
    requires seed >= 0
    ensures forall k :: 0 <= k < n ==> 1 <= SeededDigits(seed, n)[k] <= 9
  {
    if n > 0 {
      SeededDigitsInRange(seed, n - 1);
      StateInRange(seed, n);
      UnitInRange(LcgIter(seed, n));
      assert SeededDigits(seed, n) == SeededDigits(seed, n - 1) + [Digit(Unit(LcgIter(seed, n)))];
    }
  }

  /** A negative seed leaves the range: JavaScript's `%` keeps the sign. */
  lemma NegativeSeedLeavesRange()
    ensures LcgStep(-1000) < 0
    ensures SeededDigits(-1000, 1)[0] <= 0
  {
    assert LcgStep(-1000) == -(9251703 % 233280);
    assert LcgIter(-1000, 1) == LcgStep(-1000);
    assert Unit(LcgStep(-1000)) < 0.0;
  }

  /** Seed 71 draws four ones. */
  lemma SeedSeventyOne()
    ensures SeededDigits(71, 4) == [1, 1, 1, 1]
  {
    SeventyOneStates();
    SmallStateDrawsOne(9828);
    SmallStateDrawsOne(13765);
    SmallStateDrawsOne(6842);
    SmallStateDrawsOne(1299);
  }

  /** The first four states from seed 71. */
  lemma SeventyOneStates()
    ensures LcgIter(71, 1) == 9828 && LcgIter(71, 2) == 13765
    ensures LcgIter(71, 3) == 6842 && LcgIter(71, 4) == 1299
  {
    assert LcgStep(71) == 9828;
    assert LcgStep(9828) == 13765;
    assert LcgStep(13765) == 6842;
    assert LcgStep(6842) == 1299;
  }

  /** A state below a ninth of the modulus draws a one. */
  lemma SmallStateDrawsOne(state: int)
    requires 0 <= state < Modulus / 9
    ensures Digit(Unit(state)) == 1
  {
  }
}
