/** The difficulty curve: obstacle spawn interval and scroll speed as functions
    of the score, with a change of regime at score 50. Scores are non-negative
    integers, so JavaScript's `Math.floor(score / n)` is Dafny's `score / n`. */
module Difficulty {

  /** The speed a game starts with. */
  const BASE_SPEED: real := 6.0
  /** The score from which the faster formulas apply. */
  const FAST_REGIME_SCORE: nat := 50

  function MaxInt(a: int, b: int): int
  {
    if a < b then b else a
  }

  /** Number of ticks between two obstacle spawns (`obstacleFrequency`). */
  function SpawnInterval(score: nat): (r: nat)
    ensures r >= 20
    ensures score < FAST_REGIME_SCORE ==> 86 <= r <= 90
    ensures score >= FAST_REGIME_SCORE ==> r <= 60
  {
    if score >= FAST_REGIME_SCORE then MaxInt(20, 70 - score / 5)
    else MaxInt(30, 90 - score / 10)
  }

  /** Horizontal scroll speed, in units per tick. */
  function Speed(score: nat): (r: real)
    ensures r >= BASE_SPEED
    ensures score < FAST_REGIME_SCORE ==> r <= 8.0
    ensures score >= FAST_REGIME_SCORE ==> r >= 11.0
  {
    if score >= FAST_REGIME_SCORE then BASE_SPEED + (score / 5) as real * 0.5
    else BASE_SPEED + (score / 10) as real * 0.5
  }

  /** k half units. */
  function HalfUnits(k: int): real
  {
    k as real * 0.5
  }

  lemma SpawnIntervalNonIncreasing(s: nat, t: nat)
    requires s <= t
    ensures SpawnInterval(t) <= SpawnInterval(s)
  {
  }

  lemma SpeedNonDecreasing(s: nat, t: nat)
    requires s <= t
    ensures Speed(s) <= Speed(t)
  {
  }

  /** The speed is always a whole number of half units. */
  lemma SpeedInHalfUnits(score: nat)
    ensures exists k: nat :: Speed(score) == HalfUnits(k)
  {
    var k: nat := 12 + if score >= FAST_REGIME_SCORE then score / 5 else score / 10;
    assert Speed(score) == HalfUnits(k);
  }

  /** The two formulas do not meet at the threshold: the speed jumps from 8 to
      11 and the spawn interval drops from 86 to 60 between scores 49 and 50. */
  lemma RegimeChangeAtFifty()
    ensures Speed(49) == 8.0 && Speed(50) == 11.0
    ensures SpawnInterval(49) == 86 && SpawnInterval(50) == 60
  {
  }

  /** The spawn interval reaches its floor of 20 at score 250 and stays there. */
  lemma SpawnIntervalFloor(score: nat)
    ensures SpawnInterval(score) == 20 <==> score >= 250
  {
  }
}
