/** The day/night mode, derived from the score every tick. */
module DayNight {

  /** Points per day or per night. */
  const CYCLE_POINTS: nat := 50

  /** `updateDayNightCycle`'s new value: 0 for day, 1 for night. */
  function DayCycle(score: nat): (r: nat)
    ensures r <= 1
  {
    (score / CYCLE_POINTS) % 2
  }

  /** Independent description: it is night exactly in the second half of
      every hundred points (50..99, 150..199, ...). */
  lemma {:induction false} NightIffSecondHalfOfHundred(score: nat)
    ensures DayCycle(score) == 1 <==> score % 100 >= 50
  {
    var q, m := score / 100, score % 100;
    assert score == 100 * q + m;
    assert score == 50 * (2 * q + m / 50) + m % 50;
    assert score / 50 == 2 * q + m / 50;
  }

  /** Every further 50 points switch between day and night. */
  lemma {:induction false} DayCycleFlipsEveryFifty(score: nat)
    ensures DayCycle(score + CYCLE_POINTS) == 1 - DayCycle(score)
  {
    assert (score + 50) / 50 == score / 50 + 1;
  }
}
