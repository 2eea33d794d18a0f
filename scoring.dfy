/** Scores (js/scenes/Game.js): the score of one round (processWordComplete, lines 1401-1408),
    the final score of a game (showGameResults, lines 1623-1630) and the stored high score
    (saveHighScore and getHighScore, lines 2276-2366). */
module Scoring {
  import opened Text
  import opened Wrappers

  /** The score a round starts from. */
  const BaseScore: int := 10000
  /** The most a slow round loses. */
  const MaxTimeDeduction: int := 5000
  /** What one mistake costs. */
  const MistakePenalty: int := 500

  /** The score of a round that took elapsedMs milliseconds (Date.now() - startTime) with the
      given number of mistakes, computed on reals (the source uses floating point): 100 points
      per second, at most 5000, 500 per mistake, rounded down, never below zero.
      RoundScoreInIntegers gives its exact value in whole numbers. */
  function RoundScore(elapsedMs: int, mistakes: int): (score: int)
    ensures score >= 0
  {
    var timeElapsed := elapsedMs as real / 1000.0;
    var timeDeduction := if 5000.0 <= timeElapsed * 100.0 then 5000.0 else timeElapsed * 100.0;
    var mistakeDeduction := (mistakes * MistakePenalty) as real;
    Max(0, (BaseScore as real - timeDeduction - mistakeDeduction).Floor)
  }

  /** The same score in whole numbers: one point per started ten milliseconds, at most 5000. */
  lemma RoundScoreInIntegers(elapsedMs: int, mistakes: int)
    ensures RoundScore(elapsedMs, mistakes) ==
      Max(0, BaseScore - MistakePenalty * mistakes - Min(MaxTimeDeduction, (elapsedMs + 9) / 10))
  {
    var t := elapsedMs as real / 1000.0 * 100.0;
    assert t == elapsedMs as real / 10.0;
    var q := (elapsedMs + 9) / 10;
    assert 10 * q <= elapsedMs + 9 < 10 * q + 10;
    var d := Min(MaxTimeDeduction, q);
    var deduction := if 5000.0 <= t then 5000.0 else t;
    // The real deduction lies in (d - 1, d], so the floor drops exactly d.
    assert (d - 1) as real < deduction <= d as real;
    var k := BaseScore - MistakePenalty * mistakes - d;
    var x := BaseScore as real - deduction - (mistakes * MistakePenalty) as real;
    assert k as real <= x < k as real + 1.0;
  }

  /** A round scores between 0 and 10000; without mistakes at least 5000. */
  lemma RoundScoreBounds(elapsedMs: int, mistakes: int)
    requires elapsedMs >= 0 && mistakes >= 0
    ensures 0 <= RoundScore(elapsedMs, mistakes) <= BaseScore
    ensures mistakes == 0 ==> RoundScore(elapsedMs, mistakes) >= BaseScore - MaxTimeDeduction
  {
    RoundScoreInIntegers(elapsedMs, mistakes);
  }

  /** Taking longer or making more mistakes never raises the score. */
  lemma RoundScoreMonotone(ms1: int, ms2: int, m1: int, m2: int)
    requires ms1 <= ms2 && m1 <= m2
    ensures RoundScore(ms2, m2) <= RoundScore(ms1, m1)
  {
    RoundScoreInIntegers(ms1, m1);
    RoundScoreInIntegers(ms2, m2);
    assert (ms1 + 9) / 10 <= (ms2 + 9) / 10;
  }

  /** From fifty seconds on, time costs nothing more. */
  lemma TimeDeductionCapped(elapsedMs: int, mistakes: int)
    requires elapsedMs >= 50000
    ensures RoundScore(elapsedMs, mistakes) == Max(0, BaseScore - MaxTimeDeduction - MistakePenalty * mistakes)
  {
    RoundScoreInIntegers(elapsedMs, mistakes);
  }

  /** Sample rounds: instant and clean, a minute, twenty mistakes, and far past both caps. */
  lemma RoundScoreExamples()
    ensures RoundScore(0, 0) == 10000
    ensures RoundScore(1234, 0) == 9876
    ensures RoundScore(60000, 0) == 5000
    ensures RoundScore(0, 20) == 0
    ensures RoundScore(1000000, 1000) == 0
  {
    RoundScoreInIntegers(0, 0);
    RoundScoreInIntegers(1234, 0);
    RoundScoreInIntegers(60000, 0);
    RoundScoreInIntegers(0, 20);
    RoundScoreInIntegers(1000000, 1000);
  }

  /** characterScores.reduce((sum, score) => sum + score, 0). */
  function Sum(scores: seq<int>): int
  {
    if scores == [] then 0 else Sum(scores[..|scores| - 1]) + scores[|scores| - 1]
  }

  /** Math.floor(totalScore / characterScores.length); None stands for the NaN an empty list
      gives. */
  function FinalScore(scores: seq<int>): (final: Option<int>)
    ensures final.None? <==> scores == []
    ensures final.Some? ==> final.value * |scores| <= Sum(scores) < (final.value + 1) * |scores|
  {
    if scores == [] then None else Some(Sum(scores) / |scores|)
  }

  /** Scores that are all at least lo total at least |scores| times lo. */
  lemma {:induction false} SumAtLeast(scores: seq<int>, lo: int)
    requires forall i :: 0 <= i < |scores| ==> lo <= scores[i]
    ensures lo * |scores| <= Sum(scores)
  {
    if scores != [] {
      SumAtLeast(scores[..|scores| - 1], lo);
    }
  }

  /** Scores that are all at most hi total at most |scores| times hi. */
  lemma {:induction false} SumAtMost(scores: seq<int>, hi: int)
    requires forall i :: 0 <= i < |scores| ==> scores[i] <= hi
    ensures Sum(scores) <= hi * |scores|
  {
    if scores != [] {
      SumAtMost(scores[..|scores| - 1], hi);
    }
  }

  /** The final score is an average: it is at least any lower bound of the round scores. */
  lemma FinalScoreAtLeast(scores: seq<int>, lo: int)
    requires scores != []
    requires forall i :: 0 <= i < |scores| ==> lo <= scores[i]
    ensures lo <= FinalScore(scores).value
  {
    SumAtLeast(scores, lo);
  }

  /** ... and at most any upper bound of them, so between 0 and 10000 for real rounds. */
  lemma FinalScoreAtMost(scores: seq<int>, hi: int)
    requires scores != []
    requires forall i :: 0 <= i < |scores| ==> scores[i] <= hi
    ensures FinalScore(scores).value <= hi
  {
    SumAtMost(scores, hi);
  }

  /** A sample game: rounds of 10000, 8000, 6000, 4000 and 2000 give 6000. */
  lemma FinalScoreExample()
    ensures FinalScore([10000, 8000, 6000, 4000, 2000]) == Some(6000)
  {
    var s := [10000, 8000, 6000, 4000, 2000];
    assert Sum([10000]) == 10000 by { assert [10000][..0] == []; }
    assert Sum([10000, 8000]) == 18000 by { assert [10000, 8000][..1] == [10000]; }
    assert Sum([10000, 8000, 6000]) == 24000 by { assert [10000, 8000, 6000][..2] == [10000, 8000]; }
    assert Sum([10000, 8000, 6000, 4000]) == 28000 by {
      assert [10000, 8000, 6000, 4000][..3] == [10000, 8000, 6000];
    }
    assert Sum(s) == 30000 by { assert s[..4] == [10000, 8000, 6000, 4000]; }
  }

  /** getHighScore: the stored record's score, or 0 when there is none. */
  function HighScore(stored: Option<int>): (high: int)
    ensures stored.None? ==> high == 0
    ensures stored.Some? ==> high == stored.value
  {
    if stored.Some? then stored.value else 0
  }

  /** finalScore > highScore; false for the NaN of an empty game. */
  function IsNewHighScore(final: Option<int>, stored: Option<int>): (isHigh: bool)
  {
    final.Some? && final.value > HighScore(stored)
  }

  /** saveHighScore: the record after the call. Only a strictly higher score is written. */
  function SaveHighScore(final: Option<int>, stored: Option<int>): (after: Option<int>)
  {
    if IsNewHighScore(final, stored) then Some(final.value) else stored
  }

  /** The stored high score is the best of the old one and the new final score; the record is
      rewritten exactly when the game announces a new high score. */
  lemma SaveKeepsBest(final: Option<int>, stored: Option<int>)
    ensures final.Some? ==> HighScore(SaveHighScore(final, stored)) == Max(HighScore(stored), final.value)
    ensures final.None? ==> SaveHighScore(final, stored) == stored
    ensures SaveHighScore(final, stored) != stored <==> IsNewHighScore(final, stored)
    ensures HighScore(SaveHighScore(final, stored)) >= HighScore(stored)
  {
  }

  /** Saving the same final score twice changes nothing the second time. */
  lemma SaveIdempotent(final: Option<int>, stored: Option<int>)
    ensures SaveHighScore(final, SaveHighScore(final, stored)) == SaveHighScore(final, stored)
  {
  }
}
