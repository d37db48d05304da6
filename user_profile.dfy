/**
 * The level-progress arithmetic of the profile screen
 * (src/components/UserProfile.tsx). The points needed for the next level
 * grow with the level, while the progress bar and the "FP para o próximo
 * nível" text use the points modulo 200. Nothing computes a level from
 * points: the level is whatever the caller passes in.
 */
module UserProfile {
  const PointsPerLevel: int := 200

  /** JavaScript's `%` on integers: the remainder has the sign of the dividend. */
  function JsRem(a: int, b: int): (r: int)
    requires b > 0
    ensures -b < r < b
    ensures a >= 0 ==> 0 <= r && r == a % b
    ensures a < 0 ==> r <= 0 && -r == (-a) % b
  {
    if a >= 0 then a % b else -((-a) % b)
  }

  /** `Math.round`: the nearest integer, halves rounded up. */
  function JsRound(x: real): (n: int)
    ensures x - 0.5 < n as real <= x + 0.5
  {
    (x + 0.5).Floor
  }

  /** `nextLevelPoints`. */
  function NextLevelPoints(level: int): (p: int)
    ensures level >= 0 ==> p >= PointsPerLevel
    ensures p % PointsPerLevel == 0
  {
    (level + 1) * PointsPerLevel
  }

  /** `progressToNextLevel`: a percentage of the points left over after whole blocks of 200. */
  function ProgressToNextLevel(fastPoints: int): (p: real)
    ensures p * 2.0 == JsRem(fastPoints, PointsPerLevel) as real
    ensures fastPoints >= 0 ==> 0.0 <= p < 100.0
  {
    ((JsRem(fastPoints, PointsPerLevel) as real) / 200.0) * 100.0
  }

  /** The figure shown as "FP para o próximo nível". */
  function RemainingPoints(level: int, fastPoints: int): (r: int)
    ensures level >= 0 ==> r > 0
  {
    NextLevelPoints(level) - JsRem(fastPoints, PointsPerLevel)
  }

  /** The percentage printed beside the bar. */
  function RoundedProgress(fastPoints: int): (r: int)
    ensures fastPoints >= 0 ==> 0 <= r <= 100
  {
    JsRound(ProgressToNextLevel(fastPoints))
  }

  lemma NextLevelStep(level: int)
    ensures NextLevelPoints(level + 1) == NextLevelPoints(level) + PointsPerLevel
  {
  }

  /** For non-negative points the progress depends only on the points modulo 200. */
  lemma ProgressDependsOnRemainder(a: int, b: int)
    requires a >= 0 && b >= 0 && a % PointsPerLevel == b % PointsPerLevel
    ensures ProgressToNextLevel(a) == ProgressToNextLevel(b)
  {
  }

  /** Earning another 200 points leaves the bar where it was. */
  lemma ProgressPeriodic(fastPoints: int)
    requires fastPoints >= 0
    ensures ProgressToNextLevel(fastPoints + PointsPerLevel) == ProgressToNextLevel(fastPoints)
  {
    ProgressDependsOnRemainder(fastPoints + PointsPerLevel, fastPoints);
  }

  /** With 199 points over a block the label reads 100% although points are still missing. */
  lemma HundredPercentBeforeNextLevel(level: nat)
    ensures RoundedProgress(199) == 100 && RemainingPoints(level, 199) > 0
  {
    assert ProgressToNextLevel(199) == 99.5;
  }

  /** The profile built by the home page: level 5 and 1250 points give 25% and 1150 FP to go. */
  lemma HomePageProfile()
    ensures RoundedProgress(1250) == 25 && RemainingPoints(5, 1250) == 1150
  {
    assert ProgressToNextLevel(1250) == 25.0;
  }
}
