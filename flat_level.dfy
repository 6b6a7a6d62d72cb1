/** The flat level scale the client-side contexts and the lesson recorder
    use: one level per 500 points, starting at level 1. */
module FlatLevel {
  const PointsPerLevel := 500

  /** `Math.floor(points / 500) + 1`. */
  function BandLevel(points: int): int {
    points / PointsPerLevel + 1
  }

  /** The level is the band of 500 points that holds the total, counted
      from 1; a non-negative total is at level 1 or above. */
  lemma BandLevelSpec(points: int)
    ensures PointsPerLevel * (BandLevel(points) - 1) <= points < PointsPerLevel * BandLevel(points)
    ensures points >= 0 ==> BandLevel(points) >= 1
  {
  }

  /** The band is the only level whose range holds the points. */
  lemma BandLevelUnique(points: int, level: int)
    requires PointsPerLevel * (level - 1) <= points < PointsPerLevel * level
    ensures level == BandLevel(points)
  {
    BandLevelSpec(points);
  }

  /** More points never give a lower level, and an award of fewer than 500
      points raises the level by at most one. */
  lemma BandLevelMonotone(a: int, b: int)
    requires a <= b
    ensures BandLevel(a) <= BandLevel(b)
    ensures b - a < PointsPerLevel ==> BandLevel(b) <= BandLevel(a) + 1
  {
    BandLevelSpec(a);
    BandLevelSpec(b);
  }
}
