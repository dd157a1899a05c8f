/**
 * The leveling policy of `CardData`: the next level after a review answered
 * "retry", "hard" or "normal". Levels are Kotlin `Int`s, so `level + 1` and
 * `level - 1` wrap around at the ends of the 32-bit range.
 */
module Leveling {
  import opened Numbers

  /** `nextLevelNormal`: 0 -> 2, 1 -> 3, otherwise `minOf(8, level + 1)`. */
  function NextLevelNormal(level: Int32): (r: Int32)
    ensures 0 <= level < 8 ==> level < r <= 8
    ensures level == 0 ==> r == 2
    ensures level == 1 ==> r == 3
    ensures 2 <= level < 8 ==> r == level + 1
    ensures 8 <= level < INT_MAX ==> r == 8
    ensures level < 0 ==> r == level + 1
    ensures level == INT_MAX ==> r == INT_MIN
  {
    if level == 0 then 2
    else if level == 1 then 3
    else Min(8, WrapInt(level + 1))
  }

  /** `nextLevelHard`: `maxOf(3, t)` with t = 3, 4, 4 at levels 3, 4, 5 and `minOf(level - 1, 5)` elsewhere. */
  function NextLevelHard(level: Int32): (r: Int32)
    ensures 3 <= r <= 5
    ensures 3 <= level ==> r <= level
    ensures level == 3 ==> r == 3
    ensures level == 4 || level == 5 ==> r == 4
    ensures level >= 6 ==> r == 5
    ensures INT_MIN < level < 3 ==> r == 3
    ensures level == INT_MIN ==> r == 5
  {
    Max(3, if level == 3 then 3
           else if level == 4 then 4
           else if level == 5 then 4
           else Min(WrapInt(level - 1), 5))
  }

  /** `nextLevelRetry`: back to level 1 whatever the level was. */
  function NextLevelRetry(level: Int32): (r: Int32)
    ensures r == 1
  {
    1
  }

  /**
   * In the retention regime (level 3 and above) a "hard" answer never sends a
   * card below level 3, never above its current level, and never further than
   * a "normal" answer would: it ends strictly below "normal". Only
   * `Int.MAX_VALUE`, where `level + 1` wraps, is excluded.
   */
  lemma HardBetweenThreeAndNormal(level: Int32)
    requires 3 <= level < INT_MAX
    ensures 3 <= NextLevelHard(level) <= level
    ensures NextLevelHard(level) < NextLevelNormal(level)
  {
  }

  /** At `Int.MAX_VALUE` the wrap-around makes "normal" demote the card below "hard". */
  lemma NormalWrapsAtIntMax()
    ensures NextLevelNormal(INT_MAX) < 0 < NextLevelHard(INT_MAX)
  {
  }

  /** Starting from level 0, normal answers climb 0, 2, 3, ..., 8 and stay at 8. */
  lemma NormalClimbsToEight(level: Int32)
    requires 0 <= level <= 8
    ensures 0 <= NextLevelNormal(level) <= 8
    ensures NextLevelNormal(level) == 8 <==> level >= 7
  {
  }
}
