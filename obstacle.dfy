/**
 * Obstacles of Flappy Macro: a single wall with a gap, built from the
 * horizontal position at which it appears and the current score.
 */
module Obstacles {

  /** Rust's `i32`. */
  const I32Min: int := -0x8000_0000
  const I32Max: int := 0x7FFF_FFFF
  newtype i32 = n: int | -0x8000_0000 <= n <= 0x7FFF_FFFF

  /** Bounds of the random draw `rand::gen_range(10, 40)`: low inclusive, high exclusive. */
  const GapLow: i32 := 10
  const GapHigh: i32 := 40

  /** Difficulty curve: the gap starts at `BaseSize` and shrinks by one per point down to `MinSize`. */
  const BaseSize: i32 := 20
  const MinSize: i32 := 2

  datatype Obstacle = Obstacle(x: i32, gapY: i32, size: i32)

  /** A value that `gen_range(10, 40)` can return. */
  predicate InDrawRange(gapY: i32) {
    GapLow <= gapY < GapHigh
  }

  /** `20 - score` does not overflow `i32` (a debug build panics when it does). */
  predicate SizeRuleDefined(score: i32) {
    BaseSize as int - score as int <= I32Max
  }

  /**
   * `Obstacle::new(x, score)`, with the random gap position passed in as `gapY`.
   * The size is `max(2, 20 - score)`: it equals `20 - score` while the score is
   * at most 18 and stays at 2 from then on; position and size do not depend on
   * the draw.
   */
  function NewObstacle(x: i32, score: i32, gapY: i32): (o: Obstacle)
    requires InDrawRange(gapY)
    requires SizeRuleDefined(score)
    ensures o.x == x && o.gapY == gapY
    ensures InDrawRange(o.gapY)
    ensures o.size >= MinSize
    ensures score <= BaseSize - MinSize ==> o.size as int == BaseSize as int - score as int
    ensures score >= BaseSize - MinSize ==> o.size == MinSize
    ensures o.size == BaseSize <==> score == 0
  {
    var shrunk := BaseSize - score;
    Obstacle(x, gapY, if MinSize > shrunk then MinSize else shrunk)
  }

  /** A higher score never gives a wider gap, whatever the two draws were. */
  lemma SizeNonIncreasing(x: i32, s1: i32, s2: i32, g1: i32, g2: i32)
    requires InDrawRange(g1) && InDrawRange(g2)
    requires SizeRuleDefined(s1) && SizeRuleDefined(s2)
    requires s1 <= s2
    ensures NewObstacle(x, s2, g2).size <= NewObstacle(x, s1, g1).size
  {
  }

  /** Only the gap position depends on the draw. */
  lemma DrawOnlyMovesGap(x: i32, score: i32, g1: i32, g2: i32)
    requires InDrawRange(g1) && InDrawRange(g2)
    requires SizeRuleDefined(score)
    ensures NewObstacle(x, score, g1) == NewObstacle(x, score, g2).(gapY := g1)
  {
  }
}
