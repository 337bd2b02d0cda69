/** Fixed sizes shared by the road segment, its decorations and the recycler. */
module Dimensions {
  /** Length of one road segment along the travel (z) axis, in world units. */
  const SEG_LEN: int := 200
  /** Half a segment: a segment whose offset passes this value has left the view. */
  const HALF: int := SEG_LEN / 2

  /** `Math.min` of two numbers (no NaN, no signed zero: see README). */
  function Min(a: real, b: real): (r: real)
    ensures r <= a && r <= b
    ensures r == a || r == b
  {
    if a <= b then a else b
  }

  /** `Math.max` of two numbers. */
  function Max(a: real, b: real): (r: real)
    ensures r >= a && r >= b
    ensures r == a || r == b
  {
    if a >= b then a else b
  }
}
