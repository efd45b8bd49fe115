/** The colour-count range check of `lib/utils/isValidColorCount.ts`. */
module ValidColorCount {

  const MinColorCount: int := 2
  const MaxColorCount: int := 4096

  /** `THREE.MathUtils.clamp(value, min, max)`, that is `Math.max(min, Math.min(max, value))`. */
  function Clamp(value: int, min: int, max: int): (c: int)
    ensures min <= max ==> min <= c <= max
    ensures min <= max ==> (c == value <==> min <= value <= max)
  {
    var upper := if value < max then value else max;
    if min > upper then min else upper
  }

  /** A count is valid when clamping it to [MinColorCount, MaxColorCount] leaves it unchanged. */
  function IsValidColorCount(colorCount: int): (b: bool)
    ensures b <==> MinColorCount <= colorCount <= MaxColorCount
  {
    colorCount == Clamp(colorCount, MinColorCount, MaxColorCount)
  }

  /** Every valid count, in increasing order: entry i is i + 2. */
  const ValidColorCounts: seq<int> := seq(MaxColorCount - MinColorCount + 1, i => i + 2)

  /** The list holds 4095 entries, entry i is i + 2, and it holds exactly the valid counts. */
  lemma ValidColorCountsAreTheValidRange()
    ensures |ValidColorCounts| == 4095
    ensures forall i :: 0 <= i < |ValidColorCounts| ==> ValidColorCounts[i] == i + 2
    ensures forall n :: n in ValidColorCounts <==> IsValidColorCount(n)
  {
    forall n | IsValidColorCount(n)
      ensures n in ValidColorCounts
    {
      assert ValidColorCounts[n - 2] == n;
    }
  }
}
