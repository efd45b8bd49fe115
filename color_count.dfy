/**
 * The `validColorCounts` list of `lib/models/ColorCount.ts`, from which the
 * `ColorCount` type is taken. Its element type is `number`, so the type itself
 * admits every number; the list is what states the intended counts.
 */
module ColorCount {
  import opened ValidColorCount

  /** 255 entries, entry i is i + 2. */
  const ColorCounts: seq<int> := seq(255, i => i + 2)

  /** The list runs from 2 to 256 in steps of one, without repeats. */
  lemma ColorCountsShape()
    ensures |ColorCounts| == 255
    ensures ColorCounts[0] == 2 && ColorCounts[254] == 256
    ensures forall i :: 0 <= i < |ColorCounts| ==> ColorCounts[i] == i + 2
    ensures forall i :: 0 <= i < |ColorCounts| - 1 ==> ColorCounts[i + 1] == ColorCounts[i] + 1
    ensures forall i, j :: 0 <= i < |ColorCounts| && 0 <= j < |ColorCounts| && ColorCounts[i] == ColorCounts[j] ==> i == j
  {
  }

  /** Every entry is a valid count, but the valid counts 257 to 4096 are missing from the list. */
  lemma ColorCountsStrictlyInsideValidRange()
    ensures forall n :: n in ColorCounts ==> IsValidColorCount(n)
    ensures forall n :: n in ColorCounts <==> 2 <= n <= 256
    ensures forall n :: 257 <= n <= MaxColorCount ==> IsValidColorCount(n) && n !in ColorCounts
  {
    forall n | 2 <= n <= 256
      ensures n in ColorCounts
    {
      assert ColorCounts[n - 2] == n;
    }
  }
}
