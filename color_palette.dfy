/**
 * Palette generation of `lib/utils/createColorPalette.ts`: a uniform RGB cube
 * padded with a grey ramp, and the choice between that cube and the fixed
 * historical palettes by requested colour count.
 */
module ColorPalette {
  import opened Wrappers
  import opened Color
  import opened ValidColorCount

  /** The cube never has more than 16 steps per channel (16^3 = 4096 entries). */
  const MaxLevels: nat := 16

  function Cubed(k: int): int {
    k * (k * k)
  }

  lemma CubedMonotone(a: nat, b: nat)
    requires a <= b
    ensures Cubed(a) <= Cubed(b)
  {
    assert a * a <= b * b by { MulMonotone(a, a, b, b); }
    MulMonotone(a * a, a, b * b, b);
  }

  lemma MulMonotone(a: nat, b: nat, c: nat, d: nat)
    requires a <= c && b <= d
    ensures a * b <= c * d
  {
    assert a * b <= c * b;
    assert c * b <= c * d;
  }

  /** Steps up from k while the next cube still fits in n, stopping at 16. */
  function CappedCubeRootFrom(n: int, k: nat): (l: nat)
    requires k <= MaxLevels
    ensures k <= l <= MaxLevels
    decreases MaxLevels - k
  {
    if k < MaxLevels && Cubed(k + 1) <= n then CappedCubeRootFrom(n, k + 1) else k
  }

  lemma {:induction false} CappedCubeRootFromIsLargest(n: int, k: nat)
    requires k <= MaxLevels && Cubed(k) <= n
    ensures Cubed(CappedCubeRootFrom(n, k)) <= n
    ensures CappedCubeRootFrom(n, k) < MaxLevels ==> n < Cubed(CappedCubeRootFrom(n, k) + 1)
    decreases MaxLevels - k
  {
    if k < MaxLevels && Cubed(k + 1) <= n {
      CappedCubeRootFromIsLargest(n, k + 1);
    }
  }

  /**
   * The cube side for a requested size, `min(16, floor(cbrt(size + 1)))`, taken
   * over exact integers. For a negative size the JavaScript expression is 0 or
   * NaN, and either makes the cube loops run zero times, as 0 does here.
   */
  function Levels(size: int): (l: nat)
    ensures l <= MaxLevels
    ensures size < 0 ==> l == 0
    ensures size >= 0 ==> 1 <= l
  {
    if size < 0 then 0 else CappedCubeRootFrom(size + 1, 1)
  }

  /** Levels(size) is the largest l <= 16 whose cube is at most size + 1. */
  lemma LevelsIsCappedCubeRoot(size: int)
    requires size >= 0
    ensures Cubed(Levels(size)) <= size + 1
    ensures Levels(size) < MaxLevels ==> size + 1 < Cubed(Levels(size) + 1)
    ensures Cubed(Levels(size)) <= Cubed(MaxLevels)
  {
    CappedCubeRootFromIsLargest(size + 1, 1);
    CubedMonotone(Levels(size), MaxLevels);
  }

  /** Channel value of step i on a ramp of the given number of levels: i / (levels - 1). */
  function Step(i: nat, levels: nat): Num {
    Divide(i as real, (levels as int - 1) as real)
  }

  function CubeColor(levels: nat, r: nat, g: nat, b: nat): Color {
    Color(Step(r, levels), Step(g, levels), Step(b, levels))
  }

  /** The red, green and blue step numbers of one cube colour. */
  datatype CubeStep = CubeStep(r: nat, g: nat, b: nat)

  /** The first `count` blue steps for fixed red and green steps, in loop order. */
  function RowSteps(r: nat, g: nat, count: nat): (row: seq<CubeStep>)
    ensures |row| == count
  {
    seq(count, b requires 0 <= b < count => CubeStep(r, g, b))
  }

  /** The first `count` green rows, each a full blue row, for a fixed red step. */
  function SliceSteps(levels: nat, r: nat, count: nat): seq<CubeStep> {
    if count == 0 then [] else SliceSteps(levels, r, count - 1) + RowSteps(r, count - 1, levels)
  }

  /** The first `count` red planes, each a full green-by-blue slice. */
  function PlaneSteps(levels: nat, count: nat): seq<CubeStep> {
    if count == 0 then [] else PlaneSteps(levels, count - 1) + SliceSteps(levels, count - 1, levels)
  }

  /** The order in which the three nested loops visit the steps: red outermost, then green, then blue. */
  function CubeOrder(levels: nat): seq<CubeStep> {
    PlaneSteps(levels, levels)
  }

  /** The colours of a run of steps. */
  function ColorsOf(levels: nat, steps: seq<CubeStep>): (colors: seq<Color>)
    ensures |colors| == |steps|
  {
    seq(|steps|, i requires 0 <= i < |steps| => CubeColor(levels, steps[i].r, steps[i].g, steps[i].b))
  }

  /** The whole cube: the colour of every step, in loop order. */
  function Cube(levels: nat): seq<Color> {
    ColorsOf(levels, CubeOrder(levels))
  }

  lemma {:induction false} SliceStepsLength(levels: nat, r: nat, count: nat)
    ensures |SliceSteps(levels, r, count)| == count * levels
  {
    if count > 0 {
      SliceStepsLength(levels, r, count - 1);
    }
  }

  lemma {:induction false} PlaneStepsLength(levels: nat, count: nat)
    ensures |PlaneSteps(levels, count)| == count * (levels * levels)
  {
    if count > 0 {
      PlaneStepsLength(levels, count - 1);
      SliceStepsLength(levels, count - 1, levels);
    }
  }

  /** The cube has levels^3 colours. */
  lemma CubeLength(levels: nat)
    ensures |Cube(levels)| == Cubed(levels)
  {
    PlaneStepsLength(levels, levels);
  }

  /** The first `count` greys of the padding ramp: entry k is k / divisor. */
  function GreyRamp(count: nat, divisor: int): (ramp: seq<Color>)
    ensures |ramp| == count
  {
    if count == 0 then [] else GreyRamp(count - 1, divisor) + [Grey(Divide((count - 1) as real, divisor as real))]
  }

  lemma AppendGrey(cube: seq<Color>, count: nat, divisor: int)
    ensures cube + GreyRamp(count + 1, divisor) == cube + GreyRamp(count, divisor) + [Grey(Divide(count as real, divisor as real))]
  {
  }

  /** A palette extended with greys until it has `size` entries; entry k of the extension is (k - |palette|) / (size - |palette| - 1). */
  function PadWithGreys(palette: seq<Color>, size: int): seq<Color> {
    if |palette| < size then palette + GreyRamp(size - |palette|, size - |palette| - 1) else palette
  }

  /** What `createQuantizedColorPalette(size, padded)` returns. */
  function QuantizedPalette(size: int, padded: bool): seq<Color> {
    var cube := Cube(Levels(size));
    if padded then PadWithGreys(cube, size) else cube
  }

  /**
   * `createQuantizedColorPalette`: three nested loops push the cube, red
   * outermost, then, when padded, a loop pushes greys until the palette has
   * `size` entries.
   */
  method CreateQuantizedColorPalette(size: int, padded: bool) returns (palette: seq<Color>)
    ensures palette == QuantizedPalette(size, padded)
  {
    var levels := Levels(size);
    palette := PushCube(levels);
    if padded {
      palette := PushGreyPadding(palette, size);
    }
  }

  /** The cube loops of `createQuantizedColorPalette`, pushing onto an empty palette. */
  method PushCube(levels: nat) returns (palette: seq<Color>)
    ensures palette == Cube(levels)
  {
    palette := [];
    var divisor := levels as int - 1;

    for r := 0 to levels
      invariant palette == ColorsOf(levels, PlaneSteps(levels, r))
    {
      for g := 0 to levels
        invariant palette == ColorsOf(levels, PlaneSteps(levels, r) + SliceSteps(levels, r, g))
      {
        for b := 0 to levels
          invariant palette == ColorsOf(levels, PlaneSteps(levels, r) + SliceSteps(levels, r, g) + RowSteps(r, g, b))
        {
          var color := Color(Divide(r as real, divisor as real), Divide(g as real, divisor as real), Divide(b as real, divisor as real));
          assert color == CubeColor(levels, r, g, b);
          var done := PlaneSteps(levels, r) + SliceSteps(levels, r, g) + RowSteps(r, g, b);
          ColorsOfSnoc(levels, done, CubeStep(r, g, b));
          assert done + [CubeStep(r, g, b)] == PlaneSteps(levels, r) + SliceSteps(levels, r, g) + RowSteps(r, g, b + 1);
          palette := palette + [color];
        }
        assert PlaneSteps(levels, r) + SliceSteps(levels, r, g) + RowSteps(r, g, levels)
            == PlaneSteps(levels, r) + SliceSteps(levels, r, g + 1);
      }
      assert PlaneSteps(levels, r) + SliceSteps(levels, r, levels) == PlaneSteps(levels, r + 1);
    }
  }

  /** Colouring one more step appends its colour. */
  lemma ColorsOfSnoc(levels: nat, steps: seq<CubeStep>, t: CubeStep)
    ensures ColorsOf(levels, steps + [t]) == ColorsOf(levels, steps) + [CubeColor(levels, t.r, t.g, t.b)]
  {
    var left := ColorsOf(levels, steps + [t]);
    var right := ColorsOf(levels, steps) + [CubeColor(levels, t.r, t.g, t.b)];
    forall i | 0 <= i < |left|
      ensures left[i] == right[i]
    {
      if i < |steps| {
        assert (steps + [t])[i] == steps[i];
      } else {
        assert (steps + [t])[i] == t;
      }
    }
  }

  /** The padding loop of `createQuantizedColorPalette`, applied to the cube it has pushed. */
  method PushGreyPadding(cube: seq<Color>, size: int) returns (palette: seq<Color>)
    ensures palette == PadWithGreys(cube, size)
  {
    palette := cube;
    var cubeSize := |palette|;
    var divisor := size - cubeSize - 1;
    assert palette == cube + GreyRamp(0, divisor);

    while |palette| < size
      invariant cubeSize <= |palette|
      invariant |palette| == cubeSize || |palette| <= size
      invariant palette == cube + GreyRamp(|palette| - cubeSize, divisor)
      decreases size - |palette|
    {
      var v := Divide((|palette| - cubeSize) as real, divisor as real);
      AppendGrey(cube, |palette| - cubeSize, divisor);
      palette := palette + [Grey(v)];
    }
  }

  // ---------------------------------------------------------------------------
  // Properties of the cube and of its grey padding
  // ---------------------------------------------------------------------------

  /** Blue step b of green row g sits after g full rows of the slice. */
  lemma {:induction false} SliceStepsAt(levels: nat, r: nat, g: nat, count: nat, b: nat)
    requires g < count && b < levels
    ensures |SliceSteps(levels, r, g)| + b < |SliceSteps(levels, r, count)|
    ensures SliceSteps(levels, r, count)[|SliceSteps(levels, r, g)| + b] == CubeStep(r, g, b)
  {
    var k := |SliceSteps(levels, r, g)| + b;
    if g == count - 1 {
      assert SliceSteps(levels, r, count)[k] == RowSteps(r, g, levels)[b];
    } else {
      SliceStepsAt(levels, r, g, count - 1, b);
      assert SliceSteps(levels, r, count)[k] == SliceSteps(levels, r, count - 1)[k];
    }
  }

  /** Entry j of red plane r sits after r full planes. */
  lemma {:induction false} PlaneStepsAt(levels: nat, r: nat, count: nat, j: nat)
    requires r < count && j < |SliceSteps(levels, r, levels)|
    ensures |PlaneSteps(levels, r)| + j < |PlaneSteps(levels, count)|
    ensures PlaneSteps(levels, count)[|PlaneSteps(levels, r)| + j] == SliceSteps(levels, r, levels)[j]
  {
    var k := |PlaneSteps(levels, r)| + j;
    if r == count - 1 {
      assert PlaneSteps(levels, count)[k] == SliceSteps(levels, r, levels)[j];
    } else {
      PlaneStepsAt(levels, r, count - 1, j);
      assert PlaneSteps(levels, count)[k] == PlaneSteps(levels, count - 1)[k];
    }
  }

  /** Position r*L^2 + g*L + b, where the loops visit steps (r, g, b). */
  function CubeIndex(levels: nat, r: nat, g: nat, b: nat): nat {
    r * (levels * levels) + (g * levels + b)
  }

  /** Every position of a step is inside the cube. */
  lemma CubeIndexBound(levels: nat, r: nat, g: nat, b: nat)
    requires r < levels && g < levels && b < levels
    ensures CubeIndex(levels, r, g, b) < Cubed(levels)
  {
    MulMonotone(g + 1, levels, levels, levels);
    MulMonotone(r + 1, levels * levels, levels, levels * levels);
    calc {
      CubeIndex(levels, r, g, b);
      < r * (levels * levels) + (g * levels + levels);
      == r * (levels * levels) + (g + 1) * levels;
      <= r * (levels * levels) + levels * levels;
      == (r + 1) * (levels * levels);
      <= levels * (levels * levels);
    }
  }

  /** Steps (r, g, b) come after r full planes, g full rows and b blues. */
  lemma CubeOrderOffset(levels: nat, r: nat, g: nat, b: nat)
    requires r < levels && g < levels && b < levels
    ensures |PlaneSteps(levels, r)| + (|SliceSteps(levels, r, g)| + b) < |CubeOrder(levels)|
    ensures CubeOrder(levels)[|PlaneSteps(levels, r)| + (|SliceSteps(levels, r, g)| + b)] == CubeStep(r, g, b)
  {
    var j := |SliceSteps(levels, r, g)| + b;
    var slice := SliceSteps(levels, r, levels);
    SliceStepsAt(levels, r, g, levels, b);
    assert j < |slice| && slice[j] == CubeStep(r, g, b);
    PlaneStepsAt(levels, r, levels, j);
  }

  /** That offset is r*L^2 + g*L + b, and the cube has L^3 steps. */
  lemma CubeOrderSizes(levels: nat, r: nat, g: nat)
    ensures |CubeOrder(levels)| == Cubed(levels)
    ensures |PlaneSteps(levels, r)| == r * (levels * levels)
    ensures |SliceSteps(levels, r, g)| == g * levels
  {
    PlaneStepsLength(levels, levels);
    PlaneStepsLength(levels, r);
    SliceStepsLength(levels, r, g);
  }

  /** The loops visit steps (r, g, b) at position r*L^2 + g*L + b. */
  lemma CubeOrderAt(levels: nat, r: nat, g: nat, b: nat)
    requires r < levels && g < levels && b < levels
    ensures |CubeOrder(levels)| == Cubed(levels)
    ensures CubeIndex(levels, r, g, b) < |CubeOrder(levels)|
    ensures CubeOrder(levels)[CubeIndex(levels, r, g, b)] == CubeStep(r, g, b)
  {
    CubeIndexBound(levels, r, g, b);
    CubeOrderSizes(levels, r, g);
    CubeOrderOffset(levels, r, g, b);
  }

  /** Step i of a ramp of at least two levels is the finite value i / (levels - 1), inside [0, 1]. */
  lemma StepInUnitRange(i: nat, levels: nat)
    requires i < levels && levels >= 2
    ensures Step(i, levels) == Finite(i as real / (levels - 1) as real)
    ensures 0.0 <= i as real / (levels - 1) as real <= 1.0
  {
    RatioInUnitRange(i, levels - 1);
  }

  lemma RatioInUnitRange(a: int, d: int)
    requires 0 <= a <= d && d > 0
    ensures 0.0 <= a as real / d as real <= 1.0
  {
    var q := a as real / d as real;
    assert q * d as real == a as real;
  }

  /**
   * The cube holds levels^3 colours, and the one at index r*L^2 + g*L + b is
   * the colour of steps (r, g, b): red outermost, then green, then blue.
   */
  lemma CubeAt(levels: nat, r: nat, g: nat, b: nat)
    requires r < levels && g < levels && b < levels
    ensures |Cube(levels)| == Cubed(levels)
    ensures CubeIndex(levels, r, g, b) < |Cube(levels)|
    ensures Cube(levels)[CubeIndex(levels, r, g, b)] == CubeColor(levels, r, g, b)
  {
    CubeOrderAt(levels, r, g, b);
    ColorsOfAt(levels, CubeOrder(levels), CubeIndex(levels, r, g, b));
  }

  lemma ColorsOfAt(levels: nat, steps: seq<CubeStep>, i: nat)
    requires i < |steps|
    ensures ColorsOf(levels, steps)[i] == CubeColor(levels, steps[i].r, steps[i].g, steps[i].b)
  {
  }

  /** With at least two levels every cube colour is the finite (r, g, b) / (L - 1), inside the unit cube. */
  lemma CubeColorValue(levels: nat, r: nat, g: nat, b: nat)
    requires r < levels && g < levels && b < levels && levels >= 2
    ensures CubeColor(levels, r, g, b)
         == Rgb(r as real / (levels - 1) as real, g as real / (levels - 1) as real, b as real / (levels - 1) as real)
    ensures InUnitCube(CubeColor(levels, r, g, b))
  {
    StepInUnitRange(r, levels);
    StepInUnitRange(g, levels);
    StepInUnitRange(b, levels);
  }

  /**
   * With a single level (sizes 0 to 6) the cube divisor levels - 1 is 0, so the
   * only cube entry is 0 / 0, NaN, in every channel.
   */
  lemma SingleLevelCube(size: int)
    ensures Levels(size) == 1 <==> 0 <= size <= 6
    ensures Levels(size) == 1 ==> Cube(Levels(size)) == [Grey(NaN)]
  {
    assert RowSteps(0, 0, 1) == [CubeStep(0, 0, 0)];
    assert SliceSteps(1, 0, 1) == RowSteps(0, 0, 1);
    assert CubeOrder(1) == [CubeStep(0, 0, 0)];
  }

  lemma {:induction false} GreyRampAt(count: nat, divisor: int, k: nat)
    requires k < count
    ensures GreyRamp(count, divisor)[k] == Grey(Divide(k as real, divisor as real))
  {
    if k < count - 1 {
      GreyRampAt(count - 1, divisor, k);
    }
  }

  /** Number of colours in the cube for a requested size. */
  function CubeSize(size: int): nat {
    Cubed(Levels(size))
  }

  /**
   * The cube has at most min(4096, size + 1) entries; the padded palette has
   * max(size, cube) entries and the unpadded one exactly the cube.
   */
  lemma QuantizedPaletteLength(size: int, padded: bool)
    ensures size >= 0 ==> CubeSize(size) <= size + 1 && CubeSize(size) <= 4096
    ensures padded ==> |QuantizedPalette(size, padded)| == if CubeSize(size) < size then size else CubeSize(size)
    ensures !padded ==> |QuantizedPalette(size, padded)| == CubeSize(size)
  {
    CubeLength(Levels(size));
    if size >= 0 {
      LevelsIsCappedCubeRoot(size);
    }
  }

  /**
   * A ramp of n greys over the divisor n - 1 runs from 0 to 1 inside [0, 1]
   * when n >= 2; a ramp of one grey is 0 / 0, NaN.
   */
  lemma GreyRampEnds(count: nat, divisor: int)
    requires divisor == count - 1
    ensures count >= 2 ==>
      && GreyRamp(count, divisor)[0] == Grey(Finite(0.0))
      && GreyRamp(count, divisor)[count - 1] == Grey(Finite(1.0))
      && forall k :: 0 <= k < count ==> InUnitCube(GreyRamp(count, divisor)[k])
    ensures count == 1 ==> GreyRamp(count, divisor)[0] == Grey(NaN)
  {
    if count >= 1 {
      GreyRampAt(count, divisor, 0);
    }
    if count >= 2 {
      GreyRampAt(count, divisor, count - 1);
      assert (count - 1) as real / divisor as real == 1.0;
      forall k | 0 <= k < count
        ensures InUnitCube(GreyRamp(count, divisor)[k])
      {
        GreyRampAt(count, divisor, k);
        RatioInUnitRange(k, divisor);
      }
    }
  }

  /**
   * The padding is the grey ramp (k - cube) / (size - cube - 1): from 0 to 1
   * when at least two pads are needed, and 0 / 0, NaN, when exactly one is.
   */
  lemma PaddingRamp(size: int)
    requires CubeSize(size) < size
    ensures |QuantizedPalette(size, true)| == size
    ensures forall k :: CubeSize(size) <= k < size ==>
      QuantizedPalette(size, true)[k] == Grey(Divide((k - CubeSize(size)) as real, (size - CubeSize(size) - 1) as real))
    ensures size - CubeSize(size) >= 2 ==>
      && QuantizedPalette(size, true)[CubeSize(size)] == Grey(Finite(0.0))
      && QuantizedPalette(size, true)[size - 1] == Grey(Finite(1.0))
      && forall k :: CubeSize(size) <= k < size ==> InUnitCube(QuantizedPalette(size, true)[k])
    ensures size - CubeSize(size) == 1 ==> QuantizedPalette(size, true)[CubeSize(size)] == Grey(NaN)
  {
    var levels := Levels(size);
    CubeLength(levels);
    RampAfter(Cube(levels), CubeSize(size), size, QuantizedPalette(size, true));
  }

  /** Entries past a prefix of c colours followed by the ramp that pads it to the given size. */
  lemma RampAfter(prefix: seq<Color>, c: int, size: int, palette: seq<Color>)
    requires c == |prefix| < size
    requires palette == prefix + GreyRamp(size - c, size - c - 1)
    ensures |palette| == size
    ensures forall k :: c <= k < size ==> palette[k] == Grey(Divide((k - c) as real, (size - c - 1) as real))
    ensures size - c >= 2 ==>
      && palette[c] == Grey(Finite(0.0))
      && palette[size - 1] == Grey(Finite(1.0))
      && forall k :: c <= k < size ==> InUnitCube(palette[k])
    ensures size - c == 1 ==> palette[c] == Grey(NaN)
  {
    var divisor := size - c - 1;
    var pads := GreyRamp(size - c, divisor);
    GreyRampEnds(size - c, divisor);
    forall k | c <= k < size
      ensures palette[k] == pads[k - c]
      ensures palette[k] == Grey(Divide((k - c) as real, divisor as real))
      ensures size - c >= 2 ==> InUnitCube(palette[k])
    {
      GreyRampAt(size - c, divisor, k - c);
    }
  }

  // ---------------------------------------------------------------------------
  // No palette division gives an infinity
  // ---------------------------------------------------------------------------

  /** A step of a ramp of the given levels is finite, or NaN for the single level. */
  lemma StepNotInfinite(i: nat, levels: nat)
    requires i < levels
    ensures !Step(i, levels).PosInf? && !Step(i, levels).NegInf?
  {
  }

  predicate StepBelow(t: CubeStep, r: nat, g: nat, b: nat) {
    t.r < r && t.g < g && t.b < b
  }

  lemma {:induction false} SliceStepsBelow(levels: nat, r: nat, count: nat)
    ensures forall j :: 0 <= j < |SliceSteps(levels, r, count)| ==> StepBelow(SliceSteps(levels, r, count)[j], r + 1, count, levels)
  {
    if count > 0 {
      SliceStepsBelow(levels, r, count - 1);
      var prev := SliceSteps(levels, r, count - 1);
      var last := RowSteps(r, count - 1, levels);
      assert SliceSteps(levels, r, count) == prev + last;
      forall j | 0 <= j < |prev + last|
        ensures StepBelow((prev + last)[j], r + 1, count, levels)
      {
        if j < |prev| {
          assert StepBelow(prev[j], r + 1, count - 1, levels);
        } else {
          assert (prev + last)[j] == last[j - |prev|];
        }
      }
    }
  }

  lemma {:induction false} PlaneStepsBelow(levels: nat, count: nat)
    ensures forall j :: 0 <= j < |PlaneSteps(levels, count)| ==> StepBelow(PlaneSteps(levels, count)[j], count, levels, levels)
  {
    if count > 0 {
      PlaneStepsBelow(levels, count - 1);
      var prev := PlaneSteps(levels, count - 1);
      var last := SliceSteps(levels, count - 1, levels);
      SliceStepsBelow(levels, count - 1, levels);
      assert PlaneSteps(levels, count) == prev + last;
      forall j | 0 <= j < |prev + last|
        ensures StepBelow((prev + last)[j], count, levels, levels)
      {
        if j < |prev| {
          assert StepBelow(prev[j], count - 1, levels, levels);
        } else {
          assert (prev + last)[j] == last[j - |prev|];
        }
      }
    }
  }

  /** Every cube colour is finite or, with one level, NaN: never an infinity. */
  lemma CubeNoInfinity(levels: nat)
    ensures forall i :: 0 <= i < |Cube(levels)| ==> NoInfiniteChannel(Cube(levels)[i])
  {
    var steps := CubeOrder(levels);
    PlaneStepsBelow(levels, levels);
    forall i | 0 <= i < |Cube(levels)|
      ensures NoInfiniteChannel(Cube(levels)[i])
    {
      ColorsOfAt(levels, steps, i);
      assert StepBelow(steps[i], levels, levels, levels);
      StepNotInfinite(steps[i].r, levels);
      StepNotInfinite(steps[i].g, levels);
      StepNotInfinite(steps[i].b, levels);
    }
  }

  /**
   * Every division in `createQuantizedColorPalette` that meets a zero divisor
   * meets a zero numerator, so no entry has an infinite channel.
   */
  lemma QuantizedPaletteNoInfinity(size: int, padded: bool)
    ensures forall i :: 0 <= i < |QuantizedPalette(size, padded)| ==> NoInfiniteChannel(QuantizedPalette(size, padded)[i])
  {
    var cube := Cube(Levels(size));
    CubeNoInfinity(Levels(size));
    CubeLength(Levels(size));
    if padded && CubeSize(size) < size {
      PaddingRamp(size);
      var palette := QuantizedPalette(size, true);
      assert palette[..CubeSize(size)] == cube;
      forall i | 0 <= i < |palette|
        ensures NoInfiniteChannel(palette[i])
      {
        if i < CubeSize(size) {
          assert palette[i] == palette[..CubeSize(size)][i];
        }
      }
    }
  }

  // ---------------------------------------------------------------------------
  // Choice of palette by colour count
  // ---------------------------------------------------------------------------

  /** Microsoft Windows standard 16-colour VGA palette. */
  function Vga16(): seq<Color> {
    [FromHex(0x000000), FromHex(0x0000AA), FromHex(0x00AA00), FromHex(0x00AAAA),
     FromHex(0xAA0000), FromHex(0xAA00AA), FromHex(0xAA5500), FromHex(0xAAAAAA),
     FromHex(0x555555), FromHex(0x5555FF), FromHex(0x55FF55), FromHex(0x55FFFF),
     FromHex(0xFF5555), FromHex(0xFF55FF), FromHex(0xFFFF55), FromHex(0xFFFFFF)]
  }

  /** CGA mode 1, palette 0, high intensity: black, cyan, magenta, white. */
  function Cga4(): seq<Color> {
    [FromHex(0x000000), FromHex(0x55FFFF), FromHex(0xFF55FF), FromHex(0xFFFFFF)]
  }

  /** Black and white. */
  function Monochrome(): seq<Color> {
    [FromHex(0x000000), FromHex(0xFFFFFF)]
  }

  datatype PaletteError = InvalidColorCount(colorCount: int)

  /**
   * `createColorPalette`: the first matching tier wins; a negative count
   * throws. A palette whose length differs from the request is only warned
   * about, so it is returned as it is.
   */
  function CreateColorPalette(colorCount: int): (r: Result<seq<Color>, PaletteError>)
    ensures r.Failure? <==> colorCount < 0
    ensures r.Failure? ==> r.error == InvalidColorCount(colorCount)
  {
    if colorCount > 16 then Success(QuantizedPalette(colorCount, true))
    else if colorCount > 8 then Success(Vga16())
    else if colorCount > 4 then Success(QuantizedPalette(colorCount, true))
    else if colorCount > 2 then Success(Cga4())
    else if colorCount >= 0 then Success(Monochrome())
    else Failure(InvalidColorCount(colorCount))
  }

  /** The tiers: the cube above 16 and from 5 to 8, the fixed lists elsewhere, black first and white last. */
  lemma ColorPaletteTiers(colorCount: int)
    ensures colorCount > 16 || 5 <= colorCount <= 8 ==> CreateColorPalette(colorCount) == Success(QuantizedPalette(colorCount, true))
    ensures 9 <= colorCount <= 16 ==> CreateColorPalette(colorCount) == Success(Vga16())
    ensures 3 <= colorCount <= 4 ==> CreateColorPalette(colorCount) == Success([Black, FromHex(0x55FFFF), FromHex(0xFF55FF), White])
    ensures 0 <= colorCount <= 2 ==> CreateColorPalette(colorCount) == Success([Black, White])
    ensures |Vga16()| == 16 && Vga16()[0] == Black && Vga16()[15] == White
    ensures forall i :: 0 <= i < |Vga16()| ==> InUnitCube(Vga16()[i])
  {
    FromHexExtremes();
  }

  /** m is the cube of a level count the generator can use (1 to 16). */
  predicate IsCubeOfLevels(m: int) {
    exists k :: 1 <= k <= MaxLevels && Cubed(k) == m
  }

  /** Length of cube palette of a count above 16: the count, or one more when the count is one short of a cube. */
  lemma CubeTierLength(colorCount: int)
    requires colorCount >= 17
    ensures |QuantizedPalette(colorCount, true)| == if IsCubeOfLevels(colorCount + 1) then colorCount + 1 else colorCount
  {
    LevelsIsCappedCubeRoot(colorCount);
    QuantizedPaletteLength(colorCount, true);
    CappedCubeIsCubeOfLevels(colorCount, Levels(colorCount));
  }

  /** A capped cube root l of n + 1 has cube exactly n + 1 when n + 1 is any cube of 1 to 16 levels, and at most n otherwise. */
  lemma CappedCubeIsCubeOfLevels(n: int, l: nat)
    requires 1 <= l <= MaxLevels && Cubed(l) <= n + 1
    requires l < MaxLevels ==> n + 1 < Cubed(l + 1)
    ensures IsCubeOfLevels(n + 1) <==> Cubed(l) == n + 1
  {
    if IsCubeOfLevels(n + 1) {
      var k :| 1 <= k <= MaxLevels && Cubed(k) == n + 1;
      if k < l {
        CubedMonotone(k + 1, l);
        CubedMonotone(k, k + 1);
        StrictCube(k);
      } else if l < k {
        CubedMonotone(l + 1, k);
      }
    }
  }

  lemma StrictCube(k: nat)
    ensures Cubed(k) < Cubed(k + 1)
  {
    assert Cubed(k + 1) == Cubed(k) + 3 * (k * k) + 3 * k + 1;
  }

  /** The cube tier from 5 to 8: one NaN entry padded to 5 or 6, or the 2^3 cube for 7 and 8. */
  lemma SmallCubeTierLength(colorCount: int)
    requires 5 <= colorCount <= 8
    ensures |QuantizedPalette(colorCount, true)| == if colorCount <= 6 then colorCount else 8
  {
    QuantizedPaletteLength(colorCount, true);
  }

  /** Length the generator yields for a non-negative count, tier by tier. */
  function GeneratedLength(colorCount: nat): nat {
    if colorCount <= 2 then 2
    else if colorCount <= 4 then 4
    else if colorCount <= 6 then colorCount
    else if colorCount <= 8 then 8
    else if colorCount <= 16 then 16
    else if IsCubeOfLevels(colorCount + 1) then colorCount + 1
    else colorCount
  }

  lemma ColorPaletteLength(colorCount: int)
    requires colorCount >= 0
    ensures CreateColorPalette(colorCount).Success?
    ensures |CreateColorPalette(colorCount).value| == GeneratedLength(colorCount)
  {
    if colorCount >= 17 {
      CubeTierLength(colorCount);
    } else if 5 <= colorCount <= 8 {
      SmallCubeTierLength(colorCount);
    }
  }

  /**
   * The generated length is never below the request. It is above it, and the
   * source warns, exactly for the counts 0, 1, 3, 7, 9 to 15, and the counts
   * above 16 one short of a cube of up to 16 levels, whose cube has one entry
   * more than requested. Every count up to 4096 yields a valid length.
   */
  lemma GeneratedLengthBounds(colorCount: nat)
    ensures colorCount <= GeneratedLength(colorCount)
    ensures GeneratedLength(colorCount) != colorCount <==>
      colorCount <= 1 || colorCount == 3 || colorCount == 7 || 9 <= colorCount <= 15
      || (colorCount >= 17 && IsCubeOfLevels(colorCount + 1))
    ensures colorCount >= 17 ==> GeneratedLength(colorCount) == colorCount || GeneratedLength(colorCount) == colorCount + 1
    ensures colorCount <= MaxColorCount ==> IsValidColorCount(GeneratedLength(colorCount))
  {
    if colorCount >= 17 && IsCubeOfLevels(colorCount + 1) {
      var k :| 1 <= k <= MaxLevels && Cubed(k) == colorCount + 1;
      CubedMonotone(k, MaxLevels);
    }
  }

  /** Worked cases: 9 gives 16, 7 gives 8, 0 gives 2, 63 gives the 4^3 cube, 100 a 4^3 cube padded with 36 greys. */
  lemma ColorPaletteExamples()
    ensures |CreateColorPalette(9).value| == 16
    ensures |CreateColorPalette(7).value| == 8
    ensures |CreateColorPalette(0).value| == 2
    ensures |CreateColorPalette(63).value| == 64
    ensures Levels(100) == 4 && |CreateColorPalette(100).value| == 100
  {
    ColorPaletteLength(7);
    ColorPaletteLength(63);
    assert Cubed(4) == 64;
    ColorPaletteLength(100);
  }
}
