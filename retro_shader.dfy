/**
 * `lib/shaders/RetroShader.ts`: the default uniforms and the fragment
 * program, which pixelates the input into blocks, applies 4 x 4 ordered
 * dithering, clamps, and replaces the colour by the nearest entry of the
 * palette read from the lookup texture. Shader arithmetic is taken over
 * exact reals.
 */
module RetroShader {
  import opened Color
  import opened ColorTexture
  import opened ColorPalette
  import opened Wrappers

  datatype Vec2 = Vec2(x: real, y: real)
  datatype Vec3 = Vec3(r: real, g: real, b: real)

  /** The integer coordinates of a pixelated block. */
  datatype Cell = Cell(x: int, y: int)

  const DefaultResolution: Vec2 := Vec2(320.0, 200.0)
  const DefaultColorCount: int := 16
  const DefaultDithering: bool := true
  const DefaultDitheringOffset: real := 0.2

  /**
   * The default lookup texture is the encoded VGA palette. With channels taken
   * as byte / 255, every texel reads back as its colour.
   */
  lemma DefaultColorTexture()
    ensures CreateColorPalette(DefaultColorCount) == Success(Vga16())
    ensures |Encode(Vga16())| == 4 * DefaultColorCount
    ensures forall i :: 0 <= i < |Vga16()| ==> TexelColor(Encode(Vga16()), i) == Vga16()[i]
  {
    var hexes := [0x000000, 0x0000AA, 0x00AA00, 0x00AAAA, 0xAA0000, 0xAA00AA, 0xAA5500, 0xAAAAAA,
                  0x555555, 0x5555FF, 0x55FF55, 0x55FFFF, 0xFF5555, 0xFF55FF, 0xFFFF55, 0xFFFFFF];
    assert forall i :: 0 <= i < 16 ==> 0 <= hexes[i] < 0x100_0000 && Vga16()[i] == FromHex(hexes[i]);
    forall i | 0 <= i < |Vga16()|
      ensures TexelColor(Encode(Vga16()), i) == Vga16()[i]
    {
      HexColorRoundTrip(Vga16(), i, hexes[i]);
    }
  }

  // ---------------------------------------------------------------------------
  // Pixelation
  // ---------------------------------------------------------------------------

  /** `floor(vUv * resolution)`: the block a texture coordinate falls in. */
  function Block(uv: Vec2, resolution: Vec2): Cell {
    Cell((uv.x * resolution.x).Floor, (uv.y * resolution.y).Floor)
  }

  /** `(floor(vUv * resolution) + 0.5) / resolution`: the point the block is sampled at. */
  function RetroUV(uv: Vec2, resolution: Vec2): Vec2
    requires resolution.x > 0.0 && resolution.y > 0.0
  {
    var cell := Block(uv, resolution);
    Vec2((cell.x as real + 0.5) / resolution.x, (cell.y as real + 0.5) / resolution.y)
  }

  /** The sample point lies strictly inside its block, so it falls in the same block again. */
  lemma RetroUVInsideBlock(uv: Vec2, resolution: Vec2)
    requires resolution.x > 0.0 && resolution.y > 0.0
    ensures var cell := Block(uv, resolution); var s := RetroUV(uv, resolution);
      && cell.x as real / resolution.x < s.x < (cell.x + 1) as real / resolution.x
      && cell.y as real / resolution.y < s.y < (cell.y + 1) as real / resolution.y
    ensures Block(RetroUV(uv, resolution), resolution) == Block(uv, resolution)
  {
    var cell := Block(uv, resolution);
    var s := RetroUV(uv, resolution);
    assert s.x * resolution.x == cell.x as real + 0.5;
    assert s.y * resolution.y == cell.y as real + 0.5;
    InsideByScaling(cell.x, resolution.x, s.x);
    InsideByScaling(cell.y, resolution.y, s.y);
  }

  lemma InsideByScaling(n: int, scale: real, s: real)
    requires scale > 0.0 && s * scale == n as real + 0.5
    ensures n as real / scale < s < (n + 1) as real / scale
    ensures (s * scale).Floor == n
  {
    assert s == (n as real + 0.5) / scale;
  }

  /** All coordinates of one block share the sample point. */
  lemma SameBlockSameSample(u: Vec2, v: Vec2, resolution: Vec2)
    requires resolution.x > 0.0 && resolution.y > 0.0
    requires Block(u, resolution) == Block(v, resolution)
    ensures RetroUV(u, resolution) == RetroUV(v, resolution)
  {
  }

  // ---------------------------------------------------------------------------
  // Ordered dithering
  // ---------------------------------------------------------------------------

  /** Numerators of `bayer4x4`, row by row; entry i of the table is BayerNumerators()[i] / 16. */
  function BayerNumerators(): seq<int> {
    [0, 8, 2, 10, 12, 4, 14, 6, 3, 11, 1, 9, 15, 7, 13, 5]
  }

  /** Where each numerator sits in the table: the inverse permutation. */
  const BayerPositions: seq<int> := [0, 10, 2, 8, 5, 15, 7, 13, 1, 11, 3, 9, 4, 14, 6, 12]

  function Bayer(i: int): real
    requires 0 <= i < 16
  {
    BayerNumerators()[i] as real / 16.0
  }

  /** The table holds each of 0/16, ..., 15/16 exactly once. */
  lemma BayerIsPermutation()
    ensures |BayerNumerators()| == 16 && |BayerPositions| == 16
    ensures forall i :: 0 <= i < 16 ==> 0 <= BayerNumerators()[i] < 16 && BayerPositions[BayerNumerators()[i]] == i
    ensures forall k :: 0 <= k < 16 ==> 0 <= BayerPositions[k] < 16 && BayerNumerators()[BayerPositions[k]] == k
    ensures forall i, j :: 0 <= i < 16 && 0 <= j < 16 && BayerNumerators()[i] == BayerNumerators()[j] ==> i == j
  {
    forall i | 0 <= i < 16
      ensures 0 <= BayerNumerators()[i] < 16 && BayerPositions[BayerNumerators()[i]] == i
      ensures 0 <= BayerPositions[i] < 16 && BayerNumerators()[BayerPositions[i]] == i
    {
      assert i == 0 || i == 1 || i == 2 || i == 3 || i == 4 || i == 5 || i == 6 || i == 7
        || i == 8 || i == 9 || i == 10 || i == 11 || i == 12 || i == 13 || i == 14 || i == 15;
    }
  }

  /**
   * `iy * 4 + ix` with `ix = int(mod(x, 4.0))`, `iy = int(mod(y, 4.0))`. GLSL's
   * `mod` of a whole number by 4 is the non-negative remainder, as `%` is here.
   */
  function BayerIndex(cell: Cell): (i: int)
    ensures 0 <= i < 16
  {
    (cell.y % 4) * 4 + cell.x % 4
  }

  /** The threshold pattern repeats every four blocks in each direction. */
  lemma BayerIndexPeriodic(cell: Cell, a: int, b: int)
    ensures BayerIndex(Cell(cell.x + 4 * a, cell.y + 4 * b)) == BayerIndex(cell)
  {
    assert (cell.x + 4 * a) % 4 == cell.x % 4;
    assert (cell.y + 4 * b) % 4 == cell.y % 4;
  }

  /** Different positions within a 4 x 4 tile get different thresholds. */
  lemma BayerIndexInjectiveOnTile(p: Cell, q: Cell)
    requires 0 <= p.x < 4 && 0 <= p.y < 4 && 0 <= q.x < 4 && 0 <= q.y < 4
    requires Bayer(BayerIndex(p)) == Bayer(BayerIndex(q))
    ensures p == q
  {
    TileIndex(p);
    TileIndex(q);
    BayerInjective(BayerIndex(p), BayerIndex(q));
  }

  lemma TileIndex(p: Cell)
    requires 0 <= p.x < 4 && 0 <= p.y < 4
    ensures BayerIndex(p) == p.y * 4 + p.x
  {
  }

  lemma BayerInjective(i: int, j: int)
    requires 0 <= i < 16 && 0 <= j < 16 && Bayer(i) == Bayer(j)
    ensures i == j
  {
    BayerIsPermutation();
    assert BayerNumerators()[i] == BayerNumerators()[j];
  }

  lemma BayerRange(i: int)
    requires 0 <= i < 16
    ensures 0.0 <= Bayer(i) <= 15.0 / 16.0
  {
    BayerIsPermutation();
  }

  /**
   * A plain product under a name, so that the solver treats the dithering
   * offset as one term and the monotonicity step is taken by `ScaleMonotone`.
   */
  function Times(a: real, b: real): real {
    a * b
  }

  /** `(bayer - 0.5) * ditheringOffset`, the offset of a non-black block. */
  function BayerOffset(cell: Cell, ditheringOffset: real): real {
    Times(Bayer(BayerIndex(cell)) - 0.5, ditheringOffset)
  }

  /** For a non-negative amount d the offset lies in [-d/2, 7d/16]. */
  lemma BayerOffsetRange(cell: Cell, d: real)
    requires d >= 0.0
    ensures -0.5 * d <= BayerOffset(cell, d) <= 0.4375 * d
  {
    var t := Bayer(BayerIndex(cell));
    assert -0.5 <= t - 0.5 <= 0.4375 by {
      BayerRange(BayerIndex(cell));
    }
    ScaleMonotone(-0.5, t - 0.5, d);
    ScaleMonotone(t - 0.5, 0.4375, d);
  }

  /** The thresholds of the top-left and the bottom-left entries are the smallest and the largest. */
  lemma BayerCorners()
    ensures Bayer(0) == 0.0 && Bayer(12) == 15.0 / 16.0
  {
    assert BayerNumerators()[0] == 0 && BayerNumerators()[12] == 15;
  }

  /**
   * Both ends of the range are reached: at blocks whose coordinates are both
   * multiples of 4, and at blocks whose x is a multiple of 4 and whose y is 3 mod 4.
   */
  lemma BayerOffsetExtremes(p: Cell, q: Cell, d: real)
    requires p.x % 4 == 0 && p.y % 4 == 0
    requires q.x % 4 == 0 && q.y % 4 == 3
    ensures BayerOffset(p, d) == -0.5 * d
    ensures BayerOffset(q, d) == 0.4375 * d
  {
    assert BayerIndex(p) == 0 && BayerIndex(q) == 12;
    BayerCorners();
  }

  /** Scaling by a non-negative amount keeps the order. */
  lemma ScaleMonotone(a: real, b: real, d: real)
    requires a <= b && d >= 0.0
    ensures Times(a, d) <= Times(b, d)
  {
    calc {
      Times(b, d) - Times(a, d);
      == (b - a) * d;
      >= 0.0;
    }
  }

  function Clamp01(x: real): real {
    if x < 0.0 then 0.0 else if x > 1.0 then 1.0 else x
  }

  predicate IsBlack(c: Vec3) {
    c.r == 0.0 && c.g == 0.0 && c.b == 0.0
  }

  /** The dithering step of the fragment program: skipped when off, no offset on black, then clamped. */
  function Dither(c: Vec3, cell: Cell, dithering: bool, ditheringOffset: real): Vec3 {
    if !dithering then c
    else
      var offset := if IsBlack(c) then 0.0 else BayerOffset(cell, ditheringOffset);
      Vec3(Clamp01(c.r + offset), Clamp01(c.g + offset), Clamp01(c.b + offset))
  }

  predicate InUnitRange(c: Vec3) {
    0.0 <= c.r <= 1.0 && 0.0 <= c.g <= 1.0 && 0.0 <= c.b <= 1.0
  }

  /**
   * With dithering on every channel ends in [0, 1], black stays black, and a
   * colour inside the unit cube moves by at most the offset in each channel.
   * With dithering off the colour is left alone.
   */
  lemma DitherEffect(c: Vec3, cell: Cell, dithering: bool, ditheringOffset: real)
    ensures !dithering ==> Dither(c, cell, dithering, ditheringOffset) == c
    ensures dithering ==> InUnitRange(Dither(c, cell, dithering, ditheringOffset))
    ensures IsBlack(c) ==> Dither(c, cell, dithering, ditheringOffset) == c
    ensures dithering && InUnitRange(c) && !IsBlack(c) ==>
      var d := Dither(c, cell, dithering, ditheringOffset);
      var o := BayerOffset(cell, ditheringOffset);
      && Within(d.r, c.r, o) && Within(d.g, c.g, o) && Within(d.b, c.b, o)
  {
  }

  /** y lies between x and x + o, whichever way o points. */
  predicate Within(y: real, x: real, o: real) {
    if o >= 0.0 then x <= y <= x + o else x + o <= y <= x
  }

  // ---------------------------------------------------------------------------
  // Nearest palette colour
  // ---------------------------------------------------------------------------

  function Square(d: real): real {
    d * d
  }

  /** Squared Euclidean distance; it orders colours exactly as `distance` does. */
  function SqDist(a: Vec3, b: Vec3): real {
    Square(a.r - b.r) + Square(a.g - b.g) + Square(a.b - b.b)
  }

  /** `minDist` starts at 1e6, so only colours nearer than that, squared 1e12, are taken. */
  const MaxSqDist: real := 1_000_000_000_000.0

  /** The distance is never negative, is 0 from a colour to itself, and is positive between different colours. */
  lemma SqDistPositive(a: Vec3, b: Vec3)
    ensures SqDist(a, b) >= 0.0
    ensures SqDist(a, a) == 0.0
    ensures a != b ==> SqDist(a, b) > 0.0
  {
    SquareSign(a.r - b.r);
    SquareSign(a.g - b.g);
    SquareSign(a.b - b.b);
    SquareSign(0.0);
    assert a.r - a.r == 0.0 && a.g - a.g == 0.0 && a.b - a.b == 0.0;
  }

  /** A square is never negative and is 0 only at 0; each strict case goes through d * d on its own. */
  lemma SquareSign(d: real)
    ensures Square(d) >= 0.0
    ensures Square(d) == 0.0 <==> d == 0.0
  {
    if d > 0.0 {
      calc { Square(d); == d * d; > 0.0; }
    } else if d < 0.0 {
      calc { Square(d); == d * d; > 0.0; }
    }
  }

  /** Two colours of the unit cube are less than the cutoff apart. */
  lemma SqDistInUnitCube(a: Vec3, b: Vec3)
    requires InUnitRange(a) && InUnitRange(b)
    ensures SqDist(a, b) <= 3.0 < MaxSqDist
  {
    UnitSquare(a.r - b.r);
    UnitSquare(a.g - b.g);
    UnitSquare(a.b - b.b);
  }

  lemma UnitSquare(d: real)
    requires -1.0 <= d <= 1.0
    ensures Square(d) <= 1.0
  {
    if d >= 0.0 {
      assert d * d <= d * 1.0;
    } else {
      assert d * d <= (-d) * 1.0;
    }
  }

  /** Distance the search compares against after choosing index k, -1 meaning nothing yet. */
  function BestDist(c: Vec3, palette: seq<Vec3>, k: int): real
    requires -1 <= k < |palette|
  {
    if k < 0 then MaxSqDist else SqDist(c, palette[k])
  }

  /** Index the search loop settles on: a later entry replaces the best only when strictly nearer. */
  function Nearest(c: Vec3, palette: seq<Vec3>): (k: int)
    ensures -1 <= k < |palette|
  {
    if |palette| == 0 then -1
    else
      var k := Nearest(c, palette[..|palette| - 1]);
      var last := |palette| - 1;
      if SqDist(c, palette[last]) < BestDist(c, palette[..last], k) then last else k
  }

  /**
   * The chosen entry is nearer than the cutoff and no farther than any
   * other; every entry before it is strictly farther, so ties go to the
   * lowest index. Nothing is chosen only when every entry is at the
   * cutoff or beyond.
   */
  lemma {:induction false} NearestIsFirstMinimum(c: Vec3, palette: seq<Vec3>)
    ensures var k := Nearest(c, palette);
      && (k >= 0 ==> SqDist(c, palette[k]) < MaxSqDist)
      && (forall j :: 0 <= j < |palette| ==> BestDist(c, palette, k) <= SqDist(c, palette[j]))
      && (forall j :: 0 <= j < k ==> SqDist(c, palette[k]) < SqDist(c, palette[j]))
  {
    if |palette| > 0 {
      var last := |palette| - 1;
      var init := palette[..last];
      NearestIsFirstMinimum(c, init);
      var k := Nearest(c, init);
      assert forall j :: 0 <= j < last ==> palette[j] == init[j];
      assert k >= 0 ==> palette[k] == init[k];
    }
  }

  /** A colour that is in the palette is found at distance 0, so the result is that colour. */
  lemma NearestOfPaletteColor(c: Vec3, palette: seq<Vec3>, i: int)
    requires 0 <= i < |palette| && palette[i] == c
    ensures 0 <= Nearest(c, palette) <= i
    ensures palette[Nearest(c, palette)] == c
  {
    NearestIsFirstMinimum(c, palette);
    SqDistPositive(c, c);
    var k := Nearest(c, palette);
    assert BestDist(c, palette, k) <= 0.0;
    assert k >= 0;
    SqDistPositive(c, palette[k]);
  }

  /** A non-empty palette inside the unit cube always yields an entry for a colour inside it. */
  lemma NearestFound(c: Vec3, palette: seq<Vec3>)
    requires |palette| > 0 && InUnitRange(c)
    requires forall j :: 0 <= j < |palette| ==> InUnitRange(palette[j])
    ensures Nearest(c, palette) >= 0
  {
    NearestIsFirstMinimum(c, palette);
    SqDistInUnitCube(c, palette[0]);
  }

  /** Result of the search: the chosen entry, or the initial black when nothing was chosen. */
  function Closest(c: Vec3, palette: seq<Vec3>): Vec3 {
    var k := Nearest(c, palette);
    if k < 0 then Vec3(0.0, 0.0, 0.0) else palette[k]
  }

  /** Quantizing an already quantized colour returns it unchanged. */
  lemma ClosestIdempotent(c: Vec3, palette: seq<Vec3>)
    requires Nearest(c, palette) >= 0
    ensures Closest(Closest(c, palette), palette) == Closest(c, palette)
  {
    NearestOfPaletteColor(palette[Nearest(c, palette)], palette, Nearest(c, palette));
  }

  // ---------------------------------------------------------------------------
  // Reading the palette from the lookup texture
  // ---------------------------------------------------------------------------

  /** Nearest-filter texel of a horizontal coordinate u on a texture `width` texels wide, with clamping at the edges. */
  function TexelIndex(u: real, width: nat): (t: nat)
    requires width >= 1
    ensures t < width
  {
    var t := (u * width as real).Floor;
    if t < 0 then 0 else if t >= width then width - 1 else t
  }

  /** Sampling at `(i + 0.5) / colorCount` on a texture as wide as the count hits texel i. */
  lemma TexelIndexOfEntry(i: nat, count: nat)
    requires i < count
    ensures TexelIndex((i as real + 0.5) / count as real, count) == i
  {
    var u := (i as real + 0.5) / count as real;
    assert u * count as real == i as real + 0.5;
  }

  /** Texel t of a lookup buffer as the shader's `.rgb`: each byte over 255. */
  function TexelVec(lut: seq<Byte>, t: nat): Vec3
    requires 4 * t + 3 < |lut|
  {
    Vec3(ByteValue(lut[4 * t]), ByteValue(lut[4 * t + 1]), ByteValue(lut[4 * t + 2]))
  }

  /** The colours the search loop reads, entry i at `vec2((float(i) + 0.5) / float(colorCount), 0.5)`. */
  function LutPalette(lut: seq<Byte>, width: nat, colorCount: int): seq<Vec3>
    requires width >= 1 && |lut| == 4 * width
  {
    if colorCount <= 0 then []
    else
      seq(colorCount, i requires 0 <= i < colorCount =>
        TexelVec(lut, TexelIndex((i as real + 0.5) / colorCount as real, width)))
  }

  /** The channel values of a colour, as the shader sees them. */
  function ToVec3(c: Color): Vec3
    requires c.r.Finite? && c.g.Finite? && c.b.Finite?
  {
    Vec3(c.r.value, c.g.value, c.b.value)
  }

  /**
   * When the texture is the encoding of a palette and the count is its length,
   * the search reads every entry once, in order, as that entry's bytes over 255.
   */
  lemma LutPaletteOfEncoding(colors: seq<Color>)
    requires |colors| >= 1
    ensures |LutPalette(Encode(colors), |colors|, |colors|)| == |colors|
    ensures forall i :: 0 <= i < |colors| ==>
      LutPalette(Encode(colors), |colors|, |colors|)[i] == ToVec3(TexelColor(Encode(colors), i))
  {
    forall i | 0 <= i < |colors|
      ensures LutPalette(Encode(colors), |colors|, |colors|)[i] == ToVec3(TexelColor(Encode(colors), i))
    {
      LutPaletteEntry(Encode(colors), |colors|, i);
    }
  }

  /** Entry i of the palette read from a buffer of n texels is texel i. */
  lemma LutPaletteEntry(lut: seq<Byte>, n: nat, i: nat)
    requires i < n && |lut| == 4 * n
    ensures LutPalette(lut, n, n)[i] == ToVec3(TexelColor(lut, i))
  {
    var t := TexelIndex((i as real + 0.5) / n as real, n);
    TexelIndexOfEntry(i, n);
    assert LutPalette(lut, n, n)[i] == TexelVec(lut, t);
  }

  /** Every colour read from a byte texture lies in the unit cube. */
  lemma LutPaletteInUnitRange(lut: seq<Byte>, width: nat, colorCount: int)
    requires width >= 1 && |lut| == 4 * width
    ensures forall j :: 0 <= j < |LutPalette(lut, width, colorCount)| ==> InUnitRange(LutPalette(lut, width, colorCount)[j])
  {
  }

  // ---------------------------------------------------------------------------
  // The fragment program
  // ---------------------------------------------------------------------------

  /** Values of the shader uniforms; the lookup texture is given by its buffer and width. */
  datatype Uniforms = Uniforms(
    resolution: Vec2, colorCount: int, lut: seq<Byte>, lutWidth: nat,
    dithering: bool, ditheringOffset: real)
  {
    /** The lookup texture is a well-formed RGBA image and the resolution is positive. */
    predicate WellFormed() {
      resolution.x > 0.0 && resolution.y > 0.0 && lutWidth >= 1 && |lut| == 4 * lutWidth
    }
  }

  /** The colour (before `linearToSrgb`) the fragment program writes for coordinate uv over the image. */
  function FragmentColor(uv: Vec2, image: Vec2 -> Vec3, u: Uniforms): Vec3
    requires u.WellFormed()
  {
    var c := Dither(image(RetroUV(uv, u.resolution)), Block(uv, u.resolution), u.dithering, u.ditheringOffset);
    Closest(c, LutPalette(u.lut, u.lutWidth, u.colorCount))
  }

  /**
   * `main` of the fragment shader: sample the block, dither and clamp, then
   * scan the palette keeping the first strictly nearest colour.
   */
  method Fragment(uv: Vec2, image: Vec2 -> Vec3, u: Uniforms) returns (closestColor: Vec3)
    requires u.WellFormed()
    ensures closestColor == FragmentColor(uv, image, u)
  {
    var retroUV := RetroUV(uv, u.resolution);
    var c := image(retroUV);
    var retroCoord := Block(uv, u.resolution);
    if u.dithering {
      c := DitherStep(c, retroCoord, u.ditheringOffset);
    }
    closestColor := SearchPalette(c, u);
  }

  /** The `if (dithering)` block of `main`: offset a non-black colour by its Bayer threshold, then clamp. */
  method DitherStep(sample: Vec3, retroCoord: Cell, ditheringOffset: real) returns (c: Vec3)
    ensures c == Dither(sample, retroCoord, true, ditheringOffset)
  {
    c := sample;
    var offset := 0.0;
    if !(c.r == 0.0 && c.g == 0.0 && c.b == 0.0) {
      var ix := retroCoord.x % 4;
      var iy := retroCoord.y % 4;
      var bayer := Bayer(iy * 4 + ix);
      offset := (bayer - 0.5) * ditheringOffset;
    }
    c := Vec3(c.r + offset, c.g + offset, c.b + offset);
    c := Vec3(Clamp01(c.r), Clamp01(c.g), Clamp01(c.b));
  }

  /** The search loop of `main`: keep the first palette colour strictly nearer than any before it. */
  method SearchPalette(c: Vec3, u: Uniforms) returns (closestColor: Vec3)
    requires u.WellFormed()
    ensures closestColor == Closest(c, LutPalette(u.lut, u.lutWidth, u.colorCount))
  {
    ghost var palette := LutPalette(u.lut, u.lutWidth, u.colorCount);
    closestColor := Vec3(0.0, 0.0, 0.0);
    var minDist := MaxSqDist;
    var i := 0;
    while i < u.colorCount
      invariant 0 <= i <= |palette|
      invariant minDist == BestDist(c, palette[..i], Nearest(c, palette[..i]))
      invariant closestColor == Closest(c, palette[..i])
    {
      var t := TexelIndex((i as real + 0.5) / u.colorCount as real, u.lutWidth);
      var paletteColor := TexelVec(u.lut, t);
      var dist := SqDist(c, paletteColor);
      assert palette[..i + 1][..i] == palette[..i];
      assert palette[..i + 1][i] == paletteColor;
      if dist < minDist {
        minDist := dist;
        closestColor := paletteColor;
      }
      i := i + 1;
    }
    assert palette[..i] == palette;
  }

  /**
   * Whenever there is at least one colour to compare against, and either
   * dithering is on or the sample lies in the unit cube, the output is one of
   * the palette's colours, the first nearest one to the dithered sample.
   * Without dithering, a sample at least 1e6 from every entry gives black.
   */
  lemma FragmentPicksPaletteColor(uv: Vec2, image: Vec2 -> Vec3, u: Uniforms)
    requires u.WellFormed() && u.colorCount >= 1
    requires u.dithering || InUnitRange(image(RetroUV(uv, u.resolution)))
    ensures var palette := LutPalette(u.lut, u.lutWidth, u.colorCount);
      var k := Nearest(Dither(image(RetroUV(uv, u.resolution)), Block(uv, u.resolution), u.dithering, u.ditheringOffset), palette);
      0 <= k < |palette| && FragmentColor(uv, image, u) == palette[k]
  {
    var palette := LutPalette(u.lut, u.lutWidth, u.colorCount);
    var c := Dither(image(RetroUV(uv, u.resolution)), Block(uv, u.resolution), u.dithering, u.ditheringOffset);
    DitherEffect(image(RetroUV(uv, u.resolution)), Block(uv, u.resolution), u.dithering, u.ditheringOffset);
    LutPaletteInUnitRange(u.lut, u.lutWidth, u.colorCount);
    NearestFound(c, palette);
  }

  /** With dithering off, an image whose sample is already a palette colour passes through unchanged. */
  lemma FragmentKeepsPaletteColors(uv: Vec2, image: Vec2 -> Vec3, u: Uniforms, i: int)
    requires u.WellFormed() && !u.dithering
    requires 0 <= i < |LutPalette(u.lut, u.lutWidth, u.colorCount)|
    requires image(RetroUV(uv, u.resolution)) == LutPalette(u.lut, u.lutWidth, u.colorCount)[i]
    ensures FragmentColor(uv, image, u) == image(RetroUV(uv, u.resolution))
  {
    NearestOfPaletteColor(image(RetroUV(uv, u.resolution)), LutPalette(u.lut, u.lutWidth, u.colorCount), i);
  }
}
