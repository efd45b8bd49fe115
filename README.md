# three-retropass in Dafny

A verified model of the library behind three-retropass. It is a three.js post-processing pass that gives a rendered frame a retro look in three steps: pixelate the frame into blocks, apply 4 x 4 ordered dithering, and snap every block to the nearest colour of a small palette. The model covers each part of the library:

- **Count validation** (`ValidColorCount`, `ColorCount`): the clamp-equality test that accepts 2..4096 colours, and the two lists of counts.
- **Palette generation** (`ColorPalette`). The generator builds a uniform RGB cube with min(16, floor(cbrt(n + 1))) levels per channel, red outermost. It pads the cube with a grey ramp. Depending on the requested count it returns that cube or one of the fixed historical palettes (VGA 16, CGA 4, monochrome). The nested push loops and the padding loop are methods, each proved equal to a functional definition. Two divisions by zero occur, and both give JavaScript's NaN: the cube of one level (sizes 0 to 6), and a single pad.
- **Lookup-table encoding** (`ColorTexture`). A palette becomes an N x 1 RGBA byte texture. Each channel is stored as `Math.floor(v * 255)` through a `Uint8Array`, so NaN becomes 0 and out-of-range values wrap modulo 256. Alpha is 255. The filling loop writes into an `array`.
- **The fragment program** (`RetroShader`):
  - the block sample point;
  - the Bayer table and its index;
  - dithering, which skips pure black and clamps to [0, 1];
  - the palette search loop, which keeps the first strictly nearer entry while reading each entry back from the lookup texture.

  The search is proved to return the first palette entry at minimal distance. It is idempotent. A colour already in the palette comes back unchanged.
- **The pass** (`RetroPass`). A class with the pass's fields: count, texture, palette, dithering offset and its automatic mode, resolution and its automatic mode, pixel ratio, and size. Every setter is a method that keeps `Valid()`. `Valid()` requires a valid count equal to the number of colours the live texture encodes, with the stored palette being those colours. Each method's contract states the whole new state.

JavaScript numbers are exact reals. The palette divisions give a finite value or NaN (0 / 0), never an infinity, so there channels are the datatype `Color.Num`, whose infinities come only from JavaScript's `/` in general. A `throw` is a `Failure`/`Fail` value carrying the message.

## Model

| member | source | states |
|---|---|---|
| Color.FromHex | lib/utils/createColorPalette.ts:49-66 | `new THREE.Color(hex)` gives each channel its byte of the hex value over 255, so it lies in [0, 1] |
| Color.FromHexExtremes | lib/utils/createColorPalette.ts:50-65 | 0x000000 is black and 0xFFFFFF is white |
| Color.Divide | lib/utils/createColorPalette.ts:16 | JavaScript division: the quotient for a non-zero divisor, NaN for 0 / 0 and a signed infinity otherwise. `CubeColorValue`, `SingleLevelCube` and `GreyRampEnds` state which case each palette division reaches |
| ValidColorCount.Clamp | lib/utils/isValidColorCount.ts:9 | the clamped value lies in [min, max] and equals the input exactly when the input is in range |
| ValidColorCount.IsValidColorCount | lib/utils/isValidColorCount.ts:8-10 | a count is valid if and only if 2 <= n <= 4096 |
| ValidColorCount.ValidColorCountsAreTheValidRange | lib/utils/isValidColorCount.ts:6-10 | `validColorCounts` has 4095 entries, entry i is i + 2, and an integer is in it if and only if the validator accepts it |
| ColorCount.ColorCountsShape | lib/models/ColorCount.ts:1 | 255 entries running from 2 to 256 in steps of one, without repeats |
| ColorCount.ColorCountsStrictlyInsideValidRange | lib/models/ColorCount.ts:1 | every entry is a valid count, the list is exactly 2..256, and the valid counts 257..4096 are missing |
| ColorPalette.CappedCubeRootFrom | lib/utils/createColorPalette.ts:9 | the level counter stepped up from k while the next cube fits, never past 16; its contract keeps it in k .. 16. `CappedCubeRootFromIsLargest` states that it is the largest level whose cube fits |
| ColorPalette.CappedCubeRootFromIsLargest | lib/utils/createColorPalette.ts:9 | stepping the level up while the next cube fits gives the largest level whose cube fits, below the cap of 16 |
| ColorPalette.Levels | lib/utils/createColorPalette.ts:9 | the level count is 0 for a negative size and between 1 and 16 otherwise |
| ColorPalette.LevelsIsCappedCubeRoot | lib/utils/createColorPalette.ts:9 | the level count is the largest l <= 16 with l^3 <= size + 1 |
| ColorPalette.Step | lib/utils/createColorPalette.ts:16 | channel value i / (levels - 1) by JavaScript division. `StepInUnitRange` states that with two or more levels it is a finite value in [0, 1] |
| ColorPalette.CubeColor | lib/utils/createColorPalette.ts:16 | `new THREE.Color(r / divisor, g / divisor, b / divisor)`. `CubeColorValue` states its value inside the unit cube, `SingleLevelCube` the NaN colour of one level |
| ColorPalette.Cube | lib/utils/createColorPalette.ts:13-19 | the colours of the cube steps in loop order. `CubeAt` states its length and where each colour sits, `CubeColorValue` and `SingleLevelCube` what the colours are |
| ColorPalette.CubeOrderAt | lib/utils/createColorPalette.ts:13-19 | the loop order visits L^3 step triples, and triple (r, g, b) comes at index r*L^2 + g*L + b |
| ColorPalette.GreyRamp | lib/utils/createColorPalette.ts:25-28 | n greys with value k / divisor for k = 0 .. n - 1. `GreyRampEnds` states its ends and range |
| ColorPalette.PadWithGreys | lib/utils/createColorPalette.ts:21-29 | a palette shorter than the size gets the ramp (k - length) / (size - length - 1) up to the size, a longer one is kept. `PaddingRamp` states what the pads are |
| ColorPalette.QuantizedPalette | lib/utils/createColorPalette.ts:8-32 | what `createQuantizedColorPalette` returns: the cube, padded when asked. `QuantizedPaletteLength` states its length, `CreateQuantizedColorPalette` that the loops build it |
| ColorPalette.CreateQuantizedColorPalette | lib/utils/createColorPalette.ts:8-32 | the pushed palette is the cube of `Levels(size)` colours, padded with greys to `size` entries when `padded` |
| ColorPalette.PushCube | lib/utils/createColorPalette.ts:10-19 | the three nested loops push exactly the cube, red outermost, then green, then blue |
| ColorPalette.PushGreyPadding | lib/utils/createColorPalette.ts:21-29 | the padding loop appends the grey ramp (k - cube) / (size - cube - 1) until the palette has `size` entries, and appends nothing when it already has that many |
| ColorPalette.CubeAt | lib/utils/createColorPalette.ts:13-19 | the cube has L^3 entries, and index r*L^2 + g*L + b holds the colour of steps (r, g, b) |
| ColorPalette.CubeColorValue | lib/utils/createColorPalette.ts:11-16 | with at least two levels, cube colour (r, g, b) is (r, g, b) / (L - 1), inside the unit cube |
| ColorPalette.SingleLevelCube | lib/utils/createColorPalette.ts:9-16 | there is one level exactly for sizes 0 to 6, and then the only cube entry is 0 / 0, NaN, in every channel |
| ColorPalette.CubeNoInfinity | lib/utils/createColorPalette.ts:11-16 | every step divisor `levels - 1` that is zero meets a zero numerator, so no cube colour has an infinite channel |
| ColorPalette.QuantizedPaletteNoInfinity | lib/utils/createColorPalette.ts:8-32 | no entry of the returned palette, padded or not, has an infinite channel: each channel is finite or NaN |
| ColorPalette.QuantizedPaletteLength | lib/utils/createColorPalette.ts:9-31 | the cube has at most min(4096, size + 1) entries; padded, the palette has max(size, cube) entries, unpadded exactly the cube |
| ColorPalette.GreyRampEnds | lib/utils/createColorPalette.ts:22-28 | a ramp of n >= 2 greys over n - 1 runs from 0 to 1 inside [0, 1]; a ramp of one grey is NaN |
| ColorPalette.PaddingRamp | lib/utils/createColorPalette.ts:21-29 | the pads after the cube are greys (k - cube) / (size - cube - 1). With two or more pads the first is 0, the last is 1, and all lie in [0, 1]. A single pad is NaN |
| ColorPalette.CreateColorPalette | lib/utils/createColorPalette.ts:37-106 | the generator throws exactly for negative counts, with the invalid count as the error |
| ColorPalette.Vga16 | lib/utils/createColorPalette.ts:49-66 | the 16 VGA colours in source order. `ColorPaletteTiers` states that counts 9..16 return it, that it has 16 entries inside the unit cube, black first and white last |
| ColorPalette.Cga4 | lib/utils/createColorPalette.ts:78-83 | black, cyan 0x55FFFF, magenta 0xFF55FF and white. `ColorPaletteTiers` states that counts 3 and 4 return exactly these |
| ColorPalette.Monochrome | lib/utils/createColorPalette.ts:89-92 | black and white. `ColorPaletteTiers` states that counts 0..2 return exactly these |
| ColorPalette.ColorPaletteTiers | lib/utils/createColorPalette.ts:40-98 | the tiers: the padded cube above 16 and for 5..8, VGA for 9..16, CGA for 3..4, black and white for 0..2; VGA has 16 unit-cube colours, black first and white last |
| ColorPalette.CubeTierLength | lib/utils/createColorPalette.ts:42-45 | above 16 the palette has n entries, or n + 1 exactly when n + 1 is the cube of 1 to 16 levels |
| ColorPalette.SmallCubeTierLength | lib/utils/createColorPalette.ts:71-74 | for 5..8 the palette has 5, 6, 8 or 8 entries |
| ColorPalette.ColorPaletteLength | lib/utils/createColorPalette.ts:37-105 | every non-negative count yields a palette whose length is the tier's `GeneratedLength` |
| ColorPalette.GeneratedLengthBounds | lib/utils/createColorPalette.ts:101-105 | the length is never below the request. It differs, the case that triggers the warning, exactly for 0, 1, 3, 7, 9..15 and for counts above 16 one short of a cube. Every count up to 4096 yields a valid length |
| ColorPalette.ColorPaletteExamples | lib/utils/createColorPalette.ts:101-105 | 9 gives 16 colours, 7 gives 8, 0 gives 2, 63 gives the 4^3 cube, and 100 gives a 4^3 cube plus 36 greys |
| ColorTexture.Texture.Dispose | lib/postprocessing/RetroPass.ts:119 | disposing marks the texture disposed and leaves its buffer alone |
| ColorTexture.CreateColorTexture | lib/utils/createColorTexture.ts:6-30 | a fresh colours.length x 1 texture marked for upload, whose buffer is the encoding: 4 bytes per colour, every slot written |
| ColorTexture.ChannelByte | lib/utils/createColorTexture.ts:13-15 | `Math.floor(v * 255)` stored in a `Uint8Array`: NaN and the infinities store 0, other values wrap modulo 256. `UnitChannelByte` and `OutOfRangeChannelByte` state the cases |
| ColorTexture.Encode | lib/utils/createColorTexture.ts:9-17 | the filled buffer: 4 bytes per colour, red, green and blue through `ChannelByte`, then alpha 255. `EncodeAt` and `EncodeConcat` state the layout |
| ColorTexture.EncodeAt | lib/utils/createColorTexture.ts:11-17 | the buffer has 4n bytes, and quad i holds floor(255 x) of colour i's red, green and blue, then alpha 255 |
| ColorTexture.EncodeConcat | lib/utils/createColorTexture.ts:11-17 | encoding is index-preserving: the quads of a concatenation are the quads of each part, in order |
| ColorTexture.UnitChannelByte | lib/utils/createColorTexture.ts:13-15 | a channel in [0, 1] stores floor(255 x), with 0 giving 0 and 1 giving 255 |
| ColorTexture.OutOfRangeChannelByte | lib/utils/createColorTexture.ts:13-15 | NaN and the infinities store 0, and values just outside [0, 1] wrap: -1/255 gives 255 and 256/255 gives 0 |
| ColorTexture.UnitChannelRoundTrip | lib/utils/createColorTexture.ts:13-15 | reading a stored unit channel back as byte / 255 loses less than 1/255 and never rounds up |
| ColorTexture.ByteChannelRoundTrip | lib/utils/createColorTexture.ts:13-15 | a channel that is a whole number of 255ths reads back exactly |
| ColorTexture.HexColorRoundTrip | lib/utils/createColorTexture.ts:13-15 | a colour given as a 24-bit hex value, its channels taken as byte / 255, is read back from its texel unchanged |
| ColorTexture.TexelNearColor | lib/utils/createColorTexture.ts:13-15 | the texel of a unit-cube colour lies in the unit cube, within one step below the colour in every channel |
| RetroShader.DefaultColorTexture | lib/shaders/RetroShader.ts:18 | the default lookup texture encodes the 16-colour VGA palette, and with channels taken as byte / 255 every texel reads back as its colour |
| RetroShader.Block | lib/shaders/RetroShader.ts:60 | the block `floor(vUv * resolution)` a coordinate falls in. `SameBlockSameSample` and `RetroUVInsideBlock` relate it to the sample point |
| RetroShader.RetroUV | lib/shaders/RetroShader.ts:56 | the block's centre over the resolution. `RetroUVInsideBlock` states that it lies strictly inside the block |
| RetroShader.RetroUVInsideBlock | lib/shaders/RetroShader.ts:56-60 | the sample point (block + 0.5) / resolution lies strictly inside its block, so it falls in the same block again |
| RetroShader.SameBlockSameSample | lib/shaders/RetroShader.ts:56 | coordinates in the same block share the sample point |
| RetroShader.BayerNumerators | lib/shaders/RetroShader.ts:42-47 | the sixteen numerators of `bayer4x4`, row by row. `BayerIsPermutation` states that they are 0..15 each once, with an explicit inverse |
| RetroShader.Bayer | lib/shaders/RetroShader.ts:42-47 | table entry i, its numerator over 16. `BayerRange` states that every entry lies in [0, 15/16], `BayerCorners` the two extreme entries |
| RetroShader.BayerIsPermutation | lib/shaders/RetroShader.ts:42-47 | the table holds each of 0/16 .. 15/16 exactly once, with an explicit inverse |
| RetroShader.BayerIndex | lib/shaders/RetroShader.ts:66-68 | the index iy*4 + ix is always in 0..15 |
| RetroShader.BayerIndexPeriodic | lib/shaders/RetroShader.ts:66-68 | the index repeats every 4 blocks in each direction |
| RetroShader.BayerIndexInjectiveOnTile | lib/shaders/RetroShader.ts:66-68 | the 16 positions of a 4 x 4 tile get 16 different thresholds |
| RetroShader.BayerRange | lib/shaders/RetroShader.ts:42-47 | every threshold lies in [0, 15/16] |
| RetroShader.BayerOffsetRange | lib/shaders/RetroShader.ts:69 | for d >= 0 the offset (bayer - 0.5) * d lies in [-d/2, 7d/16] |
| RetroShader.BayerCorners | lib/shaders/RetroShader.ts:42-47 | entries 0 and 12 of the table are 0 and 15/16 |
| RetroShader.BayerOffset | lib/shaders/RetroShader.ts:66-69 | `(bayer - 0.5) * ditheringOffset` at the block's table index. `BayerOffsetRange` states its range, `BayerOffsetExtremes` that both ends are reached |
| RetroShader.BayerOffsetExtremes | lib/shaders/RetroShader.ts:66-69 | both ends of the offset range are reached, at blocks (0 mod 4, 0 mod 4) and (0 mod 4, 3 mod 4) |
| RetroShader.Clamp01 | lib/shaders/RetroShader.ts:72 | GLSL `clamp(x, 0.0, 1.0)`. `DitherEffect` states that every dithered channel ends in [0, 1] and that a unit channel moves by at most the offset |
| RetroShader.Dither | lib/shaders/RetroShader.ts:62-73 | the dithering block as a function. `DitherEffect` states its effect, `DitherStep` that the program computes it |
| RetroShader.DitherEffect | lib/shaders/RetroShader.ts:62-73 | with dithering off the colour is untouched; with it on every channel ends in [0, 1], black stays black, and a unit colour moves by at most the offset |
| RetroShader.SqDist | lib/shaders/RetroShader.ts:80 | the squared `distance`. `SqDistPositive` states that it is never negative and zero exactly between equal colours, `SqDistInUnitCube` that unit colours are at most 3 apart |
| RetroShader.SqDistPositive | lib/shaders/RetroShader.ts:80 | the squared distance is never negative, is 0 from a colour to itself, and is positive between different colours |
| RetroShader.SqDistInUnitCube | lib/shaders/RetroShader.ts:77-81 | two unit-cube colours are at squared distance at most 3, far below the 1e6^2 cutoff |
| RetroShader.Nearest | lib/shaders/RetroShader.ts:76-85 | the index the search loop settles on, -1 when no entry beats the cutoff; its contract keeps it in -1 .. count - 1. `NearestIsFirstMinimum` states that it is the first nearest entry |
| RetroShader.Closest | lib/shaders/RetroShader.ts:76-85 | the colour at that index, black when there is none. `ClosestIdempotent` and `NearestOfPaletteColor` state its fixed points |
| RetroShader.NearestIsFirstMinimum | lib/shaders/RetroShader.ts:76-85 | the chosen entry is nearer than the cutoff and no farther than any entry, and every entry before it is strictly farther, so ties go to the lowest index |
| RetroShader.NearestOfPaletteColor | lib/shaders/RetroShader.ts:78-85 | a colour that is in the palette is found, at or before its first position, and returned unchanged |
| RetroShader.NearestFound | lib/shaders/RetroShader.ts:77-85 | for a unit colour and a non-empty unit palette the loop always picks an entry |
| RetroShader.ClosestIdempotent | lib/shaders/RetroShader.ts:76-85 | searching again for a found colour returns that colour |
| RetroShader.TexelIndex | lib/shaders/RetroShader.ts:79 | nearest filtering with edge clamping always hits a texel of the texture |
| RetroShader.TexelIndexOfEntry | lib/shaders/RetroShader.ts:79 | sampling at (i + 0.5) / count on a count-wide texture hits texel i |
| RetroShader.TexelVec | lib/shaders/RetroShader.ts:79 | `.rgb` of one texel: its first three bytes over 255. `LutPaletteInUnitRange` states that it lies in the unit cube, `LutPaletteOfEncoding` that on an encoded palette it is the colour's stored bytes |
| RetroShader.LutPalette | lib/shaders/RetroShader.ts:78-79 | the colours the loop reads, entry i from texel `(i + 0.5) / colorCount` of the lookup texture. `LutPaletteOfEncoding` and `LutPaletteInUnitRange` state what they are |
| RetroShader.LutPaletteOfEncoding | lib/shaders/RetroShader.ts:78-79 | on the encoding of a palette with its length as count, the loop reads every entry once, in order, as its bytes over 255 |
| RetroShader.LutPaletteInUnitRange | lib/shaders/RetroShader.ts:79 | every colour read from a byte texture lies in the unit cube |
| RetroShader.Fragment | lib/shaders/RetroShader.ts:54-89 | `main` returns, before `linearToSrgb`, the palette colour nearest to the dithered block sample |
| RetroShader.FragmentColor | lib/shaders/RetroShader.ts:54-85 | `main` before `linearToSrgb`: sample the block, dither, search the palette. `Fragment` computes it, and `FragmentPicksPaletteColor` and `FragmentKeepsPaletteColors` state what it returns |
| RetroShader.DitherStep | lib/shaders/RetroShader.ts:62-73 | the dithering block offsets a non-black colour by its Bayer threshold and clamps |
| RetroShader.SearchPalette | lib/shaders/RetroShader.ts:75-85 | the search loop returns the first strictly nearest palette colour read from the texture, or black when none is nearer than the cutoff |
| RetroShader.FragmentPicksPaletteColor | lib/shaders/RetroShader.ts:54-85 | with at least one colour, and with dithering on or a sample inside the unit cube, the output is the palette entry at the first minimal distance from the dithered sample. Without dithering, a sample 1e6 or more from every entry gives black instead |
| RetroShader.FragmentKeepsPaletteColors | lib/shaders/RetroShader.ts:54-85 | with dithering off, a block whose sample is a palette colour is output unchanged |
| RetroPass.Vector2.Set | lib/postprocessing/RetroPass.ts:185 | `set` stores both coordinates |
| RetroPass.Vector2.Copy | lib/postprocessing/RetroPass.ts:59 | `copy` takes the other vector's coordinates without keeping the vector |
| RetroPass.AutoDitheringOffset | lib/postprocessing/RetroPass.ts:201-205 | the automatic offset 0.1 + 0.9 / (n - 1) lies in (0.1, 1] and equals 1 exactly at 2 colours |
| RetroPass.AutoDitheringOffsetDecreasing | lib/postprocessing/RetroPass.ts:203 | more colours give a strictly smaller automatic offset |
| RetroPass.RetroPass.Init | lib/postprocessing/RetroPass.ts:13-34 | the field initialisers and `super(RetroShader)`, which installs the shader's default uniforms of lib/shaders/RetroShader.ts:14-21: resolution (320, 200), 16 colours over the VGA lookup texture, dithering on with offset 0.2. The initialisers give size (0, 0), pixel ratio 0, both automatic modes off, and no stored palette |
| RetroPass.RetroPass.Create | lib/postprocessing/RetroPass.ts:24-49 | construction fails exactly when the supplied palette or, without one, a count other than 16 is invalid. A supplied palette wins over the count. The default count 16 leaves the palette unset. The other options are applied in source order, so an automatic offset follows the final count, and automatic resolution gives size (0, 0) times the ratio |
| RetroPass.RetroPass.ApplyOptions | lib/postprocessing/RetroPass.ts:36-42 | the option setters in source order: dithering, the offset (recomputed from the count when automatic), the pixel ratio, the resolution and its automatic mode, each option or its default; the palette, count and texture are untouched |
| RetroPass.RetroPass.SetResolution | lib/postprocessing/RetroPass.ts:57-61 | the uniform vector takes the given coordinates by copying, is left alone when they are equal, and the caller's vector is not retained |
| RetroPass.RetroPass.SetAutoResolution | lib/postprocessing/RetroPass.ts:69-74 | only a change recomputes; enabling sets resolution = size x pixelRatio, anything else leaves the resolution and every other field alone |
| RetroPass.RetroPass.SetPixelRatio | lib/postprocessing/RetroPass.ts:82-87 | the ratio is stored; only a change in automatic mode recomputes resolution = size x ratio |
| RetroPass.RetroPass.SetColorCount | lib/postprocessing/RetroPass.ts:95-102 | the current count is a no-op and an invalid one throws, both with nothing changed. Any other count installs the generated palette, so the count becomes its length (9 gives 16) |
| RetroPass.RetroPass.SetColorPalette | lib/postprocessing/RetroPass.ts:110-127 | a missing palette or one of invalid length throws with nothing changed. Otherwise the count becomes its length, the old texture is disposed, a fresh encoding is installed, the automatic offset follows, and a copy is stored |
| RetroPass.RetroPass.SetDithering | lib/postprocessing/RetroPass.ts:135-137 | only the dithering flag changes |
| RetroPass.RetroPass.SetDitheringOffset | lib/postprocessing/RetroPass.ts:145-147 | only the offset changes |
| RetroPass.RetroPass.SetAutoDitheringOffset | lib/postprocessing/RetroPass.ts:155-162 | turning it on recomputes the offset from the count at once; turning it off, or setting the current value, keeps the offset |
| RetroPass.RetroPass.SetSize | lib/postprocessing/RetroPass.ts:184-187 | the size is stored, and in automatic mode the resolution becomes size x pixelRatio, otherwise it is kept |
| RetroPass.RetroPass.UpdateResolution | lib/postprocessing/RetroPass.ts:192-196 | resolution = size x pixelRatio in automatic mode, unchanged otherwise |
| RetroPass.RetroPass.UpdateDitheringOffset | lib/postprocessing/RetroPass.ts:201-205 | offset = 0.1 + 0.9 / (count - 1) in automatic mode, unchanged otherwise, and nothing else changes |
| RetroPass.ShaderScansPalette | lib/postprocessing/RetroPass.ts:116-120 | in a valid pass the fragment program's loop reads exactly the pass's colours, each from its own texel |

## Left out

- Floating point: all arithmetic is over exact reals and integers. No IEEE rounding is modelled, and no NaN from anywhere other than palette division.
- Levels: the cube side is the exact integer floor cube root. The source computes it with floating point, `Math.pow(size + 1, 1 / 3)`, which can round below an exact cube. With 1/3 rounded to a double, a correctly rounded `pow(k^3, 1/3)` is just under k for every k from 4 to 16, and exactly 3 for 27. If JavaScript engines round the same way, then each size k^3 - 1 for k = 4 .. 16 gets k - 1 levels. 63 then yields a 27-colour cube padded to 63 rather than the 64 colours `ColorPaletteExamples` states. Above 16 the palette then has n + 1 colours only for n = 26, against every n + 1 cube that `CubeTierLength` states. 16 levels need a size of at least 4096, and 4095 gets 15.
- ColorPalette.ColorPaletteExamples: 63 giving the 64-colour cube holds with the exact cube root; with floating-point `pow` it may give 63 colours, as the Levels line says.
- ColorPalette.GeneratedLengthBounds: the counts above 16 one short of a cube, where the length differs, follow the exact cube root; with floating-point `pow` it may be only 26, as the Levels line says.
- ColorPalette.ColorPaletteLength: `GeneratedLength` follows the exact cube root above 16; with floating-point `pow` the length may differ at k^3 - 1 for k = 4 .. 16, as the Levels line says.
- ColorPalette.CubeTierLength: n + 1 colours for every n above 16 one short of a cube holds with the exact cube root; with floating-point `pow` it may hold only for 26, as the Levels line says.
- Color.FromHex: `THREE.Color(hex)` is taken as byte / 255 per channel. With three.js colour management enabled, the default since release 152, `setHex` reads the hex value as sRGB and stores its linear conversion. For example the VGA blue 0x0000AA stores about 0.402 rather than 170 / 255, which the texture keeps as byte 102, read back as 0.4. That conversion is not modelled.
- ColorTexture.HexColorRoundTrip: the exact round trip holds only with channels taken as byte / 255. Once the sRGB-to-linear conversion applies, a stored channel is in general not a whole number of 255ths, and only the one-step bound of `TexelNearColor` holds.
- RetroShader.DefaultColorTexture: every texel reads back as its VGA colour only with channels taken as byte / 255. With the sRGB-to-linear conversion of `THREE.Color`, the texels only lie within one step below the converted colours, as `TexelNearColor` states.
- `linearToSrgb` (`pow(x, 1/2.2)`) at the end of the fragment program is floating point and is not modelled. `Fragment` returns the colour before it.
- The square root in GLSL `distance` is not modelled. The search compares squared distances against the squared cutoff 1e12, which picks the same entry.
- `quantizationEnabled` is not modelled. Its accessor reads a uniform the shader never declares.
- The `console.warn` on a length mismatch is a side effect and is not modelled. `GeneratedLengthBounds` states exactly when it fires.
- Non-integer counts are not modelled. Counts are integers, although JavaScript would accept 2.5.
- NaN pixel ratios and sizes are not modelled: `!==` is taken as real inequality.
- `THREE.Color` objects have identity in the source. Here they are values, so the aliasing is lost in three places: `slice()` is shallow, the `colorPalette` getter returns the stored array itself, and the `resolution` getter returns the live uniform vector.
- Getters are fields read directly, not methods.
- `ShaderPass`, `DataTexture` and the GPU are not modelled: upload, filtering modes and the WebGL side of `dispose`.
- `ShaderPass` clones the default texture, and the clone shares the module-level image buffer. `Init` instead builds its own buffer with the same contents.
- The input frame `tDiffuse` is a function from sample point to colour, not a sampled texture.
- RetroShader.Fragment: requires a positive resolution and a non-empty lookup texture. A zero resolution divides by zero in GLSL, with undefined results; this arises with automatic resolution before `setSize`.
- RetroPass.RetroPass.Create: a constructor that throws leaves no object. Failure returns only the message, and the partly initialised pass is dropped.
- `retroPlatforms.js`, the demo applications, the build configuration and the parameter and uniform interfaces are not part of this model. They are data, user interface or types only.
