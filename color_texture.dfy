/**
 * The lookup-table encoder of `lib/utils/createColorTexture.ts`: a colour
 * list becomes an N x 1 RGBA texture of unsigned bytes, one quad per colour.
 */
module ColorTexture {
  import opened Color

  /** An element of a `Uint8Array`. */
  type Byte = x: int | 0 <= x < 256

  /**
   * Storing `Math.floor(v * 255)` into a `Uint8Array`: NaN and the infinities
   * become 0, any other value is reduced modulo 256.
   */
  function ChannelByte(v: Num): Byte {
    match v
    case Finite(x) => (x * 255.0).Floor % 256
    case _ => 0
  }

  /** Slot `channel` (0 red, 1 green, 2 blue, 3 alpha) of the quad of a colour. */
  function Slot(c: Color, channel: int): Byte {
    if channel == 0 then ChannelByte(c.r)
    else if channel == 1 then ChannelByte(c.g)
    else if channel == 2 then ChannelByte(c.b)
    else 255
  }

  /** The RGBA buffer the encoder fills: byte 4i + c is slot c of colour i. */
  function Encode(colors: seq<Color>): seq<Byte> {
    seq(4 * |colors|, j requires 0 <= j < 4 * |colors| => Slot(colors[j / 4], j % 4))
  }

  /**
   * A `THREE.DataTexture` as the pass uses it: an RGBA unsigned-byte image
   * over a buffer, a flag asking for upload, and whether `dispose` was called.
   */
  class Texture {
    const data: array<Byte>
    const width: nat
    const height: nat
    var needsUpdate: bool
    var disposed: bool

    constructor (data: array<Byte>, width: nat, height: nat)
      ensures this.data == data && this.width == width && this.height == height
      ensures !needsUpdate && !disposed
    {
      this.data := data;
      this.width := width;
      this.height := height;
      needsUpdate := false;
      disposed := false;
    }

    /** Releases the GPU copy; the buffer and the dimensions stay as they are. */
    method Dispose()
      modifies this
      ensures disposed && needsUpdate == old(needsUpdate)
    {
      disposed := true;
    }
  }

  /**
   * `createColorTexture`: a zero-filled buffer of 4 bytes per colour, filled
   * quad by quad, wrapped in a `colors.length` x 1 texture marked for upload.
   * The colour list is a value and is only read.
   */
  method CreateColorTexture(colors: seq<Color>) returns (texture: Texture)
    ensures fresh(texture) && fresh(texture.data)
    ensures texture.width == |colors| && texture.height == 1
    ensures texture.data[..] == Encode(colors)
    ensures texture.needsUpdate && !texture.disposed
  {
    var width := |colors|;
    var data := new Byte[width * 4](_ => 0);

    for i := 0 to |colors|
      invariant forall j :: 0 <= j < 4 * i ==> data[j] == Encode(colors)[j]
      invariant forall j :: 4 * i <= j < data.Length ==> data[j] == 0
    {
      var color := colors[i];
      data[i * 4] := ChannelByte(color.r);
      data[i * 4 + 1] := ChannelByte(color.g);
      data[i * 4 + 2] := ChannelByte(color.b);
      data[i * 4 + 3] := 255;
      EncodeAt(colors, i);
    }

    texture := new Texture(data, width, 1);
    texture.needsUpdate := true;
  }

  // ---------------------------------------------------------------------------
  // Properties of the encoding
  // ---------------------------------------------------------------------------

  /** Quad i holds the red, green and blue bytes of colour i and an opaque alpha. */
  lemma EncodeAt(colors: seq<Color>, i: int)
    requires 0 <= i < |colors|
    ensures |Encode(colors)| == 4 * |colors|
    ensures Encode(colors)[4 * i] == ChannelByte(colors[i].r)
    ensures Encode(colors)[4 * i + 1] == ChannelByte(colors[i].g)
    ensures Encode(colors)[4 * i + 2] == ChannelByte(colors[i].b)
    ensures Encode(colors)[4 * i + 3] == 255
  {
    var e := Encode(colors);
    assert (4 * i) / 4 == i && (4 * i) % 4 == 0;
    assert (4 * i + 1) / 4 == i && (4 * i + 1) % 4 == 1;
    assert (4 * i + 2) / 4 == i && (4 * i + 2) % 4 == 2;
    assert (4 * i + 3) / 4 == i && (4 * i + 3) % 4 == 3;
  }

  /** Encoding is local: the quads of a concatenation are the quads of each part, in order. */
  lemma EncodeConcat(a: seq<Color>, b: seq<Color>)
    ensures Encode(a + b) == Encode(a) + Encode(b)
  {
    var left := Encode(a + b);
    var right := Encode(a) + Encode(b);
    assert |left| == |right|;
    forall j | 0 <= j < |left|
      ensures left[j] == right[j]
    {
      if j < 4 * |a| {
        assert j / 4 < |a|;
        assert (a + b)[j / 4] == a[j / 4];
      } else {
        var k := j - 4 * |a|;
        assert j / 4 == k / 4 + |a| && j % 4 == k % 4;
        assert (a + b)[j / 4] == b[k / 4];
      }
    }
  }

  /** A channel in [0, 1] becomes floor(255 x), between 0 and 255; 0 gives 0 and 1 gives 255. */
  lemma UnitChannelByte(x: real)
    requires 0.0 <= x <= 1.0
    ensures ChannelByte(Finite(x)) == (x * 255.0).Floor
    ensures x == 0.0 ==> ChannelByte(Finite(x)) == 0
    ensures x == 1.0 ==> ChannelByte(Finite(x)) == 255
  {
    var f := (x * 255.0).Floor;
    assert 0 <= f <= 255;
  }

  /** NaN and the infinities store as 0, and rounding down wraps values outside [0, 1]. */
  lemma OutOfRangeChannelByte()
    ensures ChannelByte(NaN) == 0 && ChannelByte(PosInf) == 0 && ChannelByte(NegInf) == 0
    ensures ChannelByte(Finite(-1.0 / 255.0)) == 255
    ensures ChannelByte(Finite(256.0 / 255.0)) == 0
  {
    assert (-1.0 / 255.0 * 255.0).Floor == -1;
    assert (256.0 / 255.0 * 255.0).Floor == 256;
  }

  /** The channel a byte stands for when the shader reads it back, byte / 255. */
  function ByteValue(b: Byte): real {
    b as real / 255.0
  }

  /** Reading a unit channel back loses less than one step of 1/255, and never rounds up. */
  lemma UnitChannelRoundTrip(x: real)
    requires 0.0 <= x <= 1.0
    ensures ByteValue(ChannelByte(Finite(x))) <= x < ByteValue(ChannelByte(Finite(x))) + 1.0 / 255.0
  {
    UnitChannelByte(x);
    var f := (x * 255.0).Floor;
    assert f as real <= x * 255.0 < f as real + 1.0;
  }

  /** A channel that is a whole number of 255ths, as a hex colour without colour management is, reads back exactly. */
  lemma ByteChannelRoundTrip(b: Byte)
    ensures ChannelByte(Finite(b as real / 255.0)) == b
    ensures ByteValue(ChannelByte(Finite(b as real / 255.0))) == b as real / 255.0
  {
    assert b as real / 255.0 * 255.0 == b as real;
  }

  /** The colour the shader reads from texel i of an encoded buffer. */
  function TexelColor(data: seq<Byte>, i: nat): Color
    requires 4 * i + 3 < |data|
  {
    Rgb(ByteValue(data[4 * i]), ByteValue(data[4 * i + 1]), ByteValue(data[4 * i + 2]))
  }

  /** Colours given as 24-bit hex values, like the fixed palettes, survive the encoding unchanged when taken as byte / 255. */
  lemma HexColorRoundTrip(colors: seq<Color>, i: nat, hex: int)
    requires i < |colors| && 0 <= hex < 0x100_0000 && colors[i] == FromHex(hex)
    ensures 4 * i + 3 < |Encode(colors)|
    ensures TexelColor(Encode(colors), i) == colors[i]
  {
    EncodeAt(colors, i);
    ByteChannelRoundTrip((hex / 0x1_0000) % 0x100);
    ByteChannelRoundTrip((hex / 0x100) % 0x100);
    ByteChannelRoundTrip(hex % 0x100);
  }

  /** Every texel of an encoded unit-cube colour lies within one step below the colour, channel by channel. */
  lemma TexelNearColor(colors: seq<Color>, i: nat)
    requires i < |colors| && InUnitCube(colors[i])
    ensures 4 * i + 3 < |Encode(colors)|
    ensures InUnitCube(TexelColor(Encode(colors), i))
    ensures
      var t := TexelColor(Encode(colors), i);
      && colors[i].r.value - 1.0 / 255.0 < t.r.value <= colors[i].r.value
      && colors[i].g.value - 1.0 / 255.0 < t.g.value <= colors[i].g.value
      && colors[i].b.value - 1.0 / 255.0 < t.b.value <= colors[i].b.value
  {
    EncodeAt(colors, i);
    UnitChannelRoundTrip(colors[i].r.value);
    UnitChannelRoundTrip(colors[i].g.value);
    UnitChannelRoundTrip(colors[i].b.value);
  }
}
