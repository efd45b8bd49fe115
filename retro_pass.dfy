/**
 * `lib/postprocessing/RetroPass.ts`: the post-processing pass that owns the
 * shader uniforms. Its setters validate palettes and counts, regenerate and
 * replace the lookup texture, and keep the derived dithering offset and
 * resolution up to date.
 */
module RetroPass {
  import opened Wrappers
  import opened Color
  import opened ColorTexture
  import opened ColorPalette
  import opened ValidColorCount
  import RetroShader

  /** A `THREE.Vector2`, changed in place by `set` and `copy`. */
  class Vector2 {
    var x: real
    var y: real

    constructor (x: real, y: real)
      ensures this.x == x && this.y == y
    {
      this.x := x;
      this.y := y;
    }

    /** The coordinates as a value. */
    function Value(): RetroShader.Vec2
      reads this
    {
      RetroShader.Vec2(x, y)
    }

    method Set(x: real, y: real)
      modifies this
      ensures Value() == RetroShader.Vec2(x, y)
    {
      this.x := x;
      this.y := y;
    }

    /** Copies the coordinates of v; v itself is not retained. */
    method Copy(v: Vector2)
      modifies this
      ensures Value() == old(v.Value())
    {
      x := v.x;
      y := v.y;
    }
  }

  /** The message both the `colorPalette` and the `colorCount` setters throw. */
  const InvalidPaletteMessage: string := "Invalid colorPalette, must contain between 2 and 4096 colours"

  /**
   * `0.1 + 0.9 / (colorCount - 1)`: the offset the automatic mode derives from
   * the count. It lies in (0.1, 1], and reaches 1 only at two colours.
   */
  function AutoDitheringOffset(colorCount: int): (offset: real)
    requires colorCount >= 2
    ensures 0.1 < offset <= 1.0
    ensures offset == 1.0 <==> colorCount == 2
  {
    var k := (colorCount - 1) as real;
    QuotientBounds(0.9, k);
    0.1 + 0.9 / k
  }

  /** For a positive numerator, dividing by k >= 1 gives a positive value no larger than the numerator, equal only at k = 1. */
  lemma QuotientBounds(a: real, k: real)
    requires a > 0.0 && k >= 1.0
    ensures 0.0 < a / k <= a
    ensures a / k == a <==> k == 1.0
  {
    var q := a / k;
    assert q * k == a;
    if q <= 0.0 {
      calc { q * k; <= 0.0 * k; == 0.0; }
    }
    if k > 1.0 && q == a {
      calc { q * k; == a * k; > a * 1.0; }
    }
  }

  /** More colours give a smaller automatic offset. */
  lemma AutoDitheringOffsetDecreasing(m: int, n: int)
    requires 2 <= m < n
    ensures AutoDitheringOffset(n) < AutoDitheringOffset(m)
  {
    var a := (m - 1) as real;
    var b := (n - 1) as real;
    var p := 0.9 / a;
    var q := 0.9 / b;
    assert p * a == 0.9 && q * b == 0.9;
    if q >= p {
      calc { q * b; >= p * b; > p * a; }
    }
  }

  /** Constructor options; an absent option takes the default the constructor declares. */
  datatype RetroPassParameters = RetroPassParameters(
    colorCount: Option<int>,
    colorPalette: Option<seq<Color>>,
    dithering: Option<bool>,
    ditheringOffset: Option<real>,
    autoDitheringOffset: Option<bool>,
    pixelRatio: Option<real>,
    resolution: Option<RetroShader.Vec2>,
    autoResolution: Option<bool>)

  const DefaultPixelRatio: real := 0.25

  /** The scalar state of a pass, for stating what a setter leaves alone. */
  datatype Fields = Fields(
    colorCount: int,
    colorTexture: Texture,
    dithering: bool,
    ditheringOffset: real,
    colorPalette: Option<seq<Color>>,
    autoDitheringOffset: bool,
    autoResolution: bool,
    pixelRatio: real)

  class RetroPass {
    /** `size`, set by `setSize`. */
    const size: Vector2
    /** The `resolution` uniform's vector; setters change it in place. */
    const resolution: Vector2
    /** The `colorCount` uniform. */
    var colorCount: int
    /** The `colorTexture` uniform. */
    var colorTexture: Texture
    var dithering: bool
    var ditheringOffset: real
    /** `#colorPalette`: unset until a palette is assigned. */
    var colorPalette: Option<seq<Color>>
    var autoDitheringOffset: bool
    var autoResolution: bool
    var pixelRatio: real
    /** The colours the lookup texture encodes. */
    ghost var colors: seq<Color>

    function State(): Fields
      reads this
    {
      Fields(colorCount, colorTexture, dithering, ditheringOffset, colorPalette,
        autoDitheringOffset, autoResolution, pixelRatio)
    }

    /**
     * The count is valid and is the number of colours the texture encodes,
     * one texel each; the texture is live; a stored palette is those colours.
     */
    ghost predicate Valid()
      reads this, colorTexture, colorTexture.data
    {
      && size != resolution
      && IsValidColorCount(colorCount)
      && |colors| == colorCount
      && colorTexture.width == colorCount && colorTexture.height == 1
      && colorTexture.data[..] == Encode(colors)
      && !colorTexture.disposed
      && (colorPalette.Some? ==> colorPalette.value == colors)
    }

    /**
     * `super(RetroShader)` with the field initialisers: the uniforms are the
     * shader's defaults, with the 16-colour lookup texture, and nothing else
     * is set yet.
     */
    constructor Init()
      ensures Valid()
      ensures fresh(size) && fresh(resolution) && fresh(colorTexture) && fresh(colorTexture.data)
      ensures size.Value() == RetroShader.Vec2(0.0, 0.0)
      ensures resolution.Value() == RetroShader.DefaultResolution
      ensures colorCount == RetroShader.DefaultColorCount && colors == Vga16() && colorPalette == None
      ensures dithering == RetroShader.DefaultDithering && ditheringOffset == RetroShader.DefaultDitheringOffset
      ensures !autoDitheringOffset && !autoResolution && pixelRatio == 0.0
    {
      RetroShader.DefaultColorTexture();
      var texture := CreateColorTexture(CreateColorPalette(RetroShader.DefaultColorCount).value);
      size := new Vector2(0.0, 0.0);
      resolution := new Vector2(RetroShader.DefaultResolution.x, RetroShader.DefaultResolution.y);
      colorCount := RetroShader.DefaultColorCount;
      colorTexture := texture;
      dithering := RetroShader.DefaultDithering;
      ditheringOffset := RetroShader.DefaultDitheringOffset;
      colorPalette := None;
      autoDitheringOffset := false;
      autoResolution := false;
      pixelRatio := 0.0;
      colors := Vga16();
    }

    /**
     * The constructor: the remaining setters run in the order the source
     * calls them, and a supplied palette is used instead of the count. A
     * setter that throws makes construction fail.
     */
    static method Create(parameters: RetroPassParameters) returns (result: Result<RetroPass, string>)
      ensures var palette := parameters.colorPalette;
        var count := parameters.colorCount.GetOr(16);
        result.Failure? <==>
          if palette.Some? then !IsValidColorCount(|palette.value|)
          else count != 16 && !IsValidColorCount(count)
      ensures result.Failure? ==> result.error == InvalidPaletteMessage
      ensures result.Success? ==>
        var pass := result.value;
        var palette := parameters.colorPalette;
        var count := parameters.colorCount.GetOr(16);
        && fresh(pass) && pass.Valid()
        && (palette.Some? ==> pass.colorPalette == palette && pass.colorCount == |palette.value|)
        && (palette.None? && count == 16 ==> pass.colorPalette == None && pass.colorCount == 16 && pass.colors == Vga16())
        && (palette.None? && count != 16 ==>
              CreateColorPalette(count).Success?
              && pass.colorPalette == Some(CreateColorPalette(count).value)
              && pass.colorCount == GeneratedLength(count))
        && pass.dithering == parameters.dithering.GetOr(true)
        && pass.autoDitheringOffset == parameters.autoDitheringOffset.GetOr(false)
        && pass.ditheringOffset ==
             (if pass.autoDitheringOffset then AutoDitheringOffset(pass.colorCount)
              else parameters.ditheringOffset.GetOr(0.2))
        && pass.pixelRatio == parameters.pixelRatio.GetOr(DefaultPixelRatio)
        && pass.autoResolution == parameters.autoResolution.GetOr(false)
        && pass.size.Value() == RetroShader.Vec2(0.0, 0.0)
        && pass.resolution.Value() ==
             (if pass.autoResolution then RetroShader.Vec2(0.0, 0.0)
              else parameters.resolution.GetOr(RetroShader.Vec2(320.0, 200.0)))
    {
      var pass := new RetroPass.Init();
      pass.ApplyOptions(parameters);
      var outcome;
      if parameters.colorPalette.Some? {
        outcome := pass.SetColorPalette(parameters.colorPalette);
      } else {
        outcome := pass.SetColorCount(parameters.colorCount.GetOr(16));
      }
      if outcome.Fail? {
        return Failure(outcome.error);
      }
      result := Success(pass);
    }

    /**
     * The first part of the constructor, on a freshly initialised pass: the
     * dithering options, the pixel ratio, the resolution and its automatic
     * mode, in source order; the palette is left as it is.
     */
    method ApplyOptions(parameters: RetroPassParameters)
      requires Valid() && !autoDitheringOffset && !autoResolution
      requires size.Value() == RetroShader.Vec2(0.0, 0.0)
      modifies this, resolution
      ensures Valid()
      ensures colorCount == old(colorCount) && colorTexture == old(colorTexture)
      ensures colorPalette == old(colorPalette) && colors == old(colors)
      ensures dithering == parameters.dithering.GetOr(true)
      ensures autoDitheringOffset == parameters.autoDitheringOffset.GetOr(false)
      ensures ditheringOffset ==
        (if autoDitheringOffset then AutoDitheringOffset(colorCount) else parameters.ditheringOffset.GetOr(0.2))
      ensures pixelRatio == parameters.pixelRatio.GetOr(DefaultPixelRatio)
      ensures autoResolution == parameters.autoResolution.GetOr(false)
      ensures size.Value() == RetroShader.Vec2(0.0, 0.0)
      ensures resolution.Value() ==
        (if autoResolution then RetroShader.Vec2(0.0, 0.0)
         else parameters.resolution.GetOr(RetroShader.Vec2(320.0, 200.0)))
    {
      SetDithering(parameters.dithering.GetOr(true));
      SetDitheringOffset(parameters.ditheringOffset.GetOr(0.2));
      SetAutoDitheringOffset(parameters.autoDitheringOffset.GetOr(false));
      SetPixelRatio(parameters.pixelRatio.GetOr(DefaultPixelRatio));

      var r := parameters.resolution.GetOr(RetroShader.Vec2(320.0, 200.0));
      var value := new Vector2(r.x, r.y);
      SetResolution(value);
      SetAutoResolution(parameters.autoResolution.GetOr(false));
    }

    /** Stores the pixel resolution by copying; the caller's vector is not kept. */
    method SetResolution(value: Vector2)
      requires Valid()
      modifies resolution
      ensures Valid()
      ensures resolution.Value() == old(value.Value())
      ensures old(resolution.Value()) == old(value.Value()) ==> unchanged(resolution)
    {
      if !(value.x == resolution.x && value.y == resolution.y) {
        resolution.Copy(value);
      }
    }

    /** Turning the automatic resolution on or off; only an actual change recomputes it. */
    method SetAutoResolution(value: bool)
      requires Valid()
      modifies this, resolution
      ensures Valid()
      ensures State() == old(State()).(autoResolution := value)
      ensures colors == old(colors)
      ensures if old(autoResolution) != value && value
        then resolution.Value() == RetroShader.Vec2(size.x * pixelRatio, size.y * pixelRatio)
        else unchanged(resolution)
    {
      if autoResolution != value {
        autoResolution := value;
        UpdateResolution();
      }
    }

    /** A new pixel ratio; only an actual change recomputes the resolution, and only in automatic mode. */
    method SetPixelRatio(value: real)
      requires Valid()
      modifies this, resolution
      ensures Valid()
      ensures State() == old(State()).(pixelRatio := value)
      ensures colors == old(colors)
      ensures if old(pixelRatio) != value && autoResolution
        then resolution.Value() == RetroShader.Vec2(size.x * value, size.y * value)
        else unchanged(resolution)
    {
      if pixelRatio != value {
        pixelRatio := value;
        UpdateResolution();
      }
    }

    /**
     * Assigning the count: the current count is a no-op, an invalid count
     * throws, and any other count installs the generated palette, whose
     * length may differ from the request.
     */
    method SetColorCount(value: int) returns (outcome: Outcome<string>)
      requires Valid()
      modifies this, colorTexture
      ensures Valid()
      ensures value == old(colorCount) ==> outcome.Pass? && unchanged(this) && unchanged(old(colorTexture))
      ensures value != old(colorCount) && !IsValidColorCount(value) ==>
        outcome == Fail(InvalidPaletteMessage) && unchanged(this) && unchanged(old(colorTexture))
      ensures value != old(colorCount) && IsValidColorCount(value) ==>
        && outcome.Pass?
        && CreateColorPalette(value).Success?
        && colorPalette == Some(CreateColorPalette(value).value)
        && colorCount == GeneratedLength(value)
        && fresh(colorTexture) && fresh(colorTexture.data) && colorTexture.needsUpdate
        && old(colorTexture).disposed
        && State() == old(State()).(
             colorCount := colorCount, colorTexture := colorTexture, colorPalette := colorPalette,
             ditheringOffset := if autoDitheringOffset then AutoDitheringOffset(colorCount) else old(ditheringOffset))
    {
      if value != colorCount {
        if !IsValidColorCount(value) {
          return Fail(InvalidPaletteMessage);
        }
        ColorPaletteLength(value);
        GeneratedLengthBounds(value);
        outcome := SetColorPalette(Some(CreateColorPalette(value).value));
      } else {
        outcome := Pass;
      }
    }

    /**
     * Assigning a palette: a missing palette or one of invalid length throws
     * before any change; otherwise the count becomes its length, the old
     * texture is disposed and replaced by the palette's encoding, the
     * automatic offset follows the new count, and a copy of the list is kept.
     */
    method SetColorPalette(palette: Option<seq<Color>>) returns (outcome: Outcome<string>)
      requires Valid()
      modifies this, colorTexture
      ensures Valid()
      ensures outcome.Fail? <==> palette.None? || !IsValidColorCount(|palette.value|)
      ensures outcome.Fail? ==>
        outcome.error == InvalidPaletteMessage && unchanged(this) && unchanged(old(colorTexture))
      ensures outcome.Pass? ==>
        && colorCount == |palette.value| && colors == palette.value && colorPalette == palette
        && fresh(colorTexture) && fresh(colorTexture.data) && colorTexture.needsUpdate
        && old(colorTexture).disposed
        && State() == old(State()).(
             colorCount := colorCount, colorTexture := colorTexture, colorPalette := colorPalette,
             ditheringOffset := if autoDitheringOffset then AutoDitheringOffset(colorCount) else old(ditheringOffset))
    {
      if palette.None? || !IsValidColorCount(|palette.value|) {
        return Fail(InvalidPaletteMessage);
      }
      var list := palette.value;
      var texture := CreateColorTexture(list);

      colorCount := |list|;
      colorTexture.Dispose();
      colorTexture := texture;
      colors := list;

      if autoDitheringOffset {
        UpdateDitheringOffset();
      }

      colorPalette := Some(list);
      outcome := Pass;
    }

    method SetDithering(value: bool)
      requires Valid()
      modifies this
      ensures Valid()
      ensures State() == old(State()).(dithering := value) && colors == old(colors)
    {
      dithering := value;
    }

    /** An explicit offset; it holds until the next recomputation in automatic mode. */
    method SetDitheringOffset(value: real)
      requires Valid()
      modifies this
      ensures Valid()
      ensures State() == old(State()).(ditheringOffset := value) && colors == old(colors)
    {
      ditheringOffset := value;
    }

    /** Turning the automatic offset on recomputes it at once; turning it off keeps the current offset. */
    method SetAutoDitheringOffset(value: bool)
      requires Valid()
      modifies this
      ensures Valid()
      ensures State() == old(State()).(
        autoDitheringOffset := value,
        ditheringOffset := if value && !old(autoDitheringOffset) then AutoDitheringOffset(colorCount)
                           else old(ditheringOffset))
      ensures colors == old(colors)
    {
      if autoDitheringOffset != value {
        autoDitheringOffset := value;
        if value {
          UpdateDitheringOffset();
        }
      }
    }

    /** `setSize`: records the size, then recomputes the resolution in automatic mode. */
    method SetSize(width: real, height: real)
      requires Valid()
      modifies size, resolution
      ensures Valid()
      ensures size.Value() == RetroShader.Vec2(width, height)
      ensures if autoResolution
        then resolution.Value() == RetroShader.Vec2(width * pixelRatio, height * pixelRatio)
        else unchanged(resolution)
    {
      size.Set(width, height);
      UpdateResolution();
    }

    /** In automatic mode the resolution becomes the size scaled by the pixel ratio; otherwise it is kept. */
    method UpdateResolution()
      requires size != resolution
      modifies resolution
      ensures if autoResolution
        then resolution.Value() == RetroShader.Vec2(size.x * pixelRatio, size.y * pixelRatio)
        else unchanged(resolution)
    {
      if autoResolution {
        resolution.Set(size.x * pixelRatio, size.y * pixelRatio);
      }
    }

    /** In automatic mode the offset is recomputed from the count; otherwise it is kept. */
    method UpdateDitheringOffset()
      requires colorCount >= 2
      modifies this
      ensures State() == old(State()).(
        ditheringOffset := if autoDitheringOffset then AutoDitheringOffset(old(colorCount)) else old(ditheringOffset))
      ensures colors == old(colors)
    {
      if autoDitheringOffset {
        ditheringOffset := AutoDitheringOffset(colorCount);
      }
    }

    /** The uniform values the fragment program runs with. */
    function Uniforms(): RetroShader.Uniforms
      reads this, resolution, colorTexture, colorTexture.data
    {
      RetroShader.Uniforms(resolution.Value(), colorCount, colorTexture.data[..], colorTexture.width,
        dithering, ditheringOffset)
    }
  }

  /**
   * In a valid pass the fragment program scans exactly the pass's colours,
   * each read back from its texel, and finds one of them for every sample.
   */
  lemma ShaderScansPalette(pass: RetroPass)
    requires pass.Valid()
    ensures var u := pass.Uniforms();
      && u.lutWidth >= 1 && |u.lut| == 4 * u.lutWidth
      && |RetroShader.LutPalette(u.lut, u.lutWidth, u.colorCount)| == |pass.colors|
      && forall i :: 0 <= i < |pass.colors| ==>
           RetroShader.LutPalette(u.lut, u.lutWidth, u.colorCount)[i]
             == RetroShader.ToVec3(TexelColor(Encode(pass.colors), i))
  {
    RetroShader.LutPaletteOfEncoding(pass.colors);
  }
}
