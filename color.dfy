/**
 * Colours as the library handles them: a `THREE.Color` is three channels, each a
 * JavaScript number: a finite value, an infinity, or NaN. The palette code's
 * divisions only ever give a finite value or NaN (`0 / 0`); the infinities are
 * there because `Divide` is JavaScript's `/` in general.
 */
module Color {

  /** A JavaScript number, with the finite values taken as exact reals. */
  datatype Num = Finite(value: real) | PosInf | NegInf | NaN

  /** JavaScript division `a / b` of two finite numbers. */
  function Divide(a: real, b: real): Num {
    if b != 0.0 then Finite(a / b)
    else if a == 0.0 then NaN
    else if a > 0.0 then PosInf
    else NegInf
  }

  datatype Color = Color(r: Num, g: Num, b: Num)

  /** `new THREE.Color(r, g, b)` with finite channels. */
  function Rgb(r: real, g: real, b: real): Color {
    Color(Finite(r), Finite(g), Finite(b))
  }

  /** `new THREE.Color(v, v, v)`. */
  function Grey(v: Num): Color {
    Color(v, v, v)
  }

  /** True when every channel is finite and lies in [0, 1]. */
  predicate InUnitCube(c: Color) {
    && c.r.Finite? && 0.0 <= c.r.value <= 1.0
    && c.g.Finite? && 0.0 <= c.g.value <= 1.0
    && c.b.Finite? && 0.0 <= c.b.value <= 1.0
  }

  /** True when no channel is an infinity: each is finite or NaN. */
  predicate NoInfiniteChannel(c: Color) {
    !c.r.PosInf? && !c.r.NegInf? && !c.g.PosInf? && !c.g.NegInf? && !c.b.PosInf? && !c.b.NegInf?
  }

  /** `new THREE.Color(hex)` without colour management: each channel is its byte of the 24-bit value divided by 255. */
  function FromHex(hex: int): (c: Color)
    requires 0 <= hex < 0x100_0000
    ensures InUnitCube(c)
  {
    Rgb(((hex / 0x1_0000) % 0x100) as real / 255.0,
        ((hex / 0x100) % 0x100) as real / 255.0,
        (hex % 0x100) as real / 255.0)
  }

  const Black: Color := Rgb(0.0, 0.0, 0.0)
  const White: Color := Rgb(1.0, 1.0, 1.0)

  lemma FromHexExtremes()
    ensures FromHex(0x000000) == Black
    ensures FromHex(0xFFFFFF) == White
  {
  }
}
