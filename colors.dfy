// Colours as red/green/blue triples. A hex literal 0xRRGGBB is kept as its
// three channel bytes; the rendering library's own scaling and colour-space
// conversion are not part of this model, so only equalities between colours
// and the shape of the interpolation are meaningful here.

module Colors {
  import opened Geometry

  datatype Rgb = Rgb(r: real, g: real, b: real)

  predicate IsHex(h: int) {
    0 <= h < 0x1000000
  }

  function FromHex(h: int): (c: Rgb)
    requires IsHex(h)
    ensures 0.0 <= c.r <= 255.0 && 0.0 <= c.g <= 255.0 && 0.0 <= c.b <= 255.0
    ensures (c.r.Floor * 0x10000 + c.g.Floor * 0x100 + c.b.Floor) == h
  {
    Rgb((h / 0x10000) as real, (h / 0x100 % 0x100) as real, (h % 0x100) as real)
  }

  /** Two hex literals name the same colour only when they are equal. */
  lemma FromHexInjective(h1: int, h2: int)
    requires IsHex(h1) && IsHex(h2)
    requires FromHex(h1) == FromHex(h2)
    ensures h1 == h2
  {
  }

  function LerpChannel(a: real, b: real, t: real): real {
    a + (b - a) * t
  }

  /** Componentwise linear interpolation from a (at t = 0) to b (at t = 1), as Color.lerpColors does. */
  function Lerp(a: Rgb, b: Rgb, t: real): Rgb {
    Rgb(LerpChannel(a.r, b.r, t), LerpChannel(a.g, b.g, t), LerpChannel(a.b, b.b, t))
  }

  /** The interpolation starts on its first colour and ends on its second. */
  lemma LerpEndpoints(a: Rgb, b: Rgb)
    ensures Lerp(a, b, 0.0) == a
    ensures Lerp(a, b, 1.0) == b
  {
  }

  /** Interpolating between a colour and itself gives that colour. */
  lemma LerpSame(a: Rgb, t: real)
    ensures Lerp(a, a, t) == a
  {
  }

  /** For 0 <= t <= 1 each channel stays between the two end channels. */
  lemma LerpChannelBetween(a: real, b: real, t: real)
    requires 0.0 <= t <= 1.0
    ensures a <= b ==> a <= LerpChannel(a, b, t) <= b
    ensures b <= a ==> b <= LerpChannel(a, b, t) <= a
  {
    if a <= b {
      NonNegativeProduct(b - a, t);
      NonNegativeProduct(b - a, 1.0 - t);
      assert (b - a) * (1.0 - t) == (b - a) - (b - a) * t;
    } else {
      NonNegativeProduct(a - b, t);
      NonNegativeProduct(a - b, 1.0 - t);
      assert (a - b) * (1.0 - t) == (a - b) - (a - b) * t;
      assert (b - a) * t == -((a - b) * t);
    }
  }
}
