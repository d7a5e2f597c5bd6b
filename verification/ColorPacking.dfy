/** The Windows `TransformationExtensions`: packing a straight-alpha ARGB colour
    into the premultiplied 32-bit pixel word the bitmap code stores, and the
    byte-array helpers that are still unimplemented stubs.

    A .NET `int` pixel is modelled by its 32-bit pattern (`bv32`); reading it
    as a signed number makes it negative exactly when bit 31 is set. */
module ColorPacking {
  import opened Common

  /** `Windows.UI.Color`: four 8-bit channels. */
  datatype Color = Color(a: bv8, r: bv8, g: bv8, b: bv8)

  /** Whether a 32-bit pattern is negative when read as a two's-complement `int`. */
  predicate IsNegative(u: bv32) {
    u & 0x8000_0000 != 0
  }

  /** `c * (a + 1)`, computed in the `int` the source promotes both bytes to;
      the product is at most 255 * 256, so sixteen bits hold it exactly. */
  function ScaledChannel(c: bv8, a: bv8): bv16 {
    (c as bv16) * ((a as bv16) + 1)
  }

  /** One colour channel scaled by alpha: `(byte)((c * (a + 1)) >> 8)`, the
      cast keeping the low eight bits. */
  function Premultiply(c: bv8, a: bv8): bv8 {
    ((ScaledChannel(c, a) >> 8) & 0xFF) as bv8
  }

  /** The word `(a << 24) | (r << 16) | (g << 8) | b`. */
  function PackWord(a: bv8, r: bv8, g: bv8, b: bv8): bv32 {
    ((a as bv32) << 24) | ((r as bv32) << 16) | ((g as bv32) << 8) | (b as bv32)
  }

  /** The bit pattern `(A << 24) | (R' << 16) | (G' << 8) | B'` of a packed colour. */
  function PackBits(c: Color): bv32 {
    PackWord(c.a, Premultiply(c.r, c.a), Premultiply(c.g, c.a), Premultiply(c.b, c.a))
  }

  /** The four bytes of a pixel word, from the top: alpha, red, green, blue. */
  function AlphaByte(u: bv32): bv8 { (u >> 24) as bv8 }
  function RedByte(u: bv32): bv8 { ((u >> 16) & 0xFF) as bv8 }
  function GreenByte(u: bv32): bv8 { ((u >> 8) & 0xFF) as bv8 }
  function BlueByte(u: bv32): bv8 { (u & 0xFF) as bv8 }

  /** `Color.ToInt`: 0 for a fully transparent colour, otherwise the
      premultiplied ARGB pattern. */
  function ToInt(c: Color): (r: bv32)
    ensures c.a == 0 ==> r == 0
  {
    if c.a != 0 then PackBits(c) else 0
  }

  /** A premultiplied channel never exceeds alpha, so the `(byte)` cast in
      `Premultiply` keeps the whole quotient. */
  lemma PremultiplyBoundedByAlpha(c: bv8, a: bv8)
    ensures ScaledChannel(c, a) >> 8 == Premultiply(c, a) as bv16
    ensures Premultiply(c, a) <= a
  {
  }

  /** An opaque colour keeps its R, G and B values. */
  lemma PremultiplyOpaque(c: bv8)
    ensures Premultiply(c, 0xFF) == c
  {
  }

  /** The four fields of an ARGB word packed with shifts and ors come back
      out unchanged. */
  lemma UnpackFields(a: bv8, r: bv8, g: bv8, b: bv8)
    ensures AlphaByte(PackWord(a, r, g, b)) == a && RedByte(PackWord(a, r, g, b)) == r
    ensures GreenByte(PackWord(a, r, g, b)) == g && BlueByte(PackWord(a, r, g, b)) == b
  {
  }

  /** The bytes of `PackBits` are alpha and the three premultiplied channels. */
  lemma PackBitsFields(c: Color)
    ensures AlphaByte(PackBits(c)) == c.a
    ensures RedByte(PackBits(c)) == Premultiply(c.r, c.a)
    ensures GreenByte(PackBits(c)) == Premultiply(c.g, c.a)
    ensures BlueByte(PackBits(c)) == Premultiply(c.b, c.a)
  {
    UnpackFields(c.a, Premultiply(c.r, c.a), Premultiply(c.g, c.a), Premultiply(c.b, c.a));
  }

  /** For a colour with non-zero alpha, the bytes of `ToInt` are alpha and the
      three channels multiplied by `alpha + 1` and shifted down by eight, and
      none of those exceeds alpha. */
  lemma ToIntChannels(c: Color)
    requires c.a != 0
    ensures AlphaByte(ToInt(c)) == c.a
    ensures RedByte(ToInt(c)) as bv16 == ScaledChannel(c.r, c.a) >> 8
    ensures GreenByte(ToInt(c)) as bv16 == ScaledChannel(c.g, c.a) >> 8
    ensures BlueByte(ToInt(c)) as bv16 == ScaledChannel(c.b, c.a) >> 8
    ensures RedByte(ToInt(c)) <= c.a && GreenByte(ToInt(c)) <= c.a && BlueByte(ToInt(c)) <= c.a
  {
    PackBitsFields(c);
    PremultiplyBoundedByAlpha(c.r, c.a);
    PremultiplyBoundedByAlpha(c.g, c.a);
    PremultiplyBoundedByAlpha(c.b, c.a);
  }

  /** A fully opaque colour is packed without changing R, G or B. */
  lemma ToIntOpaque(c: Color)
    requires c.a == 0xFF
    ensures AlphaByte(ToInt(c)) == 0xFF
    ensures RedByte(ToInt(c)) == c.r && GreenByte(ToInt(c)) == c.g && BlueByte(ToInt(c)) == c.b
  {
    ToIntChannels(c);
    PremultiplyOpaque(c.r);
    PremultiplyOpaque(c.g);
    PremultiplyOpaque(c.b);
  }

  /** Read as a signed `int`, the packed colour is negative exactly when
      alpha has its top bit set. */
  lemma ToIntSign(c: Color)
    ensures IsNegative(ToInt(c)) <==> c.a >= 0x80
  {
  }

  /** `byte[].SetPixel(x, y, int)`: an unimplemented stub that leaves the
      array as it is. */
  function SetPixelBytes(pixelData: seq<bv8>, x: int, y: int, color: bv32): (r: seq<bv8>)
    ensures r == pixelData
  {
    pixelData
  }

  /** `byte[].SetPixel(x, y, Color)`: forwards the packed colour to the stub. */
  function SetPixelBytesColor(pixelData: seq<bv8>, x: int, y: int, color: Color): (r: seq<bv8>)
    ensures r == pixelData
  {
    SetPixelBytes(pixelData, x, y, ToInt(color))
  }

  /** `int[].ToBytePixelArray`: an unimplemented stub that returns null. */
  function ToBytePixelArray(pixels: Option<seq<bv32>>): (r: Option<seq<bv8>>)
    ensures r.None?
  {
    None
  }

  /** `byte[].ToIntPixelArray`: an unimplemented stub that returns null. */
  function ToIntPixelArray(pixelData: Option<seq<bv8>>): (r: Option<seq<bv32>>)
    ensures r.None?
  {
    None
  }
}
