/**
 * The part of Smooth.Unity's ComparerRegister that is logic: `Color32ToInt`
 * packs the four bytes of a Unity `Color32` into one 32-bit integer, and the
 * `Color32` equality and hash registered with the comparer finder are built on
 * it. The packed word is a `bv32`; the C# `int` is that word read as a
 * two's-complement signed integer.
 */
module ComparerRegister {

  datatype Color32 = Color32(r: bv8, g: bv8, b: bv8, a: bv8)

  /** The bits of `(c.r << 24) | (c.g << 16) | (c.b << 8) | c.a`: r in bits 31-24, g in 23-16, b in 15-8, a in 7-0. */
  function Color32ToWord(c: Color32): (w: bv32)
    ensures w >> 24 == c.r as bv32
    ensures (w >> 16) & 0xFF == c.g as bv32
    ensures (w >> 8) & 0xFF == c.b as bv32
    ensures w & 0xFF == c.a as bv32
  {
    (c.r as bv32 << 24) | (c.g as bv32 << 16) | (c.b as bv32 << 8) | c.a as bv32
  }

  /** The lowest byte of a word. */
  function LowByte(x: bv32): (b: bv8)
    ensures b as bv32 == x & 0xFF
  {
    (x & 0xFF) as bv8
  }

  /** The four bytes of a word, most significant first. */
  function WordToColor32(w: bv32): Color32
  {
    Color32(LowByte(w >> 24), LowByte(w >> 16), LowByte(w >> 8), LowByte(w))
  }

  /** Packing loses no information: unpacking gives the colour back. */
  lemma PackThenUnpack(c: Color32)
    ensures WordToColor32(Color32ToWord(c)) == c
  {
  }

  /** Every word is the packing of some colour: the one its bytes spell. */
  lemma UnpackThenPack(w: bv32)
    ensures Color32ToWord(WordToColor32(w)) == w
  {
    assert (((w >> 24) & 0xFF) << 24) | (((w >> 16) & 0xFF) << 16) | (((w >> 8) & 0xFF) << 8) | (w & 0xFF) == w;
  }

  /**
   * `Color32ToInt`: the packed word, as the 32 bits of the C# `int`. Its sign bit is the top bit
   * of the red byte.
   */
  function Color32ToInt(c: Color32): (i: bv32)
    ensures (i >> 31 == 1) <==> c.r >= 0x80
  {
    Color32ToWord(c)
  }

  /** Distinct colours never pack to the same integer. */
  lemma Color32ToIntInjective(c: Color32, d: Color32)
    ensures Color32ToInt(c) == Color32ToInt(d) ==> c == d
  {
    PackThenUnpack(c);
    PackThenUnpack(d);
  }

  /** The equality registered for `Color32`: compare the packed integers. */
  function Color32Equals(x: Color32, y: Color32): (r: bool)
    ensures r <==> x.r == y.r && x.g == y.g && x.b == y.b && x.a == y.a
  {
    Color32ToIntInjective(x, y);
    Color32ToInt(x) == Color32ToInt(y)
  }

  /** The hash registered for `Color32` is the packed integer. */
  function Color32Hash(c: Color32): (h: bv32)
    ensures WordToColor32(h) == c
  {
    PackThenUnpack(c);
    Color32ToInt(c)
  }

  /** The registered equality and hash agree with each other and with equality of colours. */
  lemma Color32ComparerLaws(x: Color32, y: Color32)
    ensures Color32Equals(x, y) <==> x == y
    ensures Color32Equals(x, y) <==> Color32Hash(x) == Color32Hash(y)
  {
    Color32ToIntInjective(x, y);
  }
}
