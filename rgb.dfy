/**
 * Packed 24-bit colours (PACKED_RGB, a uint32_t) and their three 8-bit channels.
 *
 * PACK_RGB(red, green, blue) is `red | (green << 8) | (blue << 16)`. Every caller passes
 * channels below 256, so the three fields never overlap and the bitwise OR equals the sum
 * `red + green * 256 + blue * 65536`, which is how the model writes it. Reading a channel
 * (`v & 0xff`, `(v >> 8) & 0xff`, ...) is written with `/` and `%` in the same way.
 */
module Rgb {

  /** uint32_t */
  type Packed = x: int | 0 <= x < 0x1_0000_0000

  /** One 8-bit channel. */
  type Channel = c: int | 0 <= c < 256

  /** `v >> (i * 8)` for a nonnegative v and i < 4. */
  function ShiftDown(v: int, i: nat): int
    requires i <= 3
  {
    if i == 0 then v else if i == 1 then v / 0x100 else if i == 2 then v / 0x1_0000 else v / 0x100_0000
  }

  /** `c << (i * 8)` for i < 4 (no bits are lost for the values used here). */
  function ShiftUp(c: int, i: nat): int
    requires i <= 3
  {
    if i == 0 then c else if i == 1 then c * 0x100 else if i == 2 then c * 0x1_0000 else c * 0x100_0000
  }

  /** PACK_RGB: red in the low byte, green in the next, blue in the byte above that. */
  function Pack(red: Channel, green: Channel, blue: Channel): (v: Packed)
    ensures v < 0x100_0000
  {
    red + green * 256 + blue * 65536
  }

  function Red(v: Packed): Channel { v % 256 }

  function Green(v: Packed): Channel { v / 256 % 256 }

  function Blue(v: Packed): Channel { v / 65536 % 256 }

  /** The unused top byte. */
  function TopByte(v: Packed): int { v / 0x100_0000 }

  /** Channel i (0 = red, 1 = green, 2 = blue): `(v >> (i * 8)) & 0xff`. */
  function ChannelAt(v: Packed, i: nat): Channel
    requires i < 3
  {
    if i == 0 then Red(v) else if i == 1 then Green(v) else Blue(v)
  }

  /** Reading the channels back out of PACK_RGB gives the channels put in, and the top byte is 0. */
  lemma PackChannels(red: Channel, green: Channel, blue: Channel)
    ensures Red(Pack(red, green, blue)) == red
    ensures Green(Pack(red, green, blue)) == green
    ensures Blue(Pack(red, green, blue)) == blue
    ensures TopByte(Pack(red, green, blue)) == 0
  {
  }

  /** A value whose top byte is 0 is the PACK_RGB of its own channels. */
  lemma UnpackPack(v: Packed)
    requires TopByte(v) == 0
    ensures Pack(Red(v), Green(v), Blue(v)) == v
  {
  }

  /** The channels determine the packed value: PACK_RGB is injective. */
  lemma PackInjective(r1: Channel, g1: Channel, b1: Channel, r2: Channel, g2: Channel, b2: Channel)
    requires Pack(r1, g1, b1) == Pack(r2, g2, b2)
    ensures r1 == r2 && g1 == g2 && b1 == b2
  {
    PackChannels(r1, g1, b1);
    PackChannels(r2, g2, b2);
  }

  /**
   * The value `v >> (i * 8)` that a per-channel loop holds before its step i:
   * its low byte is channel i of v, and shifting it by 8 more gives the value for step i + 1.
   */
  lemma ShiftStep(v: Packed, i: nat)
    requires i < 3
    ensures ShiftDown(v, i) % 256 == ChannelAt(v, i)
    ensures ShiftDown(v, i) / 256 == ShiftDown(v, i + 1)
  {
    if i == 1 {
      DivideTwice(v, 0x100);
    } else if i == 2 {
      DivideTwice(v, 0x1_0000);
    }
  }

  /** `(v >> k) >> 8 == v >> (k + 8)`, in division form. */
  lemma DivideTwice(v: nat, k: nat)
    requires k == 0x100 || k == 0x1_0000
    ensures v / k / 256 == v / (k * 256)
  {
    var q, r := v / (k * 256), v % (k * 256);
    assert v == k * 256 * q + r;
    assert v / k == 256 * q + r / k;
  }
}
