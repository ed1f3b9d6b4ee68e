/**
 * The default contents of the palette that PDC_init_palette builds: the 16 ANSI colours,
 * the 6 x 6 x 6 colour cube at 16..231 and the 24-step grey ramp at 232..255, as in
 * xterm's 256-colour mode. Entries at 256 and above stay as calloc left them, 0 (black).
 */
module DefaultPalette {
  import opened Rgb

  /**
   * COLOR_RED, COLOR_GREEN and COLOR_BLUE: the bit of an ANSI colour number that turns each
   * channel on. The port's headers make them 1, 2 and 4 in some order (red = 1 and blue = 4
   * with PDC_RGB defined, the other way round otherwise).
   */
  datatype ColorBits = ColorBits(red: int, green: int, blue: int)
  {
    predicate Valid()
    {
      ChannelBit(red) && ChannelBit(green) && ChannelBit(blue)
      && red != green && green != blue && red != blue
    }
  }

  /** A bit that can select a channel of an ANSI colour: 1, 2 or 4. */
  predicate ChannelBit(mask: int)
  {
    mask == 1 || mask == 2 || mask == 4
  }

  /** One of the four bits of an ANSI colour number: a channel bit or 8, the bright bit. */
  predicate OneBit(mask: int)
  {
    ChannelBit(mask) || mask == 8
  }

  /** The RGB-ordered headers: COLOR_RED 1, COLOR_GREEN 2, COLOR_BLUE 4. */
  const RgbBits := ColorBits(1, 2, 4)

  /** The BGR-ordered headers (PC consoles): COLOR_BLUE 1, COLOR_GREEN 2, COLOR_RED 4. */
  const BgrBits := ColorBits(4, 2, 1)

  /**
   * `(i & mask) != 0` for an ANSI colour number i and a one-bit mask, read arithmetically:
   * digit `mask` of i in base 2 is 1. Each mask gets its own constant divisor.
   */
  predicate HasBit(i: int, mask: int)
    requires 0 <= i < 16 && OneBit(mask)
  {
    (if mask == 1 then i % 2 else if mask == 2 then i / 2 % 2 else if mask == 4 then i / 4 % 2 else i / 8 % 2) == 1
  }

  /** The arithmetic reading agrees with C's bitwise and on the 8-bit value. */
  lemma HasBitIsBitwiseAnd(i: int, mask: int)
    requires 0 <= i < 16 && OneBit(mask)
    ensures HasBit(i, mask) <==> (i as bv8) & (mask as bv8) != 0
  {
  }

  /** ANSI colour i: 0xff for channels that are on in the bright half (i & 8), 0xc0 otherwise. */
  function AnsiColor(bits: ColorBits, i: int): Packed
    requires bits.Valid() && 0 <= i < 16
  {
    var intensity := if HasBit(i, 8) then 0xff else 0xc0;
    Pack(AnsiChannel(i, bits.red, intensity), AnsiChannel(i, bits.green, intensity),
         AnsiChannel(i, bits.blue, intensity))
  }

  /** Cube level l of 0..5: 0, then 95, 135, 175, 215, 255 (`l ? l * 40 + 55 : 0`). */
  function CubeLevel(l: int): Channel
    requires 0 <= l < 6
  {
    if l != 0 then l * 40 + 55 else 0
  }

  function CubeColor(r: int, g: int, b: int): Packed
    requires 0 <= r < 6 && 0 <= g < 6 && 0 <= b < 6
  {
    Pack(CubeLevel(r), CubeLevel(g), CubeLevel(b))
  }

  /** Grey step s of 0..23: all three channels at s * 10 + 8. */
  function Grey(s: int): Packed
    requires 0 <= s < 24
  {
    Pack(s * 10 + 8, s * 10 + 8, s * 10 + 8)
  }

  /**
   * Entry i of a freshly initialized palette. The cube is filled with r outermost and b
   * innermost, so cube entry k = i - 16 has r = k / 36, g = k / 6 % 6 and b = k % 6.
   */
  function DefaultEntry(bits: ColorBits, i: nat): Packed
    requires bits.Valid()
  {
    if i < 16 then AnsiColor(bits, i)
    else if i < 232 then CubeColor((i - 16) / 36, (i - 16) / 6 % 6, (i - 16) % 6)
    else if i < 256 then Grey(i - 232)
    else 0
  }

  /** The whole default palette of a terminal with `colors` colours. */
  function Default(bits: ColorBits, colors: nat): seq<Packed>
    requires bits.Valid()
  {
    seq(colors, i requires 0 <= i < colors => DefaultEntry(bits, i))
  }

  /**
   * ANSI colour i has a channel on exactly when that channel's bit is set in i, and every
   * channel that is on has the same intensity: 0xff for 8..15, 0xc0 for 0..7.
   */
  lemma AnsiEntry(bits: ColorBits, i: int)
    requires bits.Valid() && 0 <= i < 16
    ensures Red(DefaultEntry(bits, i)) != 0 <==> HasBit(i, bits.red)
    ensures Green(DefaultEntry(bits, i)) != 0 <==> HasBit(i, bits.green)
    ensures Blue(DefaultEntry(bits, i)) != 0 <==> HasBit(i, bits.blue)
    ensures var on := if i >= 8 then 0xff else 0xc0;
      (Red(DefaultEntry(bits, i)) == 0 || Red(DefaultEntry(bits, i)) == on)
      && (Green(DefaultEntry(bits, i)) == 0 || Green(DefaultEntry(bits, i)) == on)
      && (Blue(DefaultEntry(bits, i)) == 0 || Blue(DefaultEntry(bits, i)) == on)
  {
    assert DefaultEntry(bits, i) == AnsiColor(bits, i);
    var on := if HasBit(i, 8) then 0xff else 0xc0;
    BrightBit(i);
    var rc, gc, bc := AnsiChannel(i, bits.red, on), AnsiChannel(i, bits.green, on), AnsiChannel(i, bits.blue, on);
    assert AnsiColor(bits, i) == Pack(rc, gc, bc);
    PackChannels(rc, gc, bc);
  }

  /** The bit of value 8 (bit 3, `i & 8`) of an ANSI colour number is set exactly in the bright half, 8..15. */
  lemma BrightBit(i: int)
    requires 0 <= i < 16
    ensures HasBit(i, 8) <==> i >= 8
  {
    assert i / 8 == if i >= 8 then 1 else 0;
  }

  /** One channel of ANSI colour i: at intensity `on` when its bit is set, else 0. */
  function AnsiChannel(i: int, mask: int, on: Channel): Channel
    requires 0 <= i < 16 && OneBit(mask)
  {
    if HasBit(i, mask) then on else 0
  }

  /** Colour 0 is black, whatever the channel order. */
  lemma AnsiBlack(bits: ColorBits)
    requires bits.Valid()
    ensures DefaultEntry(bits, 0) == 0
  {
    ChannelOnIn7And15(bits.red);
    ChannelOnIn7And15(bits.green);
    ChannelOnIn7And15(bits.blue);
  }

  /** Colour 7 is the light grey 0xc0c0c0, whatever the channel order. */
  lemma AnsiLightGrey(bits: ColorBits)
    requires bits.Valid()
    ensures DefaultEntry(bits, 7) == 0xc0c0c0
  {
    ChannelOnIn7And15(bits.red);
    ChannelOnIn7And15(bits.green);
    ChannelOnIn7And15(bits.blue);
    assert AnsiColor(bits, 7) == Pack(0xc0, 0xc0, 0xc0);
  }

  /** Colour 15 is white, whatever the channel order. */
  lemma AnsiWhite(bits: ColorBits)
    requires bits.Valid()
    ensures DefaultEntry(bits, 15) == 0xffffff
  {
    ChannelOnIn7And15(bits.red);
    ChannelOnIn7And15(bits.green);
    ChannelOnIn7And15(bits.blue);
    assert AnsiColor(bits, 15) == Pack(0xff, 0xff, 0xff);
  }

  /**
   * The channel order decides which colour a number names: colour 1 is dark red with the
   * RGB-ordered headers and dark blue with the BGR-ordered ones, and colour 4 the other way round.
   */
  lemma AnsiChannelOrder()
    ensures DefaultEntry(RgbBits, 1) == Pack(0xc0, 0, 0) && DefaultEntry(RgbBits, 4) == Pack(0, 0, 0xc0)
    ensures DefaultEntry(BgrBits, 1) == Pack(0, 0, 0xc0) && DefaultEntry(BgrBits, 4) == Pack(0xc0, 0, 0)
  {
    assert AnsiColor(RgbBits, 1) == Pack(0xc0, 0, 0);
    assert AnsiColor(RgbBits, 4) == Pack(0, 0, 0xc0);
    assert AnsiColor(BgrBits, 1) == Pack(0, 0, 0xc0);
    assert AnsiColor(BgrBits, 4) == Pack(0xc0, 0, 0);
  }

  /** A channel bit is clear in 0 and set in 7 and in 15. */
  lemma ChannelOnIn7And15(mask: int)
    requires ChannelBit(mask)
    ensures !HasBit(0, mask) && HasBit(7, mask) && HasBit(15, mask)
  {
  }

  /** Cube colour (r, g, b) is entry 16 + 36 r + 6 g + b. */
  lemma CubeEntry(bits: ColorBits, r: int, g: int, b: int)
    requires bits.Valid()
    requires 0 <= r < 6 && 0 <= g < 6 && 0 <= b < 6
    ensures DefaultEntry(bits, 16 + 36 * r + 6 * g + b) == CubeColor(r, g, b)
    ensures Red(CubeColor(r, g, b)) == (if r == 0 then 0 else 55 + 40 * r)
    ensures Green(CubeColor(r, g, b)) == (if g == 0 then 0 else 55 + 40 * g)
    ensures Blue(CubeColor(r, g, b)) == (if b == 0 then 0 else 55 + 40 * b)
  {
    var k := 36 * r + 6 * g + b;
    assert k / 36 == r && k % 36 == 6 * g + b;
    assert k / 6 == 6 * r + g;
    assert k / 6 % 6 == g;
    assert k % 6 == b;
    PackChannels(CubeLevel(r), CubeLevel(g), CubeLevel(b));
  }

  /** The levels are strictly increasing, so every level names a different intensity. */
  lemma CubeLevelIncreasing(l: int, m: int)
    requires 0 <= l < m < 6
    ensures CubeLevel(l) < CubeLevel(m)
  {
  }

  /** The 216 cube entries are 216 different colours. */
  lemma CubeEntriesDistinct(bits: ColorBits, r1: int, g1: int, b1: int, r2: int, g2: int, b2: int)
    requires bits.Valid()
    requires 0 <= r1 < 6 && 0 <= g1 < 6 && 0 <= b1 < 6
    requires 0 <= r2 < 6 && 0 <= g2 < 6 && 0 <= b2 < 6
    requires (r1, g1, b1) != (r2, g2, b2)
    ensures DefaultEntry(bits, 16 + 36 * r1 + 6 * g1 + b1) != DefaultEntry(bits, 16 + 36 * r2 + 6 * g2 + b2)
  {
    CubeEntry(bits, r1, g1, b1);
    CubeEntry(bits, r2, g2, b2);
    if CubeColor(r1, g1, b1) == CubeColor(r2, g2, b2) {
      PackInjective(CubeLevel(r1), CubeLevel(g1), CubeLevel(b1), CubeLevel(r2), CubeLevel(g2), CubeLevel(b2));
      LevelInjective(r1, r2);
      LevelInjective(g1, g2);
      LevelInjective(b1, b2);
    }
  }

  lemma LevelInjective(l: int, m: int)
    requires 0 <= l < 6 && 0 <= m < 6 && CubeLevel(l) == CubeLevel(m)
    ensures l == m
  {
    if l < m {
      CubeLevelIncreasing(l, m);
    } else if m < l {
      CubeLevelIncreasing(m, l);
    }
  }

  /** Grey step s is entry 232 + s: a neutral grey, 10 levels lighter than the step before. */
  lemma GreyEntry(bits: ColorBits, s: int)
    requires bits.Valid() && 0 <= s < 24
    ensures DefaultEntry(bits, 232 + s) == Grey(s)
    ensures Red(Grey(s)) == Green(Grey(s)) == Blue(Grey(s)) == 10 * s + 8
    ensures s > 0 ==> Red(Grey(s)) == Red(Grey(s - 1)) + 10
  {
    PackChannels(s * 10 + 8, s * 10 + 8, s * 10 + 8);
    if s > 0 {
      PackChannels((s - 1) * 10 + 8, (s - 1) * 10 + 8, (s - 1) * 10 + 8);
    }
  }

  /** The ramp stays strictly between black and white: 8 .. 238. */
  lemma GreyRampBounds(s: int)
    requires 0 <= s < 24
    ensures 8 <= Red(Grey(s)) <= 238
  {
    PackChannels(s * 10 + 8, s * 10 + 8, s * 10 + 8);
  }

  /**
   * No ramp grey repeats a grey of the cube: ramp levels end in 8 (8, 18, ..., 238), cube
   * levels in 0 or 5 (0, 95, 135, 175, 215, 255).
   */
  lemma GreysNotInCube(s: int, l: int)
    requires 0 <= s < 24 && 0 <= l < 6
    ensures Grey(s) != CubeColor(l, l, l)
  {
    PackChannels(s * 10 + 8, s * 10 + 8, s * 10 + 8);
    PackChannels(CubeLevel(l), CubeLevel(l), CubeLevel(l));
    assert Red(Grey(s)) == s * 10 + 8 && Red(CubeColor(l, l, l)) == CubeLevel(l);
    assert CubeLevel(l) == 0 || CubeLevel(l) == 95 || CubeLevel(l) == 135 || CubeLevel(l) == 175
      || CubeLevel(l) == 215 || CubeLevel(l) == 255;
  }

  /** Nothing is written at 256 and above: those entries keep calloc's zero. */
  lemma BeyondGreysBlack(bits: ColorBits, i: nat)
    requires bits.Valid() && i >= 256
    ensures DefaultEntry(bits, i) == 0
  {
  }

  /** A palette of fewer colours is a prefix of a larger one: only the bound of each loop changes. */
  lemma DefaultPrefix(bits: ColorBits, m: nat, n: nat)
    requires bits.Valid() && m <= n
    ensures Default(bits, m) == Default(bits, n)[..m]
  {
  }

  /**
   * Every entry of the default palette, channel by channel: the ANSI rule below 16, the cube
   * levels of (r, g, b) = ((i - 16) / 36, (i - 16) / 6 % 6, (i - 16) % 6) up to 231, the grey
   * 10 (i - 232) + 8 up to 255, and black from 256 on.
   */
  lemma DefaultChannels(bits: ColorBits, colors: nat, i: nat)
    requires bits.Valid() && i < colors
    ensures var e := Default(bits, colors)[i];
      var on := if i >= 8 then 0xff else 0xc0;
      (i < 16 ==> Red(e) == AnsiChannel(i, bits.red, on) && Green(e) == AnsiChannel(i, bits.green, on)
                  && Blue(e) == AnsiChannel(i, bits.blue, on))
      && (16 <= i < 232 ==> Red(e) == CubeLevel((i - 16) / 36) && Green(e) == CubeLevel((i - 16) / 6 % 6)
                            && Blue(e) == CubeLevel((i - 16) % 6))
      && (232 <= i < 256 ==> Red(e) == Green(e) == Blue(e) == 10 * (i - 232) + 8)
      && (256 <= i ==> e == 0)
  {
    if i < 16 {
      BrightBit(i);
      var on := if HasBit(i, 8) then 0xff else 0xc0;
      PackChannels(AnsiChannel(i, bits.red, on), AnsiChannel(i, bits.green, on), AnsiChannel(i, bits.blue, on));
    } else if i < 232 {
      var k := i - 16;
      var r, g, b := k / 36, k / 6 % 6, k % 6;
      PackChannels(CubeLevel(r), CubeLevel(g), CubeLevel(b));
    } else if i < 256 {
      GreyEntry(bits, i - 232);
    }
  }
}
