/**
 * The direct-colour unpacker, extract_packed_rgb. In direct-colour mode a cell carries its
 * two colours in its attribute word as fifteen bits each: five bits of red in bits 0..4,
 * green in 5..9 and blue in 10..14. A channel is widened to eight bits by putting its five
 * bits on top (`field << 3`), with no replication into the low three bits.
 *
 * The attribute word is an unsigned 64-bit chtype; as with packed colours, the model reads
 * it as a number, so `x >> n` is `x / 2^n` and `x & 0x1f` is `x % 32`.
 */
module DirectColor {
  import opened Rgb

  /** chtype with CHTYPE_LONG >= 2: an unsigned 64-bit word. */
  type Chtype = x: int | 0 <= x < 0x1_0000_0000_0000_0000

  /** 2 to the n: `(chtype)1 << n`. */
  function Pow2(n: nat): (p: nat)
    ensures p >= 1
  {
    if n == 0 then 1 else 2 * Pow2(n - 1)
  }

  /** The five bits of channel k (0 = red, 1 = green, 2 = blue): `(color >> 5 * k) & 0x1f`. */
  function Field5(color: nat, k: nat): (f: int)
    requires k < 3
    ensures 0 <= f < 32
  {
    if k == 0 then color % 32 else if k == 1 then color / 32 % 32 else color / 1024 % 32
  }

  /** A fifteen-bit colour put together from its three five-bit fields. */
  function Fifteen(red: int, green: int, blue: int): (color: nat)
    requires 0 <= red < 32 && 0 <= green < 32 && 0 <= blue < 32
    ensures color < 0x8000
  {
    red + green * 32 + blue * 1024
  }

  /**
   * extract_packed_rgb. Red is `(color << 3) & 0xf8`, the low five bits moved up three;
   * green is `(color >> 2) & 0xf8`, bits 5..9 landed in bits 3..7; blue is
   * `(color >> 7) & 0xf8`, bits 10..14 landed in the same place.
   */
  function ExtractPackedRgb(color: nat): (v: Packed)
    ensures TopByte(v) == 0
  {
    var red := color % 32 * 8;
    var green := color / 32 % 32 * 8;
    var blue := color / 1024 % 32 * 8;
    PackChannels(red, green, blue);
    Pack(red, green, blue)
  }

  /** Every channel of an unpacked colour is a multiple of 8 of at most 248; the low three bits stay clear. */
  lemma ExtractBounds(color: nat)
    ensures var v := ExtractPackedRgb(color);
      Red(v) % 8 == 0 && Green(v) % 8 == 0 && Blue(v) % 8 == 0
      && Red(v) <= 248 && Green(v) <= 248 && Blue(v) <= 248
  {
    ExtractFields(color);
    Widened(Field5(color, 0));
    Widened(Field5(color, 1));
    Widened(Field5(color, 2));
  }

  /** A five-bit field times 8 is a multiple of 8 of at most 248, and dividing by 8 gives it back. */
  lemma Widened(f: int)
    requires 0 <= f < 32
    ensures (8 * f) % 8 == 0 && 8 * f <= 248 && (8 * f) / 8 == f
  {
  }

  /** The three channels are the three five-bit fields of the colour, each times 8. */
  lemma ExtractFields(color: nat)
    ensures Red(ExtractPackedRgb(color)) == 8 * Field5(color, 0)
    ensures Green(ExtractPackedRgb(color)) == 8 * Field5(color, 1)
    ensures Blue(ExtractPackedRgb(color)) == 8 * Field5(color, 2)
  {
    PackChannels(color % 32 * 8, color / 32 % 32 * 8, color / 1024 % 32 * 8);
  }

  /** The three fields of a colour are those of its low fifteen bits. */
  lemma FieldsOfLow15(color: nat)
    ensures Field5(color, 0) == Field5(color % 0x8000, 0)
    ensures Field5(color, 1) == Field5(color % 0x8000, 1)
    ensures Field5(color, 2) == Field5(color % 0x8000, 2)
  {
    var q, r := color / 0x8000, color % 0x8000;
    Split32(1024 * q, r);
    Split32(32 * q, r / 32);
    Split1024(32 * q, r);
    Split32(q, r / 1024);
  }

  /** Dividing 32 k + a by 32. */
  lemma Split32(k: nat, a: nat)
    ensures (32 * k + a) / 32 == k + a / 32 && (32 * k + a) % 32 == a % 32
  {
  }

  /** Dividing 1024 k + a by 1024. */
  lemma Split1024(k: nat, a: nat)
    ensures (1024 * k + a) / 1024 == k + a / 1024
  {
  }

  /** Only the low fifteen bits are read: everything above bit 14 is ignored. */
  lemma HighBitsIgnored(color: nat)
    ensures ExtractPackedRgb(color) == ExtractPackedRgb(color % 0x8000)
  {
    FieldsOfLow15(color);
    ExtractFields(color);
    ExtractFields(color % 0x8000);
    UnpackPack(ExtractPackedRgb(color));
    UnpackPack(ExtractPackedRgb(color % 0x8000));
  }

  /** The fields of a fifteen-bit colour are the ones it was built from. */
  lemma FieldsOfFifteen(red: int, green: int, blue: int)
    requires 0 <= red < 32 && 0 <= green < 32 && 0 <= blue < 32
    ensures Field5(Fifteen(red, green, blue), 0) == red
    ensures Field5(Fifteen(red, green, blue), 1) == green
    ensures Field5(Fifteen(red, green, blue), 2) == blue
  {
    var c := Fifteen(red, green, blue);
    assert c == red + 32 * (green + 32 * blue);
    assert c / 32 == green + 32 * blue;
    assert c / 1024 == blue;
  }

  /** Unpacking a fifteen-bit colour gives back its three fields, each times 8. */
  lemma UnpackFifteen(red: int, green: int, blue: int)
    requires 0 <= red < 32 && 0 <= green < 32 && 0 <= blue < 32
    ensures ExtractPackedRgb(Fifteen(red, green, blue)) == Pack(8 * red, 8 * green, 8 * blue)
  {
    var c := Fifteen(red, green, blue);
    FieldsOfFifteen(red, green, blue);
    ExtractFields(c);
    UnpackPack(ExtractPackedRgb(c));
  }

  /**
   * The fifteen-bit colour a packed colour narrows to: the top five bits of each channel.
   * It undoes the unpacker, in both directions (NarrowUnpack, UnpackNarrow).
   */
  function Narrowed(v: Packed): (color: nat)
    ensures color < 0x8000
  {
    Fifteen(Red(v) / 8, Green(v) / 8, Blue(v) / 8)
  }

  /** The widening loses nothing: narrowing an unpacked colour gives back its low fifteen bits. */
  lemma NarrowUnpack(color: nat)
    ensures Narrowed(ExtractPackedRgb(color)) == color % 0x8000
  {
    var low := color % 0x8000;
    HighBitsIgnored(color);
    ExtractFields(low);
    var r, g, b := Field5(low, 0), Field5(low, 1), Field5(low, 2);
    Widened(r);
    Widened(g);
    Widened(b);
    assert Narrowed(ExtractPackedRgb(low)) == Fifteen(r, g, b);
    FifteenOfFields(low);
  }

  /** A fifteen-bit colour is the Fifteen of its own fields. */
  lemma FifteenOfFields(c: nat)
    requires c < 0x8000
    ensures Fifteen(Field5(c, 0), Field5(c, 1), Field5(c, 2)) == c
  {
    assert c == c % 32 + 32 * (c / 32);
    assert c / 32 == c / 32 % 32 + 32 * (c / 32 / 32);
    assert c / 32 / 32 == c / 1024;
  }

  /** A colour with channels in steps of 8 and no top byte survives narrowing and unpacking. */
  lemma UnpackNarrow(v: Packed)
    requires TopByte(v) == 0 && Red(v) % 8 == 0 && Green(v) % 8 == 0 && Blue(v) % 8 == 0
    ensures ExtractPackedRgb(Narrowed(v)) == v
  {
    UnpackFifteen(Red(v) / 8, Green(v) / 8, Blue(v) / 8);
    UnpackPack(v);
  }
}
