/**
 * The two per-channel intensity transforms of the renderer:
 * intensified_color (bold shown as high intensity, toward white) and
 * dimmed_color (A_DIM, one third darker). Each is a pure function of one channel,
 * lifted to a packed colour, and a method that runs the source's loop over the three
 * channels and is proved to compute that function.
 */
module ColorTransforms {
  import opened Rgb

  /**
   * Bold mapping of one channel: 192 and above become full intensity, below that the
   * response is linear from 85 (one third of 255) at 0, with C's truncating division.
   */
  function IntensifyChannel(c: Channel): (r: Channel)
    ensures 85 <= r <= 255
    ensures c <= r
    ensures c >= 192 <==> r == 255
  {
    if c >= 192 then 255 else 85 + c * (255 - 85) / 192
  }

  /** Dim mapping of one channel: knock off a third (truncating). */
  function DimChannel(c: Channel): (r: Channel)
    ensures r <= c
    ensures c >= 3 ==> r < c
    ensures c < 3 ==> r == c
    ensures r == 0 <==> c == 0
  {
    c - c / 3
  }

  /** intensified_color: each of the three low channels intensified; the top byte is dropped. */
  function Intensified(v: Packed): (r: Packed)
    ensures TopByte(r) == 0
    ensures Red(r) == IntensifyChannel(Red(v))
    ensures Green(r) == IntensifyChannel(Green(v))
    ensures Blue(r) == IntensifyChannel(Blue(v))
  {
    PackChannels(IntensifyChannel(Red(v)), IntensifyChannel(Green(v)), IntensifyChannel(Blue(v)));
    Pack(IntensifyChannel(Red(v)), IntensifyChannel(Green(v)), IntensifyChannel(Blue(v)))
  }

  /** dimmed_color: each of the three low channels dimmed; the top byte is dropped. */
  function Dimmed(v: Packed): (r: Packed)
    ensures TopByte(r) == 0
    ensures Red(r) == DimChannel(Red(v))
    ensures Green(r) == DimChannel(Green(v))
    ensures Blue(r) == DimChannel(Blue(v))
  {
    PackChannels(DimChannel(Red(v)), DimChannel(Green(v)), DimChannel(Blue(v)));
    Pack(DimChannel(Red(v)), DimChannel(Green(v)), DimChannel(Blue(v)))
  }

  /**
   * intensified_color as written: a loop over the three channels that takes the low byte,
   * remaps it with int arithmetic, ORs it into place and shifts the input down by 8.
   */
  method IntensifiedColor(ival0: Packed) returns (oval: Packed)
    ensures oval == Intensified(ival0)
  {
    ghost var r: int, g: int, b: int := IntensifyChannel(Red(ival0)), IntensifyChannel(Green(ival0)), IntensifyChannel(Blue(ival0));
    var ival: int := ival0;
    oval := 0;
    var i := 0;
    while i < 3
      invariant 0 <= i <= 3
      invariant ival == ShiftDown(ival0, i)
      invariant oval == (if i > 0 then r else 0) + (if i > 1 then g * 0x100 else 0) + (if i > 2 then b * 0x1_0000 else 0)
    {
      ShiftStep(ival0, i);
      var rgb := ival % 256;                           // (int)(ival & 0xff)
      ghost var c: Channel := rgb;
      if rgb >= 192 {
        rgb := 255;
      } else {
        rgb := 85 + rgb * (255 - 85) / 192;
      }
      assert rgb == IntensifyChannel(c);
      assert rgb == if i == 0 then r else if i == 1 then g else b;
      oval := oval + ShiftUp(rgb, i);                  // oval |= rgb << (i * 8), into empty bits
      i, ival := i + 1, ival / 256;                    // i++, ival >>= 8
    }
  }

  /** dimmed_color as written: the same loop, with `rgb -= rgb / 3` on an unsigned channel. */
  method DimmedColor(ival0: Packed) returns (oval: Packed)
    ensures oval == Dimmed(ival0)
  {
    ghost var r: int, g: int, b: int := DimChannel(Red(ival0)), DimChannel(Green(ival0)), DimChannel(Blue(ival0));
    var ival: int := ival0;
    oval := 0;
    var i := 0;
    while i < 3
      invariant 0 <= i <= 3
      invariant ival == ShiftDown(ival0, i)
      invariant oval == (if i > 0 then r else 0) + (if i > 1 then g * 0x100 else 0) + (if i > 2 then b * 0x1_0000 else 0)
    {
      ShiftStep(ival0, i);
      var rgb := ival % 256;                           // (unsigned)(ival & 0xff)
      rgb := rgb - rgb / 3;
      oval := oval + ShiftUp(rgb, i);                   // oval |= rgb << (i * 8)
      i, ival := i + 1, ival / 256;
    }
  }

  /** Both transforms read only the 24 colour bits: the input's top byte is ignored. */
  lemma TransformsIgnoreTopByte(v: Packed)
    ensures Intensified(v) == Intensified(v % 0x100_0000)
    ensures Dimmed(v) == Dimmed(v % 0x100_0000)
  {
    var w, t := v % 0x100_0000, v / 0x100_0000;
    assert v == w + 0x100_0000 * t;
    assert Red(w) == Red(v);
    assert v / 256 == w / 256 + 0x1_0000 * t;
    assert Green(w) == Green(v);
    assert v / 65536 == w / 65536 + 0x100 * t;
    assert Blue(w) == Blue(v);
  }

  /** Intensifying is monotone: a brighter channel never maps to a darker one. */
  lemma IntensifyMonotone(c: Channel, d: Channel)
    requires c <= d
    ensures IntensifyChannel(c) <= IntensifyChannel(d)
  {
    if d < 192 {
      assert c * 170 <= d * 170;
    }
  }

  /** Dimming is monotone too. */
  lemma DimMonotone(c: Channel, d: Channel)
    requires c <= d
    ensures DimChannel(c) <= DimChannel(d)
  {
  }

  /** Full intensity is a fixed point, so bold on bold white stays white; 192 and above saturate after one step. */
  lemma IntensifySaturates(v: Packed)
    requires Red(v) >= 192 && Green(v) >= 192 && Blue(v) >= 192
    ensures Intensified(v) == 0xffffff
    ensures Intensified(Intensified(v)) == Intensified(v)
  {
    UnpackPack(Intensified(v));
  }

  /** White intensifies to itself. */
  lemma IntensifyWhite()
    ensures Intensified(0xffffff) == 0xffffff
  {
    IntensifySaturates(0xffffff);
  }

  /** `k` successive dims of one channel. */
  function DimTimes(c: Channel, k: nat): Channel
  {
    if k == 0 then c else DimChannel(DimTimes(c, k - 1))
  }

  /**
   * Repeated dimming never brightens and never goes negative, and it loses at least one
   * level per step until the channel is down to 0, 1 or 2, which are fixed points:
   * after c steps the channel is at most 2.
   */
  lemma {:induction false} DimTimesDecreases(c: Channel, k: nat)
    ensures DimTimes(c, k) <= c
    ensures DimTimes(c, k) < 3 || DimTimes(c, k) <= c - k
    ensures k >= c ==> DimTimes(c, k) < 3
  {
    if k > 0 {
      DimTimesDecreases(c, k - 1);
    }
  }
}
