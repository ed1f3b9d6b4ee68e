/**
 * PDC_get_rgb_values: the colours a cell is drawn in. The attribute word gives base colours
 * (two palette entries through the colour-pair table, or two fifteen-bit colours in
 * direct-colour mode); then blink, reverse, bold, blink-as-bold and dim are applied, in that
 * order. The function Resolved states the outcome stage by stage; the method GetRgbValues
 * runs the source's sequence of assignments and is proved to reach it.
 */
module Compositor {
  import opened Rgb
  import opened ColorTransforms
  import opened DirectColor
  import opened DefaultPalette
  import opened PaletteStore

  /**
   * The header constants that lay out an attribute word: the A_COLOR field, colorBits wide
   * from bit PDC_COLOR_SHIFT up, and the bits of A_REVERSE, A_BLINK, A_BOLD, A_DIM and
   * A_RGB_COLOR, each a single bit given here by its position. Their values depend on the
   * build; a valid layout keeps every one of them, and both fifteen-bit colours of
   * direct-colour mode, inside the 64-bit word.
   */
  datatype AttrLayout = AttrLayout(colorShift: nat, colorBits: nat, reverse: nat, blink: nat,
                                   bold: nat, dim: nat, rgbColor: nat)
  {
    predicate Valid()
    {
      colorShift + 30 <= 64 && colorShift + colorBits <= 64
      && reverse < 64 && blink < 64 && bold < 64 && dim < 64 && rgbColor < 64
    }
  }

  /** `srcp & mask` tested for truth, where the mask is the single bit at position bit. */
  predicate Has(srcp: Chtype, bit: nat)
  {
    srcp / Pow2(bit) % 2 == 1
  }

  /** A foreground and a background colour. */
  datatype Colors = Colors(fg: Packed, bg: Packed)

  /**
   * The colour-pair number `(short)color`, where color is `(srcp & A_COLOR) >> PDC_COLOR_SHIFT`,
   * the A_COLOR field moved down to bit 0: the sixteen low bits of the field, which the cast
   * keeps. The pair table receives them as
   * they are; reading them as a signed short is the table's business.
   */
  function PairNumber(layout: AttrLayout, srcp: Chtype): (n: nat)
    requires layout.Valid()
    ensures n <= 0xffff
  {
    srcp / Pow2(layout.colorShift) % Pow2(layout.colorBits) % 0x1_0000
  }

  /**
   * What the caller owes the pair table: outside direct-colour mode, the palette indices
   * PDC_pair_content gives for the cell's pair are valid indices of PDC_rgbs.
   */
  predicate PairInRange(layout: AttrLayout, colors: nat, pairContent: nat -> (int, int), srcp: Chtype)
    requires layout.Valid()
  {
    !Has(srcp, layout.rgbColor) ==>
      0 <= pairContent(PairNumber(layout, srcp)).0 < colors && 0 <= pairContent(PairNumber(layout, srcp)).1 < colors
  }

  /**
   * The base colours before any modifier. In direct-colour mode the background is the fifteen
   * bits just above PDC_COLOR_SHIFT and the foreground the fifteen bits above those; otherwise
   * both are palette entries, at the indices the pair table gives for the cell's pair.
   */
  function BaseColors(layout: AttrLayout, entries: seq<Packed>, pairContent: nat -> (int, int), srcp: Chtype): (c: Colors)
    requires layout.Valid() && PairInRange(layout, |entries|, pairContent, srcp)
    ensures !Has(srcp, layout.rgbColor) ==>
      c.fg in entries && c.bg in entries
  {
    if Has(srcp, layout.rgbColor) then
      Colors(ExtractPackedRgb(ForegroundField(layout, srcp)), ExtractPackedRgb(BackgroundField(layout, srcp)))
    else
      var indices := pairContent(PairNumber(layout, srcp));
      Colors(entries[indices.0], entries[indices.1])
  }

  /** The four modifier flags of an attribute word. */
  datatype Modifiers = Modifiers(reverse: bool, blink: bool, bold: bool, dim: bool)

  /** A_REVERSE, A_BLINK, A_BOLD and A_DIM, as tested on srcp. */
  function ModifiersOf(layout: AttrLayout, srcp: Chtype): Modifiers
    requires layout.Valid()
  {
    Modifiers(Has(srcp, layout.reverse), Has(srcp, layout.blink), Has(srcp, layout.bold), Has(srcp, layout.dim))
  }

  /**
   * Whether the colours end up swapped: A_REVERSE, flipped by A_BLINK when the terminal
   * really blinks and the blink phase is on.
   */
  predicate Swaps(m: Modifiers, reallyBlinking: bool, blinkState: bool)
  {
    m.reverse != (m.blink && reallyBlinking && blinkState)
  }

  /** Whether the background is intensified: A_BLINK on a terminal that cannot blink. */
  predicate BoldBackground(m: Modifiers, reallyBlinking: bool)
  {
    m.blink && !reallyBlinking
  }

  /**
   * The modifiers applied to base colours: swapped if Swaps, then the foreground intensified
   * for A_BOLD and the background for BoldBackground, then both dimmed for A_DIM.
   */
  function Modified(base: Colors, m: Modifiers, reallyBlinking: bool, blinkState: bool): Colors
  {
    var swapped := if Swaps(m, reallyBlinking, blinkState) then Colors(base.bg, base.fg) else base;
    var fg := if m.bold then Intensified(swapped.fg) else swapped.fg;
    var bg := if BoldBackground(m, reallyBlinking) then Intensified(swapped.bg) else swapped.bg;
    if m.dim then Colors(Dimmed(fg), Dimmed(bg)) else Colors(fg, bg)
  }

  /** The colours a cell is drawn in: its base colours with its modifiers applied. */
  function Resolved(layout: AttrLayout, entries: seq<Packed>, pairContent: nat -> (int, int), srcp: Chtype,
                    reallyBlinking: bool, blinkState: bool): Colors
    requires layout.Valid() && PairInRange(layout, |entries|, pairContent, srcp)
  {
    Modified(BaseColors(layout, entries, pairContent, srcp), ModifiersOf(layout, srcp), reallyBlinking, blinkState)
  }

  /**
   * PDC_get_rgb_values as written: look up or unpack the base colours, let blink set the
   * intensify-background flag or toggle the reverse flag, swap, then intensify and dim in
   * place. It reads PDC_rgbs directly, so the palette must already be allocated.
   */
  method GetRgbValues(palette: Palette, layout: AttrLayout, pairContent: nat -> (int, int), srcp: Chtype,
                      reallyBlinking: bool, blinkState: bool)
    returns (foregroundRgb: Packed, backgroundRgb: Packed)
    requires palette.Valid() && palette.rgbs != null
    requires layout.Valid() && PairInRange(layout, palette.colors, pairContent, srcp)
    ensures Colors(foregroundRgb, backgroundRgb)
      == Resolved(layout, palette.rgbs[..], pairContent, srcp, reallyBlinking, blinkState)
  {
    ghost var entries := palette.rgbs[..];
    ghost var rgbs := palette.rgbs;
    ghost var base := BaseColors(layout, entries, pairContent, srcp);
    ghost var m := ModifiersOf(layout, srcp);
    ghost var resolved := Modified(base, m, reallyBlinking, blinkState);
    assert resolved == Resolved(layout, entries, pairContent, srcp, reallyBlinking, blinkState);
    var reverseColors := Has(srcp, layout.reverse);
    var intensifyBackgnd := false;

    if Has(srcp, layout.rgbColor) {
      backgroundRgb := ExtractPackedRgb(BackgroundField(layout, srcp));
      foregroundRgb := ExtractPackedRgb(ForegroundField(layout, srcp));
      assert Colors(foregroundRgb, backgroundRgb) == base;
    } else {
      var color := PairNumber(layout, srcp);
      var (foregroundIndex, backgroundIndex) := pairContent(color);
      foregroundRgb := palette.rgbs[foregroundIndex];
      backgroundRgb := palette.rgbs[backgroundIndex];
      assert Colors(foregroundRgb, backgroundRgb) == base by {
        assert base == Colors(entries[foregroundIndex], entries[backgroundIndex]);
      }
    }

    if Has(srcp, layout.blink) {
      if !reallyBlinking {
        intensifyBackgnd := true;
      } else if blinkState {
        reverseColors := !reverseColors;
      }
    }
    assert reverseColors == Swaps(m, reallyBlinking, blinkState);
    assert intensifyBackgnd == BoldBackground(m, reallyBlinking);
    if reverseColors {
      foregroundRgb, backgroundRgb := backgroundRgb, foregroundRgb;
    }
    ghost var swapped := if reverseColors then Colors(base.bg, base.fg) else base;
    assert Colors(foregroundRgb, backgroundRgb) == swapped;

    if Has(srcp, layout.bold) {
      foregroundRgb := IntensifiedColor(foregroundRgb);
    }
    if intensifyBackgnd {
      backgroundRgb := IntensifiedColor(backgroundRgb);
    }
    ghost var fg := if m.bold then Intensified(swapped.fg) else swapped.fg;
    ghost var bg := if BoldBackground(m, reallyBlinking) then Intensified(swapped.bg) else swapped.bg;
    assert foregroundRgb == fg && backgroundRgb == bg;
    if Has(srcp, layout.dim) {
      foregroundRgb := DimmedColor(foregroundRgb);
      backgroundRgb := DimmedColor(backgroundRgb);
    }
    assert Colors(foregroundRgb, backgroundRgb) == resolved;
    assert palette.rgbs == rgbs;
    assert rgbs[..] == entries;
  }

  /** With none of A_REVERSE, A_BLINK, A_BOLD and A_DIM set, a cell shows its base colours. */
  lemma NoModifiers(base: Colors, reallyBlinking: bool, blinkState: bool)
    ensures Modified(base, Modifiers(false, false, false, false), reallyBlinking, blinkState) == base
  {
  }

  /** A_REVERSE alone swaps exactly the base foreground and background. */
  lemma ReverseOnly(base: Colors, reallyBlinking: bool, blinkState: bool)
    ensures Modified(base, Modifiers(true, false, false, false), reallyBlinking, blinkState) == Colors(base.bg, base.fg)
  {
  }

  /**
   * On a terminal that cannot blink, A_BLINK never swaps the colours and does not depend on
   * the blink phase: the colours are swapped exactly when A_REVERSE is set, and the
   * background (after any swap) is intensified before A_DIM applies; the foreground is as
   * it would be without A_BLINK.
   */
  lemma BlinkWithoutBlinking(base: Colors, m: Modifiers, blinkState: bool)
    requires m.blink
    ensures Swaps(m, false, blinkState) <==> m.reverse
    ensures Modified(base, m, false, blinkState) == Modified(base, m, false, !blinkState)
    ensures var back := if m.reverse then base.fg else base.bg;
      Modified(base, m, false, blinkState).bg == if m.dim then Dimmed(Intensified(back)) else Intensified(back)
    ensures Modified(base, m, false, blinkState).fg == Modified(base, m.(blink := false), false, blinkState).fg
  {
  }

  /**
   * On a blinking terminal, A_BLINK acts only through the reverse flag: in the "on" phase a
   * blinking cell is drawn as the same cell without A_BLINK and with A_REVERSE flipped, and in
   * the "off" phase as the same cell without A_BLINK. Whatever bold and dim say, then, blink
   * with reverse shows the colours unswapped in the "on" phase; with neither bold nor dim the
   * two phases show exactly the base colours, one of them swapped.
   */
  lemma BlinkPhaseFlipsReverse(base: Colors, m: Modifiers)
    requires m.blink
    ensures Modified(base, m, true, true) == Modified(base, m.(blink := false, reverse := !m.reverse), true, true)
    ensures Modified(base, m, true, false) == Modified(base, m.(blink := false), true, false)
    ensures !m.bold && !m.dim ==>
      Modified(base, m, true, true) == (if m.reverse then base else Colors(base.bg, base.fg))
      && Modified(base, m, true, false) == (if m.reverse then Colors(base.bg, base.fg) else base)
  {
  }

  /**
   * A_BOLD touches only the foreground: for every other combination of modifiers and either
   * blink setting, the background is the same with and without A_BOLD.
   */
  lemma BoldOnlyForeground(base: Colors, m: Modifiers, reallyBlinking: bool, blinkState: bool)
    ensures Modified(base, m, reallyBlinking, blinkState).bg
      == Modified(base, m.(bold := false), reallyBlinking, blinkState).bg
  {
  }

  /**
   * The swap comes before bold, and bold touches only the foreground: with A_REVERSE and
   * A_BOLD, the base background is intensified into the foreground and the base foreground
   * becomes the background as it is.
   */
  lemma SwapBeforeBold(base: Colors, reallyBlinking: bool, blinkState: bool)
    ensures Modified(base, Modifiers(true, false, true, false), reallyBlinking, blinkState)
      == Colors(Intensified(base.bg), base.fg)
  {
  }

  /**
   * Dim comes last and compounds with bold: A_BOLD with A_DIM draws the dimmed intensified
   * foreground, and the background is only dimmed. Every channel of the foreground then lies
   * in [57, 170], a third below the [85, 255] of an intensified channel.
   */
  lemma BoldThenDim(base: Colors, reallyBlinking: bool, blinkState: bool)
    ensures var out := Modified(base, Modifiers(false, false, true, true), reallyBlinking, blinkState);
      out == Colors(Dimmed(Intensified(base.fg)), Dimmed(base.bg))
      && 57 <= Red(out.fg) <= 170 && 57 <= Green(out.fg) <= 170 && 57 <= Blue(out.fg) <= 170
  {
    DimOfIntensified(Red(base.fg));
    DimOfIntensified(Green(base.fg));
    DimOfIntensified(Blue(base.fg));
  }

  /** An intensified channel, dimmed, lies in [57, 170]. */
  lemma DimOfIntensified(c: Channel)
    ensures 57 <= DimChannel(IntensifyChannel(c)) <= 170
  {
    var i := IntensifyChannel(c);
    DimMonotone(85, i);
    DimMonotone(i, 255);
  }

  /** The bits of the background colour in direct-colour mode: `srcp >> PDC_COLOR_SHIFT`. */
  function BackgroundField(layout: AttrLayout, srcp: Chtype): Chtype
    requires layout.Valid()
  {
    Shifted(srcp, layout.colorShift)
  }

  /** The bits of the foreground colour: `srcp >> (PDC_COLOR_SHIFT + 15)`. */
  function ForegroundField(layout: AttrLayout, srcp: Chtype): Chtype
    requires layout.Valid()
  {
    Shifted(srcp, layout.colorShift + 15)
  }

  /** `srcp >> n`: a chtype shifted right stays a chtype. */
  function Shifted(srcp: Chtype, n: nat): (x: Chtype)
    ensures x <= srcp
  {
    ShiftBounds(srcp, Pow2(n));
    srcp / Pow2(n)
  }

  lemma ShiftBounds(a: nat, p: nat)
    requires p >= 1
    ensures 0 <= a / p <= a
  {
    assert a == p * (a / p) + a % p;
  }

  /**
   * In direct-colour mode the background channels are the five-bit fields of the bits from
   * PDC_COLOR_SHIFT up, red lowest, each times 8.
   */
  lemma DirectBackground(layout: AttrLayout, entries: seq<Packed>, pairContent: nat -> (int, int), srcp: Chtype)
    requires layout.Valid() && Has(srcp, layout.rgbColor) && PairInRange(layout, |entries|, pairContent, srcp)
    ensures Red(BaseColors(layout, entries, pairContent, srcp).bg) == 8 * Field5(BackgroundField(layout, srcp), 0)
    ensures Green(BaseColors(layout, entries, pairContent, srcp).bg) == 8 * Field5(BackgroundField(layout, srcp), 1)
    ensures Blue(BaseColors(layout, entries, pairContent, srcp).bg) == 8 * Field5(BackgroundField(layout, srcp), 2)
  {
    assert BaseColors(layout, entries, pairContent, srcp).bg == ExtractPackedRgb(BackgroundField(layout, srcp));
    ExtractFields(BackgroundField(layout, srcp));
  }

  /** The foreground channels likewise, from the fifteen bits above the background's. */
  lemma DirectForeground(layout: AttrLayout, entries: seq<Packed>, pairContent: nat -> (int, int), srcp: Chtype)
    requires layout.Valid() && Has(srcp, layout.rgbColor) && PairInRange(layout, |entries|, pairContent, srcp)
    ensures Red(BaseColors(layout, entries, pairContent, srcp).fg) == 8 * Field5(ForegroundField(layout, srcp), 0)
    ensures Green(BaseColors(layout, entries, pairContent, srcp).fg) == 8 * Field5(ForegroundField(layout, srcp), 1)
    ensures Blue(BaseColors(layout, entries, pairContent, srcp).fg) == 8 * Field5(ForegroundField(layout, srcp), 2)
  {
    assert BaseColors(layout, entries, pairContent, srcp).fg == ExtractPackedRgb(ForegroundField(layout, srcp));
    ExtractFields(ForegroundField(layout, srcp));
  }

  /**
   * In direct-colour mode a foreground field of 0x7c00 (all five bits of field 2 set) gives the
   * base foreground (0, 0, 248), before any modifier: field 2 is blue, and its 31 widens to 248.
   * Bits above the field are ignored.
   */
  lemma DirectBlueForeground(layout: AttrLayout, entries: seq<Packed>, pairContent: nat -> (int, int), srcp: Chtype)
    requires layout.Valid() && Has(srcp, layout.rgbColor)
    requires ForegroundField(layout, srcp) % 0x8000 == 0x7c00
    ensures PairInRange(layout, |entries|, pairContent, srcp)
    ensures BaseColors(layout, entries, pairContent, srcp).fg == Pack(0, 0, 248)
  {
    var field := ForegroundField(layout, srcp);
    HighBitsIgnored(field);
    UnpackFifteen(0, 0, 31);
    assert Fifteen(0, 0, 31) == 0x7c00;
  }

  /**
   * A white-on-black pair in the default 16-colour palette (pair entries 15 and 0) with A_BOLD
   * and no other modifier is drawn white on black: white is a fixed point of intensification.
   */
  lemma BoldWhiteOnBlack(layout: AttrLayout, bits: ColorBits, pairContent: nat -> (int, int), srcp: Chtype,
                         reallyBlinking: bool, blinkState: bool)
    requires layout.Valid() && bits.Valid()
    requires !Has(srcp, layout.rgbColor) && pairContent(PairNumber(layout, srcp)) == (15, 0)
    requires ModifiersOf(layout, srcp) == Modifiers(false, false, true, false)
    ensures PairInRange(layout, 16, pairContent, srcp)
    ensures Resolved(layout, Default(bits, 16), pairContent, srcp, reallyBlinking, blinkState) == Colors(0xffffff, 0)
  {
    AnsiWhite(bits);
    AnsiBlack(bits);
    assert BaseColors(layout, Default(bits, 16), pairContent, srcp) == Colors(0xffffff, 0);
    IntensifyWhite();
  }
}
