# PDCursesMod colour layer, in Dafny

This project models the colour layer of PDCursesMod, `common/pdccolor.c`, and proves properties of it. The layer does four things:

- **Palette store.** It keeps the global palette `PDC_rgbs`, an array of `COLORS` packed 24-bit colours. The array is allocated on first use. `PDC_init_palette` fills it with xterm's 256-colour defaults: 16 ANSI colours, a 6 x 6 x 6 colour cube and a 24-step grey ramp. `PDC_free_palette` drops it. `PDC_get_palette_entry` and `PDC_set_palette_entry` read and write single entries.
- **Transforms.** `intensified_color` is the bold mapping and `dimmed_color` the dim mapping. Both work one 8-bit channel at a time.
- **Unpacker.** `extract_packed_rgb` widens a 5-5-5 direct colour to 8-8-8.
- **Compositor.** `PDC_get_rgb_values` turns a cell's attribute word into a foreground and a background colour.

The files follow that split:

- `rgb.dfy` (module `Rgb`): `PACK_RGB` and the channels of a packed colour. A `PACKED_RGB` is a number in [0, 2^32). Because the three 8-bit fields never overlap, `|`, `<<`, `>>` and `& 0xff` are written as `+`, `*`, `/` and `%`.
- `transforms.dfy` (module `ColorTransforms`): each transform is a pure function of one channel, lifted to a packed colour. The source's three-step loop is a method proved to compute that function.
- `default_palette.dfy` (module `DefaultPalette`): the default palette as a function of the index, with `COLOR_RED`, `COLOR_GREEN` and `COLOR_BLUE` as parameters.
- `palette_store.dfy` (module `PaletteStore`):
  - the class `Palette` holds the pointer `PDC_rgbs` as a nullable array;
  - its methods run the source's fill loops and the four entry points;
  - the value-level `Store` datatype and its functions give the same behaviour on sequences, and the lemmas are stated about them.
- `direct_color.dfy` (module `DirectColor`): the unpacker and its inverse. A chtype is a number in [0, 2^64).
- `compositor.dfy` (module `Compositor`): the function `Resolved` states the colours a cell is drawn in, stage by stage. The method `GetRgbValues` follows the source's sequence of assignments and is proved to reach `Resolved`.

Where the code and its comments disagree, the model follows the code. The comment above `PDC_set_palette_entry` (common/pdccolor.c:72-73) says it returns 0 when the colour did not change and 1 when it did. The code (common/pdccolor.c:83) does the opposite: 1 when the old entry already equalled the new one, 0 otherwise. `SetResult`, `SetPaletteEntry` and `SetResults` state the code's behaviour.

A note on the direct-colour layout: the unpacker puts red in bits 0..4, green in bits 5..9 and blue in bits 10..14 of each fifteen-bit field (common/pdccolor.c:143-145). A field of `0b11111_00000_00000` is therefore pure blue, (0, 0, 248), before any modifier is applied. `DirectBlueForeground` proves this for the foreground field.

## Model

| member | source | states |
|---|---|---|
| Rgb.Pack | common/pdccolor.c:13 | PACK_RGB of three 8-bit channels: red in the low byte, green above it, blue above that; the result never uses the top byte |
| Rgb.PackChannels | common/pdccolor.c:13 | reading the red, green and blue channels back out of PACK_RGB gives the channels put in, and the top byte is 0 |
| Rgb.UnpackPack | common/pdccolor.c:13 | every packed colour with a clear top byte is the PACK_RGB of its own three channels |
| Rgb.PackInjective | common/pdccolor.c:13 | PACK_RGB is injective: equal packed colours have equal channels |
| Rgb.ShiftStep | common/pdccolor.c:106-108 | at step i of the channel loops, the low byte of the shifted input is channel i, and shifting by 8 more gives the value for step i + 1 |
| ColorTransforms.IntensifyChannel | common/pdccolor.c:108-112 | an intensified channel lies in [85, 255] and is at least the input; it is 255 exactly when the input is at least 192 |
| ColorTransforms.DimChannel | common/pdccolor.c:128-130 | a dimmed channel is at most the input, strictly less from 3 up, equal for 0, 1 and 2, and 0 only for 0 |
| ColorTransforms.Intensified | common/pdccolor.c:101-116 | the intensified colour has top byte 0 and each channel is the intensified input channel |
| ColorTransforms.Dimmed | common/pdccolor.c:121-134 | the dimmed colour has top byte 0 and each channel is the dimmed input channel |
| ColorTransforms.IntensifiedColor | common/pdccolor.c:101-116 | the source's loop (mask, remap, OR into place, shift by 8) returns exactly the intensified colour |
| ColorTransforms.DimmedColor | common/pdccolor.c:121-134 | the source's loop with `rgb -= rgb / 3` returns exactly the dimmed colour |
| ColorTransforms.TransformsIgnoreTopByte | common/pdccolor.c:106-108 | both transforms ignore the input's top byte |
| ColorTransforms.IntensifyMonotone | common/pdccolor.c:109-112 | intensifying is monotone: a brighter channel never maps to a darker one |
| ColorTransforms.DimMonotone | common/pdccolor.c:130 | dimming is monotone |
| ColorTransforms.IntensifySaturates | common/pdccolor.c:109-110 | a colour whose channels are all at least 192 intensifies to white, and intensifying again changes nothing |
| ColorTransforms.IntensifyWhite | common/pdccolor.c:109-110 | white intensifies to white |
| ColorTransforms.DimTimesDecreases | common/pdccolor.c:130 | repeated dimming never brightens, loses at least one level per step until the channel is at most 2, and after c steps is at most 2 |
| DefaultPalette.HasBitIsBitwiseAnd | common/pdccolor.c:33-37 | the arithmetic bit test on an ANSI colour number agrees with C's `i & mask` |
| DefaultPalette.DefaultEntry | common/pdccolor.c:31-50 | entry i of init's palette: ANSI colour below 16, cube colour ((i-16)/36, (i-16)/6%6, (i-16)%6) up to 231, grey i-232 up to 255, else 0; its channels are stated by DefaultChannels |
| DefaultPalette.DefaultChannels | common/pdccolor.c:28-50 | every entry i < COLORS of the default palette, channel by channel: the ANSI rule below 16, the cube levels of i's (r, g, b) for 16..231, all channels 10(i-232)+8 for 232..255, and 0 from 256 up |
| DefaultPalette.AnsiEntry | common/pdccolor.c:31-38 | for i < 16, a channel of entry i is nonzero exactly when its colour bit is set in i, and a nonzero channel is 0xff for i >= 8 and 0xc0 otherwise |
| DefaultPalette.BrightBit | common/pdccolor.c:33 | the bit of value 8 (bit 3, `i & 8`) of an ANSI colour number is set exactly for 8..15 |
| DefaultPalette.AnsiBlack | common/pdccolor.c:31-38 | ANSI colour 0 is black for either channel order |
| DefaultPalette.AnsiLightGrey | common/pdccolor.c:31-38 | ANSI colour 7 is 0xc0c0c0 for either channel order |
| DefaultPalette.AnsiWhite | common/pdccolor.c:31-38 | ANSI colour 15 is 0xffffff for either channel order |
| DefaultPalette.AnsiChannelOrder | common/pdccolor.c:35-37 | with COLOR_RED 1, COLOR_GREEN 2, COLOR_BLUE 4, colour 1 is dark red (0xc0, 0, 0) and colour 4 dark blue; with the BGR order (4, 2, 1) the two are exchanged |
| DefaultPalette.CubeEntry | common/pdccolor.c:41-47 | entry 16 + 36r + 6g + b is cube colour (r, g, b), whose channels are 0 for level 0 and 40l + 55 otherwise |
| DefaultPalette.CubeLevelIncreasing | common/pdccolor.c:45-47 | cube levels increase strictly with the level number |
| DefaultPalette.LevelInjective | common/pdccolor.c:45-47 | two levels with the same intensity are the same level |
| DefaultPalette.CubeEntriesDistinct | common/pdccolor.c:41-47 | the 216 cube entries are pairwise different colours |
| DefaultPalette.GreyEntry | common/pdccolor.c:48-50 | entry 232 + s is a neutral grey with every channel 10s + 8, each step 10 lighter than the one before |
| DefaultPalette.GreyRampBounds | common/pdccolor.c:50 | the grey ramp stays within 8..238 |
| DefaultPalette.GreysNotInCube | common/pdccolor.c:41-50 | no grey of the ramp is one of the six greys of the cube, (l, l, l) for l < 6 |
| DefaultPalette.BeyondGreysBlack | common/pdccolor.c:28-50 | no loop writes entries 256 and above, so they keep calloc's zero |
| DefaultPalette.DefaultPrefix | common/pdccolor.c:31-49 | a palette of fewer colours is a prefix of a larger one, so with COLORS < 16 only ANSI entries are written |
| PaletteStore.GetEntry | common/pdccolor.c:61-70 | get on values: the entry at idx of the store after the lazy-init guard, or 0 for idx 0 and 0xffffff otherwise when no palette can be had; its properties are GetInitializesLazily, GetWithoutPalette and GetFromPalette |
| PaletteStore.SetResult | common/pdccolor.c:75-87 | set's return value on values: -1 with no palette to be had, else 1 when the entry already held rgb and 0 when not; SetResults states its cases |
| PaletteStore.AfterSet | common/pdccolor.c:75-87 | the store set leaves: entry idx replaced by rgb when there is a palette, nothing stored otherwise; it keeps COLORS entries, and SetThenGet and SetTwice state the round trip |
| PaletteStore.Palette.constructor | common/pdccolor.c:22 | the library starts with no palette |
| PaletteStore.Palette.InitPalette | common/pdccolor.c:24-52 | init returns 0 and installs a fresh array holding the default palette, or returns -1 and leaves no palette when calloc fails |
| PaletteStore.Palette.FillAnsi | common/pdccolor.c:31-38 | the first loop fills entries below min(COLORS, 16) with the ANSI colours and leaves the rest zero |
| PaletteStore.Palette.FillCube | common/pdccolor.c:41-47 | the nested loops, sharing the running index i, fill entries up to min(COLORS, 232) with the cube |
| PaletteStore.Palette.FillGreys | common/pdccolor.c:48-50 | the last loop fills entries up to min(COLORS, 256) with the grey ramp |
| PaletteStore.Palette.FreePalette | common/pdccolor.c:54-59 | free always leaves the store unallocated, so a second free changes nothing |
| PaletteStore.Palette.GetPaletteEntry | common/pdccolor.c:61-70 | get returns the entry after lazily initializing, or 0 for index 0 and 0xffffff otherwise when no palette can be allocated |
| PaletteStore.Palette.SetPaletteEntry | common/pdccolor.c:75-87 | set returns -1 with no palette to be had, otherwise 1 if the entry already held rgb and 0 if not, and stores rgb at idx |
| PaletteStore.GetInitializesLazily | common/pdccolor.c:65-68 | get on an unallocated store with allocation succeeding answers the default entry and leaves the default palette in place |
| PaletteStore.GetWithoutPalette | common/pdccolor.c:65-66 | when allocation fails, get answers 0 for index 0 and 0xffffff otherwise, and the store stays unallocated |
| PaletteStore.GetFromPalette | common/pdccolor.c:65-68 | an allocated store answers get with its own entry and is left unchanged |
| PaletteStore.SetResults | common/pdccolor.c:79-86 | set returns -1, 0 or 1; -1 exactly when there is no palette and none can be allocated, with nothing stored; 1 exactly when get would already have answered rgb |
| PaletteStore.SetThenGet | common/pdccolor.c:79-86 | after a successful set the store is allocated, get answers rgb at idx, and every other index answers what it did before |
| PaletteStore.SetTwice | common/pdccolor.c:83-84 | setting the same value again reports it unchanged and changes nothing |
| DirectColor.ExtractPackedRgb | common/pdccolor.c:141-148 | the unpacked colour has top byte 0 |
| DirectColor.ExtractFields | common/pdccolor.c:143-147 | red, green and blue are bit fields 0..4, 5..9 and 10..14 of the argument, each times 8 |
| DirectColor.ExtractBounds | common/pdccolor.c:143-147 | every unpacked channel is a multiple of 8 and at most 248 |
| DirectColor.HighBitsIgnored | common/pdccolor.c:143-145 | bits above bit 14 of the argument are ignored |
| DirectColor.UnpackFifteen | common/pdccolor.c:141-148 | unpacking the 15-bit colour built from fields (r, g, b) gives PACK_RGB(8r, 8g, 8b) |
| DirectColor.NarrowUnpack | common/pdccolor.c:141-148 | narrowing an unpacked colour back to 15 bits gives the low 15 bits of the argument, so nothing is lost |
| DirectColor.UnpackNarrow | common/pdccolor.c:141-148 | a colour with top byte 0 and channels in steps of 8 survives narrowing and unpacking unchanged |
| Compositor.PairNumber | common/pdccolor.c:154 | the pair number passed to the pair table fits in 16 bits |
| Compositor.BaseColors | common/pdccolor.c:165-173 | outside direct-colour mode both base colours are entries of the palette |
| Compositor.Swaps | common/pdccolor.c:155-182 | the colours are swapped when A_REVERSE is set, flipped by A_BLINK on a really blinking terminal in the "on" phase |
| Compositor.BoldBackground | common/pdccolor.c:175-178 | the background is intensified for A_BLINK on a terminal that cannot blink |
| Compositor.Modified | common/pdccolor.c:175-198 | the modifier stages in the source's order: swap, bold on the foreground, blink-as-bold on the background, then dim on both; the lemmas below state what each combination does |
| Compositor.Resolved | common/pdccolor.c:151-198 | the colours of a cell: its base colours with its own modifiers applied by Modified |
| Compositor.GetRgbValues | common/pdccolor.c:151-199 | the out-values are the cell's resolved colours: base colours, then the blink rule, swap, bold, blink-as-bold background and dim, in that order |
| Compositor.NoModifiers | common/pdccolor.c:175-198 | with no reverse, blink, bold or dim, the output is the base colours |
| Compositor.ReverseOnly | common/pdccolor.c:182-188 | reverse alone swaps exactly the base foreground and background |
| Compositor.BlinkWithoutBlinking | common/pdccolor.c:175-181 | on a terminal that cannot blink, blink never swaps, does not depend on the blink phase, intensifies the post-swap background (then dim applies), and leaves the foreground as it would be without blink |
| Compositor.BlinkPhaseFlipsReverse | common/pdccolor.c:179-188 | for every combination of modifiers, with real blinking: in the "on" phase a blinking cell is drawn as the cell without blink and with reverse flipped, in the "off" phase as the cell without blink; with neither bold nor dim this is the base colours, swapped unless reverse is set in the "on" phase and swapped exactly when it is set in the "off" phase |
| Compositor.BoldOnlyForeground | common/pdccolor.c:190-191 | for every combination of modifiers and blink settings, bold leaves the background as it is without bold |
| Compositor.SwapBeforeBold | common/pdccolor.c:182-191 | with reverse and bold, the base background is intensified into the foreground and the base foreground becomes the background unchanged |
| Compositor.BoldThenDim | common/pdccolor.c:190-198 | bold with dim gives dim(intensify(fg)) and dim(bg), with every foreground channel in [57, 170] |
| Compositor.DimOfIntensified | common/pdccolor.c:190-197 | a channel intensified and then dimmed lies in [57, 170] |
| Compositor.DirectBackground | common/pdccolor.c:162 | in direct-colour mode the background channels are the 5-bit fields of `srcp >> PDC_COLOR_SHIFT`, each times 8 |
| Compositor.DirectForeground | common/pdccolor.c:163 | in direct-colour mode the foreground channels are the 5-bit fields of `srcp >> (PDC_COLOR_SHIFT + 15)`, each times 8 |
| Compositor.DirectBlueForeground | common/pdccolor.c:159-163 | a foreground field whose low 15 bits are 0x7c00 gives the base foreground (0, 0, 248), before any modifier is applied: the top field is blue |
| Compositor.BoldWhiteOnBlack | common/pdccolor.c:170-191 | in the default 16-colour palette, pair (15, 0) with bold alone is drawn white on black |

## Left out

- Memory management: `calloc` and `free` are not modelled as heap behaviour. Whether `calloc` succeeds is the parameter `allocOk`, and free only forgets the pointer.
- Header constants: `curspriv.h` and `curses.h` are not part of this model.
  - `COLORS` and the bits `COLOR_RED`, `COLOR_GREEN` and `COLOR_BLUE` are parameters of a `Palette`. The bits are required to be distinct members of {1, 2, 4}.
  - `A_COLOR`, `PDC_COLOR_SHIFT`, `A_REVERSE`, `A_BLINK`, `A_BOLD`, `A_DIM` and `A_RGB_COLOR` are the parameter `AttrLayout`. `A_COLOR` is a contiguous field. Each flag is one bit, given by its position.
- `PDC_pair_content`, the colour-pair table, is a function parameter. Its indices are required to be valid palette indices. Its own behaviour is not part of this model.
- `PDC_blink_state` and `PDC_really_blinking` are inputs of `GetRgbValues`. Their updates elsewhere are not modelled.
- Preprocessor: the `NO_STDINT_H` shims are not modelled. The `CHTYPE_LONG >= 2` branch of `PDC_get_rgb_values` is always compiled in, with a 64-bit chtype.
- Unchecked indices: `get` and `set` do not check `idx`, and an out-of-range index is undefined behaviour in C. It is a precondition here (`InRange`).
- `GetRgbValues` indexes `PDC_rgbs` without the lazy initialization, so it requires an allocated palette.
- GetRgbValues: the out-pointers `foreground_rgb` and `background_rgb` become two return values. The case where both pointers name the same variable is not modelled.
- Compositor.PairNumber: the `(int)` and `(short)` casts are modelled as keeping the low 16 bits, as a number in 0..65535. Reading those bits as a signed short is left to the pair table.
- Bitwise operations on `PACKED_RGB` and chtype are modelled as arithmetic on non-negative integers, because no field overlaps another. Bit patterns outside the masks are covered by `HighBitsIgnored` and `TransformsIgnoreTopByte`.
