/**
 * The palette store: the global array PDC_rgbs of COLORS packed colours, allocated and
 * filled on first use, and the four entry points that manage it. The class below holds the
 * pointer and runs the source's loops; the datatype Store and the functions next to it are
 * the same behaviour on values, which the lemmas at the end are about.
 */
module PaletteStore {
  import opened Rgb
  import opened DefaultPalette

  /** PDC_rgbs: NULL, or an array of entries. */
  datatype Store = Unallocated | Allocated(entries: seq<Packed>)

  /** An allocated store holds exactly `colors` entries. */
  predicate Sized(s: Store, colors: nat)
  {
    s.Allocated? ==> |s.entries| == colors
  }

  /**
   * What get and set demand of idx: it indexes the array without a check, so it must be in
   * range whenever there is (or will be, after the lazy initialization) an array to index.
   */
  predicate InRange(s: Store, allocOk: bool, idx: int, colors: nat)
  {
    (s.Allocated? || allocOk) ==> 0 <= idx < colors
  }

  /** The store PDC_init_palette leaves: the default palette, or none when calloc fails. */
  function Initialized(bits: ColorBits, colors: nat, allocOk: bool): Store
    requires bits.Valid()
  {
    if allocOk then Allocated(Default(bits, colors)) else Unallocated
  }

  /** The store after the `!PDC_rgbs && PDC_init_palette()` guard that opens get and set. */
  function Ensured(s: Store, bits: ColorBits, colors: nat, allocOk: bool): Store
    requires bits.Valid()
  {
    if s.Allocated? then s else Initialized(bits, colors, allocOk)
  }

  /**
   * PDC_get_palette_entry: the entry at idx, initializing the palette first if need be. With
   * no palette to be had it answers white for every index but 0, and black for 0.
   */
  function GetEntry(s: Store, bits: ColorBits, colors: nat, idx: int, allocOk: bool): Packed
    requires bits.Valid() && Sized(s, colors) && InRange(s, allocOk, idx, colors)
  {
    match Ensured(s, bits, colors, allocOk)
    case Unallocated => if idx != 0 then 0xffffff else 0
    case Allocated(entries) => entries[idx]
  }

  /**
   * PDC_set_palette_entry's return value: -1 with no palette, otherwise 1 when the entry
   * already held rgb and 0 when it did not.
   */
  function SetResult(s: Store, bits: ColorBits, colors: nat, idx: int, rgb: Packed, allocOk: bool): int
    requires bits.Valid() && Sized(s, colors) && InRange(s, allocOk, idx, colors)
  {
    match Ensured(s, bits, colors, allocOk)
    case Unallocated => -1
    case Allocated(entries) => if entries[idx] == rgb then 1 else 0
  }

  /** The store PDC_set_palette_entry leaves: entry idx replaced by rgb, when there is a palette. */
  function AfterSet(s: Store, bits: ColorBits, colors: nat, idx: int, rgb: Packed, allocOk: bool): (t: Store)
    requires bits.Valid() && Sized(s, colors) && InRange(s, allocOk, idx, colors)
    ensures Sized(t, colors)
  {
    match Ensured(s, bits, colors, allocOk)
    case Unallocated => Unallocated
    case Allocated(entries) => Allocated(entries[idx := rgb])
  }

  /** The first n entries of s hold the default palette, the rest are still zero. */
  ghost predicate Filled(bits: ColorBits, s: seq<Packed>, n: int)
    requires bits.Valid()
  {
    forall k :: 0 <= k < |s| ==> s[k] == if k < n then DefaultEntry(bits, k) else 0
  }

  /** Writing the default entry at n, the first entry still zero, fills one more. */
  lemma FillStep(bits: ColorBits, s: seq<Packed>, n: int, t: seq<Packed>)
    requires bits.Valid() && Filled(bits, s, n) && 0 <= n < |s|
    requires |t| == |s| && t[n] == DefaultEntry(bits, n)
    requires forall k :: 0 <= k < |s| && k != n ==> t[k] == s[k]
    ensures Filled(bits, t, n + 1)
  {
  }

  /** The palette state of the library: the header constants and the pointer PDC_rgbs. */
  class Palette {
    /** COLORS, the number of colours the terminal reports. */
    const colors: nat
    /** COLOR_RED, COLOR_GREEN and COLOR_BLUE. */
    const bits: ColorBits
    var rgbs: array?<Packed>

    ghost predicate Valid()
      reads this
    {
      bits.Valid() && (rgbs != null ==> rgbs.Length == colors)
    }

    ghost function Model(): (s: Store)
      reads this, rgbs
      ensures Valid() ==> Sized(s, colors)
    {
      if rgbs == null then Unallocated else Allocated(rgbs[..])
    }

    /** The library starts with no palette. */
    constructor (colors: nat, bits: ColorBits)
      requires bits.Valid()
      ensures Valid() && this.colors == colors && this.bits == bits
      ensures Model() == Unallocated
    {
      this.colors := colors;
      this.bits := bits;
      rgbs := null;
    }

    /** The first n entries of a hold the default palette, the rest are still zero. */
    ghost predicate FilledUpTo(a: array<Packed>, n: int)
      requires bits.Valid()
      reads a
    {
      Filled(bits, a[..], n)
    }

    /**
     * PDC_init_palette: allocate a zeroed array of COLORS entries (allocOk says whether
     * calloc succeeds) and fill it with the ANSI colours, the colour cube and the grey ramp,
     * each cut off at COLORS. Returns 0, or -1 when the allocation fails.
     */
    method InitPalette(allocOk: bool) returns (rval: int)
      requires Valid()
      modifies this
      ensures Valid()
      ensures rval == (if allocOk then 0 else -1)
      ensures Model() == Initialized(bits, colors, allocOk)
      ensures rgbs != null ==> fresh(rgbs)
    {
      if !allocOk {
        rgbs := null;
        return -1;
      }
      var a := new Packed[colors](_ => 0);
      rgbs := a;
      var i := FillAnsi(a);
      i := FillCube(a, i);
      FillGreys(a);
      assert a[..] == Default(bits, colors) by {
        forall k | 0 <= k < colors
          ensures a[k] == DefaultEntry(bits, k)
        {
          if k >= 256 {
            BeyondGreysBlack(bits, k);
          }
        }
      }
      return 0;
    }

    /** The first loop of PDC_init_palette: the ANSI colours 0..15 (as many as fit). */
    method FillAnsi(a: array<Packed>) returns (i: int)
      requires bits.Valid() && a.Length == colors && FilledUpTo(a, 0)
      modifies a
      ensures i == Min(colors, 16) && FilledUpTo(a, i)
    {
      i := 0;
      while i < 16 && i < colors
        invariant 0 <= i <= 16 && i <= colors
        invariant FilledUpTo(a, i)
      {
        var intensity := if HasBit(i, 8) then 0xff else 0xc0;
        ghost var before := a[..];
        a[i] := Pack(if HasBit(i, bits.red) then intensity else 0,
                     if HasBit(i, bits.green) then intensity else 0,
                     if HasBit(i, bits.blue) then intensity else 0);
        assert a[i] == AnsiColor(bits, i);
        assert DefaultEntry(bits, i) == AnsiColor(bits, i);
        FillStep(bits, before, i, a[..]);
        i := i + 1;
      }
    }

    /**
     * The second loop of PDC_init_palette: the colour cube, r outermost and b innermost,
     * written at consecutive indices from i for as long as they are below COLORS.
     */
    method FillCube(a: array<Packed>, i0: int) returns (i: int)
      requires bits.Valid() && a.Length == colors
      requires i0 == Min(colors, 16) && FilledUpTo(a, i0)
      modifies a
      ensures i == Min(colors, 232) && FilledUpTo(a, i)
    {
      i := i0;
      var r := 0;
      while r < 6
        invariant 0 <= r <= 6
        invariant i == Min(colors, 16 + 36 * r)
        invariant FilledUpTo(a, i)
      {
        var g := 0;
        while g < 6
          invariant 0 <= g <= 6
          invariant i == Min(colors, 16 + 36 * r + 6 * g)
          invariant FilledUpTo(a, i)
        {
          var b := 0;
          while b < 6
            invariant 0 <= b <= 6
            invariant i == Min(colors, 16 + 36 * r + 6 * g + b)
            invariant FilledUpTo(a, i)
          {
            if i < colors {
              CubeEntry(bits, r, g, b);
              ghost var before := a[..];
              a[i] := Pack(if r != 0 then r * 40 + 55 else 0,
                           if g != 0 then g * 40 + 55 else 0,
                           if b != 0 then b * 40 + 55 else 0);
              FillStep(bits, before, i, a[..]);
              i := i + 1;
            }
            b := b + 1;
          }
          g := g + 1;
        }
        r := r + 1;
      }
    }

    /** The third loop of PDC_init_palette: the grey ramp at 232..255, where it fits. */
    method FillGreys(a: array<Packed>)
      requires bits.Valid() && a.Length == colors && FilledUpTo(a, Min(colors, 232))
      modifies a
      ensures FilledUpTo(a, Min(colors, 256))
    {
      var i := 0;
      while i < 24
        invariant 0 <= i <= 24
        invariant FilledUpTo(a, Min(colors, 232 + i))
      {
        if i + 232 < colors {
          GreyEntry(bits, i);
          ghost var before := a[..];
          a[i + 232] := Pack(i * 10 + 8, i * 10 + 8, i * 10 + 8);
          FillStep(bits, before, i + 232, a[..]);
        }
        i := i + 1;
      }
    }

    /** PDC_free_palette: release the array, if any, and forget it. */
    method FreePalette()
      requires Valid()
      modifies this
      ensures Valid()
      ensures rgbs == null && Model() == Unallocated
    {
      rgbs := null;
    }

    /** PDC_get_palette_entry. */
    method GetPaletteEntry(idx: int, allocOk: bool) returns (rval: Packed)
      requires Valid() && InRange(Model(), allocOk, idx, colors)
      modifies this
      ensures Valid()
      ensures rval == GetEntry(old(Model()), bits, colors, idx, allocOk)
      ensures Model() == Ensured(old(Model()), bits, colors, allocOk)
      ensures old(rgbs) != null ==> rgbs == old(rgbs)
      ensures old(rgbs) == null && rgbs != null ==> fresh(rgbs)
    {
      var failed := false;
      if rgbs == null {
        var e := InitPalette(allocOk);
        failed := e != 0;
      }
      if failed {
        rval := if idx != 0 then 0xffffff else 0;
      } else {
        rval := rgbs[idx];
      }
    }

    /** PDC_set_palette_entry: returns -1 with no palette, else 1 if unchanged and 0 if changed. */
    method SetPaletteEntry(idx: int, rgb: Packed, allocOk: bool) returns (rval: int)
      requires Valid() && InRange(Model(), allocOk, idx, colors)
      modifies this, rgbs
      ensures Valid()
      ensures rval == SetResult(old(Model()), bits, colors, idx, rgb, allocOk)
      ensures Model() == AfterSet(old(Model()), bits, colors, idx, rgb, allocOk)
      ensures old(rgbs) != null ==> rgbs == old(rgbs)
      ensures old(rgbs) == null && rgbs != null ==> fresh(rgbs)
    {
      var failed := false;
      if rgbs == null {
        var e := InitPalette(allocOk);
        failed := e != 0;
      }
      if failed {
        rval := -1;
      } else {
        rval := if rgbs[idx] == rgb then 1 else 0;
        rgbs[idx] := rgb;
      }
    }
  }

  function Min(a: int, b: int): int
  {
    if a < b then a else b
  }

  /** Without a palette, get initializes one and answers from the defaults. */
  lemma GetInitializesLazily(bits: ColorBits, colors: nat, idx: int)
    requires bits.Valid() && 0 <= idx < colors
    ensures GetEntry(Unallocated, bits, colors, idx, true) == DefaultEntry(bits, idx)
    ensures Ensured(Unallocated, bits, colors, true) == Allocated(Default(bits, colors))
  {
  }

  /** When no palette can be allocated, get answers black for colour 0 and white for all others. */
  lemma GetWithoutPalette(bits: ColorBits, colors: nat, idx: int)
    requires bits.Valid()
    ensures GetEntry(Unallocated, bits, colors, idx, false) == (if idx == 0 then 0 else 0xffffff)
    ensures Ensured(Unallocated, bits, colors, false) == Unallocated
  {
  }

  /** An allocated palette answers get with its own entry and is left as it is. */
  lemma GetFromPalette(s: Store, bits: ColorBits, colors: nat, idx: int, allocOk: bool)
    requires bits.Valid() && s.Allocated? && Sized(s, colors) && 0 <= idx < colors
    ensures GetEntry(s, bits, colors, idx, allocOk) == s.entries[idx]
    ensures Ensured(s, bits, colors, allocOk) == s
  {
  }

  /**
   * The three results of set. -1 comes back exactly when there is no palette and none can be
   * allocated, and then nothing changes. Otherwise the result is 1 exactly when get would have
   * answered rgb before the call (the value was already there), and 0 when get would have
   * answered something else (the entry was changed).
   */
  lemma SetResults(s: Store, bits: ColorBits, colors: nat, idx: int, rgb: Packed, allocOk: bool)
    requires bits.Valid() && Sized(s, colors) && InRange(s, allocOk, idx, colors)
    ensures SetResult(s, bits, colors, idx, rgb, allocOk) in {-1, 0, 1}
    ensures SetResult(s, bits, colors, idx, rgb, allocOk) == -1 <==> s.Unallocated? && !allocOk
    ensures SetResult(s, bits, colors, idx, rgb, allocOk) == -1 ==> AfterSet(s, bits, colors, idx, rgb, allocOk) == s
    ensures SetResult(s, bits, colors, idx, rgb, allocOk) == 1 <==> GetEntry(s, bits, colors, idx, allocOk) == rgb && (s.Allocated? || allocOk)
  {
  }

  /**
   * After a successful set, get answers rgb at idx and, at every other index, what it
   * answered before; it no longer needs to allocate.
   */
  lemma SetThenGet(s: Store, bits: ColorBits, colors: nat, idx: int, rgb: Packed, allocOk: bool, j: int, allocOk2: bool)
    requires bits.Valid() && Sized(s, colors) && InRange(s, allocOk, idx, colors)
    requires SetResult(s, bits, colors, idx, rgb, allocOk) != -1
    requires 0 <= j < colors
    ensures AfterSet(s, bits, colors, idx, rgb, allocOk).Allocated?
    ensures GetEntry(AfterSet(s, bits, colors, idx, rgb, allocOk), bits, colors, idx, allocOk2) == rgb
    ensures j != idx ==> GetEntry(AfterSet(s, bits, colors, idx, rgb, allocOk), bits, colors, j, allocOk2) == GetEntry(s, bits, colors, j, allocOk)
  {
  }

  /** Setting the same value twice: the second call reports it unchanged and changes nothing. */
  lemma SetTwice(s: Store, bits: ColorBits, colors: nat, idx: int, rgb: Packed, allocOk: bool, allocOk2: bool)
    requires bits.Valid() && Sized(s, colors) && InRange(s, allocOk, idx, colors)
    requires SetResult(s, bits, colors, idx, rgb, allocOk) != -1
    ensures var t := AfterSet(s, bits, colors, idx, rgb, allocOk);
      SetResult(t, bits, colors, idx, rgb, allocOk2) == 1 && AfterSet(t, bits, colors, idx, rgb, allocOk2) == t
  {
    var t := AfterSet(s, bits, colors, idx, rgb, allocOk);
    assert t.entries[idx := rgb] == t.entries;
  }
}
