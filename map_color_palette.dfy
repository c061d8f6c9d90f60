/**
 * `MapColorPalette`: a lookup table from 24-bit RGB colours to map colour
 * ids. Two colours that differ only in bit 0x80 of blue share one byte of
 * the table: the colour with that bit clear keeps its id in the high
 * nibble, the one with it set in the low nibble.
 *
 * Bytes are `bv8`. A colour id is the low eight bits of `MapColor.getId()`,
 * which is all that a compound assignment into a byte keeps of it. The
 * nearest map colour of each RGB colour (a floating-point search) is an
 * input function.
 */
module MapColorPalettes {

  /** `128 * 256 * 256`: one byte per pair of colours. */
  const PaletteLength := 8388608

  /**
   * `getPaletteKey(r, g, b)`: `((r & 0xFF) << 15) | ((g & 0xFF) << 7) | (b & 0x7F)`.
   * On two's complement integers `& 0xFF` and `& 0x7F` are the (never
   * negative) remainders by 256 and 128, and OR of the three disjoint
   * bit fields is their sum.
   */
  function PaletteKey(r: int, g: int, b: int): (k: int)
    ensures 0 <= k < PaletteLength
  {
    (r % 256) * 32768 + (g % 256) * 128 + b % 128
  }

  /** The red, green and low blue bits a key holds. */
  function KeyRed(k: int): int { k / 32768 }
  function KeyGreen(k: int): int { (k / 128) % 256 }
  function KeyBlue(k: int): int { k % 128 }

  /** A key gives back the red, green and low seven blue bits it was built from. */
  lemma KeyFields(r: int, g: int, b: int)
    ensures KeyRed(PaletteKey(r, g, b)) == r % 256
    ensures KeyGreen(PaletteKey(r, g, b)) == g % 256
    ensures KeyBlue(PaletteKey(r, g, b)) == b % 128
  {
    var k := PaletteKey(r, g, b);
    assert k == (r % 256) * 32768 + ((g % 256) * 128 + b % 128);
    assert (g % 256) * 128 + b % 128 < 32768;
    assert k / 128 == (r % 256) * 256 + g % 256;
  }

  /**
   * Two colours share a key exactly when they agree on red and green modulo
   * 256 and on blue modulo 128: the key is injective on 0..255 x 0..255 x
   * 0..127, and b and b ^ 0x80 share one slot.
   */
  lemma KeyEqual(r: int, g: int, b: int, r': int, g': int, b': int)
    ensures PaletteKey(r, g, b) == PaletteKey(r', g', b')
        <==> r % 256 == r' % 256 && g % 256 == g' % 256 && b % 128 == b' % 128
  {
    KeyFields(r, g, b);
    KeyFields(r', g', b');
  }

  /** The fields of a slot are a red, a green and a low seven-bit blue component. */
  lemma KeyFieldRanges(k: int)
    requires 0 <= k < PaletteLength
    ensures 0 <= KeyRed(k) < 256 && 0 <= KeyGreen(k) < 256 && 0 <= KeyBlue(k) < 128
  {
  }

  /** Every slot is the key of the colour its fields name. */
  lemma KeyOfFields(k: int)
    requires 0 <= k < PaletteLength
    ensures PaletteKey(KeyRed(k), KeyGreen(k), KeyBlue(k)) == k
  {
    assert k == (k / 128) * 128 + k % 128;
    assert k / 128 == (k / 32768) * 256 + (k / 128) % 256;
  }

  /** `(b & 0x80) == 0x80`: bit 7 of the blue component is set. */
  predicate HasBit7(b: int)
  {
    b % 256 >= 128
  }

  /**
   * What generating the palette ORs into the slot of blue component b: the id
   * itself when bit 7 of b is set, the id shifted left by four (truncated to
   * a byte) otherwise.
   */
  function Contribution(id: bv8, b: int): bv8
  {
    if HasBit7(b) then id else id << 4
  }

  /** A slot after both of its colours are written: the bit-7-clear id shifted up, ORed with the bit-7-set id. */
  function PackedSlot(hi: bv8, lo: bv8): bv8
  {
    (hi << 4) | lo
  }

  /**
   * Colour (r', g', b') is handled before colour (r, g, b): the generation
   * loops run over r, then g, then b, each from 0 to 255.
   */
  predicate Before(r': int, g': int, b': int, r: int, g: int, b: int)
  {
    r' < r || (r' == r && (g' < g || (g' == g && b' < b)))
  }

  /** The key of a colour whose components are already in range, blue below 128. */
  function Key(r: int, g: int, b: int): int
  {
    r * 32768 + g * 128 + b
  }

  /** On in-range components the masks of `getPaletteKey` only drop blue bit 7. */
  lemma PaletteKeyInRange(r: int, g: int, b: int)
    requires 0 <= r < 256 && 0 <= g < 256 && 0 <= b < 256
    ensures PaletteKey(r, g, b) == Key(r, g, b % 128)
  {
  }

  /** Distinct in-range colours with blue below 128 have distinct keys. */
  lemma KeyInjective(r: int, g: int, b: int, r': int, g': int, b': int)
    requires 0 <= r < 256 && 0 <= g < 256 && 0 <= b < 128
    requires 0 <= r' < 256 && 0 <= g' < 256 && 0 <= b' < 128
    requires Key(r, g, b) == Key(r', g', b')
    ensures r == r' && g == g' && b == b'
  {
    KeyEqual(r, g, b, r', g', b');
  }

  /**
   * The slot of colour (r', g', b'), b' below 128, once every colour before
   * (r, g, b) is handled: its two colours contribute in loop order, first the
   * id of (r', g', b') shifted up, then the id of (r', g', b' + 128) as it is.
   */
  function SlotAfter(nearest: (int, int, int) -> bv8, r': int, g': int, b': int, r: int, g: int, b: int): bv8
  {
    (if Before(r', g', b', r, g, b) then nearest(r', g', b') << 4 else 0)
      | (if Before(r', g', b' + 128, r, g, b) then nearest(r', g', b' + 128) else 0)
  }

  /** s is the palette once every colour before (r, g, b) is handled. */
  ghost predicate PaletteAfter(nearest: (int, int, int) -> bv8, s: seq<bv8>, r: int, g: int, b: int)
  {
    && |s| == PaletteLength
    && forall r', g', b' :: 0 <= r' < 256 && 0 <= g' < 256 && 0 <= b' < 128 ==>
         s[Key(r', g', b')] == SlotAfter(nearest, r', g', b', r, g, b)
  }

  /**
   * One iteration of the generation loop ORs the contribution of colour
   * (r, g, b) into the slot of its key, and that slot alone changes.
   */
  lemma PaletteStep(nearest: (int, int, int) -> bv8, s: seq<bv8>, r: int, g: int, b: int)
    requires 0 <= r < 256 && 0 <= g < 256 && 0 <= b < 256
    requires PaletteAfter(nearest, s, r, g, b)
    ensures var key := Key(r, g, b % 128);
      PaletteAfter(nearest, s[key := s[key] | Contribution(nearest(r, g, b), b)], r, g, b + 1)
  {
    var key := Key(r, g, b % 128);
    var s' := s[key := s[key] | Contribution(nearest(r, g, b), b)];
    forall r', g', b' | 0 <= r' < 256 && 0 <= g' < 256 && 0 <= b' < 128
      ensures s'[Key(r', g', b')] == SlotAfter(nearest, r', g', b', r, g, b + 1)
    {
      if Key(r', g', b') == key {
        KeyInjective(r', g', b', r, g, b % 128);
        if b >= 128 {
          assert b % 128 + 128 == b;
        }
      } else if r' == r && g' == g {
        assert b' != b % 128;
        if b >= 128 {
          assert b' + 128 != b;
        }
      }
    }
  }

  /** Finishing the blue values of (r, g) is starting those of (r, g + 1). */
  lemma RowDone(nearest: (int, int, int) -> bv8, s: seq<bv8>, r: int, g: int)
    requires PaletteAfter(nearest, s, r, g, 256)
    ensures PaletteAfter(nearest, s, r, g + 1, 0)
  {
    forall r', g', b' | 0 <= r' < 256 && 0 <= g' < 256 && 0 <= b' < 128
      ensures s[Key(r', g', b')] == SlotAfter(nearest, r', g', b', r, g + 1, 0)
    {
      assert SlotAfter(nearest, r', g', b', r, g, 256) == SlotAfter(nearest, r', g', b', r, g + 1, 0);
    }
  }

  /** Finishing the green values of r is starting those of r + 1. */
  lemma PlaneDone(nearest: (int, int, int) -> bv8, s: seq<bv8>, r: int)
    requires PaletteAfter(nearest, s, r, 256, 0)
    ensures PaletteAfter(nearest, s, r + 1, 0, 0)
  {
    forall r', g', b' | 0 <= r' < 256 && 0 <= g' < 256 && 0 <= b' < 128
      ensures s[Key(r', g', b')] == SlotAfter(nearest, r', g', b', r + 1, 0, 0)
    {
      assert SlotAfter(nearest, r', g', b', r, 256, 0) == SlotAfter(nearest, r', g', b', r + 1, 0, 0);
    }
  }

  /**
   * The body of the innermost generation loop: OR the id of colour (r, g, b)
   * into its slot, as it is when blue bit 7 is set, shifted up otherwise.
   */
  method Store(nearest: (int, int, int) -> bv8, palette: array<bv8>, r: int, g: int, b: int)
    requires 0 <= r < 256 && 0 <= g < 256 && 0 <= b < 256
    requires PaletteAfter(nearest, palette[..], r, g, b)
    modifies palette
    ensures PaletteAfter(nearest, palette[..], r, g, b + 1)
  {
    ghost var before := palette[..];
    var key := PaletteKey(r, g, b);
    PaletteKeyInRange(r, g, b);
    var id := nearest(r, g, b);
    if HasBit7(b) {
      palette[key] := palette[key] | id;
    } else {
      palette[key] := palette[key] | (id << 4);
    }
    assert palette[..] == before[key := before[key] | Contribution(id, b)];
    PaletteStep(nearest, before, r, g, b);
  }

  /** The innermost generation loop: the 256 blue values of red r and green g. */
  method FillRow(nearest: (int, int, int) -> bv8, palette: array<bv8>, r: int, g: int)
    requires 0 <= r < 256 && 0 <= g < 256
    requires PaletteAfter(nearest, palette[..], r, g, 0)
    modifies palette
    ensures PaletteAfter(nearest, palette[..], r, g + 1, 0)
  {
    var b := 0;
    while b < 256
      invariant 0 <= b <= 256
      invariant PaletteAfter(nearest, palette[..], r, g, b)
    {
      Store(nearest, palette, r, g, b);
      b := b + 1;
    }
    RowDone(nearest, palette[..], r, g);
  }

  /**
   * The packing loop of `generatePaletteFile`, with the nearest map colour of
   * each colour given: a fresh all-zero palette into which every colour's id
   * is ORed at its key. Each slot ends up holding the id of its colour with
   * blue bit 7 clear in the high nibble, ORed with the id of its colour with
   * that bit set.
   */
  method GeneratePalette(nearest: (int, int, int) -> bv8) returns (palette: array<bv8>)
    ensures fresh(palette) && palette.Length == PaletteLength
    ensures forall r, g, b :: 0 <= r < 256 && 0 <= g < 256 && 0 <= b < 128 ==>
      palette[PaletteKey(r, g, b)] == PackedSlot(nearest(r, g, b), nearest(r, g, b + 128))
  {
    palette := new bv8[PaletteLength](_ => 0);
    var r := 0;
    while r < 256
      invariant 0 <= r <= 256
      invariant PaletteAfter(nearest, palette[..], r, 0, 0)
    {
      var g := 0;
      while g < 256
        invariant 0 <= g <= 256
        invariant PaletteAfter(nearest, palette[..], r, g, 0)
      {
        FillRow(nearest, palette, r, g);
        g := g + 1;
      }
      PlaneDone(nearest, palette[..], r);
      r := r + 1;
    }
    PaletteDone(nearest, palette[..]);
  }

  /** Once every colour is handled, each slot packs the ids of its two colours. */
  lemma PaletteDone(nearest: (int, int, int) -> bv8, s: seq<bv8>)
    requires PaletteAfter(nearest, s, 256, 0, 0)
    ensures forall r, g, b :: 0 <= r < 256 && 0 <= g < 256 && 0 <= b < 128 ==>
      s[PaletteKey(r, g, b)] == PackedSlot(nearest(r, g, b), nearest(r, g, b + 128))
  {
    forall r, g, b | 0 <= r < 256 && 0 <= g < 256 && 0 <= b < 128
      ensures s[PaletteKey(r, g, b)] == PackedSlot(nearest(r, g, b), nearest(r, g, b + 128))
    {
      PaletteKeyInRange(r, g, b);
    }
  }

  /** Every slot of the palette is the key of exactly one colour with blue below 128. */
  lemma KeysCoverPalette(k: int)
    requires 0 <= k < PaletteLength
    ensures exists r, g, b :: 0 <= r < 256 && 0 <= g < 256 && 0 <= b < 128 && PaletteKey(r, g, b) == k
  {
    KeyFieldRanges(k);
    KeyOfFields(k);
  }

  /** The byte as a signed Java `byte`, as it is widened to `int`. */
  function Signed(slot: bv8): int
  {
    if slot < 128 then slot as int else slot as int - 256
  }

  /**
   * The id `getColor` hands to `MapColor.getById`, with the masks as written:
   * `color & 0x3F` when bit 7 of blue is set, otherwise `color >> 4` on the
   * sign-extended byte (an arithmetic shift, so division rounding down).
   */
  function AsWrittenUnpack(slot: bv8, low: bool): (id: int)
    ensures low ==> 0 <= id < 64
    ensures !low ==> -8 <= id < 8
    ensures !low ==> (id < 0 <==> slot >= 128)
  {
    if low then (slot & 0x3F) as int else Signed(slot) / 16
  }

  /**
   * The as-written masks do not give back what generation stored: with id 1
   * in the high nibble and 0 in the low one, the low read yields 16; with
   * id 8 in the high nibble, the high read yields -8.
   */
  lemma AsWrittenUnpackMismatch()
    ensures PackedSlot(1, 0) == 0x10 && AsWrittenUnpack(PackedSlot(1, 0), true) == 16
    ensures PackedSlot(8, 0) == 0x80 && AsWrittenUnpack(PackedSlot(8, 0), false) == -8
  {
  }

  /**
   * What the as-written masks read from a slot packing two ids below 16: the
   * low read adds bits 0 and 1 of the high id, times 16, to the low id; the
   * high read is the high id, less 16 when its bit 3 is set.
   */
  lemma AsWrittenChar(hi: bv8, lo: bv8)
    requires hi < 16 && lo < 16
    ensures AsWrittenUnpack(PackedSlot(hi, lo), true) == lo as int + 16 * ((hi & 3) as int)
    ensures AsWrittenUnpack(PackedSlot(hi, lo), false) == if hi < 8 then hi as int else hi as int - 16
  {
  }

  /** The read that matches the packing: the low nibble, or the high nibble. */
  function Unpack(slot: bv8, low: bool): (id: bv8)
    ensures id < 16
  {
    if low then slot & 0x0F else (slot >> 4) & 0x0F
  }

  /** Ids below 16 survive packing two to a byte and reading back. */
  lemma UnpackPacked(hi: bv8, lo: bv8)
    requires hi < 16 && lo < 16
    ensures Unpack(PackedSlot(hi, lo), false) == hi && Unpack(PackedSlot(hi, lo), true) == lo
  {
  }

  /**
   * When every nearest id is below 16, reading a palette laid out as the
   * generation loop leaves it, at the key of (r, g, b), gives back the
   * nearest id of (r, g, b) itself, each component taken modulo 256.
   */
  lemma GeneratedRoundTrip(nearest: (int, int, int) -> bv8, s: seq<bv8>, r: int, g: int, b: int)
    requires |s| == PaletteLength
    requires forall r', g', b' :: 0 <= r' < 256 && 0 <= g' < 256 && 0 <= b' < 128 ==>
      s[PaletteKey(r', g', b')] == PackedSlot(nearest(r', g', b'), nearest(r', g', b' + 128))
    requires forall r', g', b' :: nearest(r', g', b') < 16
    ensures Unpack(s[PaletteKey(r, g, b)], HasBit7(b)) == nearest(r % 256, g % 256, b % 256)
  {
    var r0, g0, b0 := r % 256, g % 256, b % 128;
    assert r0 % 256 == r0 && g0 % 256 == g0 && b0 % 128 == b0;
    KeyEqual(r, g, b, r0, g0, b0);
    assert s[PaletteKey(r, g, b)] == PackedSlot(nearest(r0, g0, b0), nearest(r0, g0, b0 + 128));
    UnpackPacked(nearest(r0, g0, b0), nearest(r0, g0, b0 + 128));
    if HasBit7(b) {
      assert b % 256 == b0 + 128;
    } else {
      assert b % 256 == b0;
    }
  }

  /** The palette state: the table (all zero until loaded) and whether loading has run. */
  class MapColorPalette {
    const colorPalette: array<bv8>
    var initialized: bool

    /** Resources cannot be loaded: `canLoad` is fixed to false. */
    static const CanLoad := false

    constructor ()
      ensures fresh(colorPalette) && colorPalette.Length == PaletteLength
      ensures forall k :: 0 <= k < PaletteLength ==> colorPalette[k] == 0
      ensures !initialized
    {
      colorPalette := new bv8[PaletteLength](_ => 0);
      initialized := false;
    }

    /**
     * `initialize()`: returns at once when already initialized, and returns
     * again while `canLoad` is false, before the palette or the flag is
     * touched. Loading the resource file is not part of this model.
     */
    method Initialize()
      modifies this
      ensures initialized == old(initialized)
    {
      if initialized {
        return;
      }
      if !CanLoad {
        return;
      }
    }

    /** `getColor(r, g, b)` as written: the id its masks read from the slot of (r, g, b). */
    function GetColorAsWritten(r: int, g: int, b: int): (id: int)
      requires colorPalette.Length == PaletteLength
      reads colorPalette
      ensures HasBit7(b) ==> 0 <= id < 64
      ensures !HasBit7(b) ==> -8 <= id < 8
    {
      AsWrittenUnpack(colorPalette[PaletteKey(r, g, b)], HasBit7(b))
    }

    /** `getColor(r, g, b)` with the nibble masks that match the packing. */
    function GetColor(r: int, g: int, b: int): (id: bv8)
      requires colorPalette.Length == PaletteLength
      reads colorPalette
      ensures id < 16
    {
      Unpack(colorPalette[PaletteKey(r, g, b)], HasBit7(b))
    }

    /** While nothing has been loaded, every colour maps to id 0, both as written and corrected. */
    lemma UnloadedColorIsZero(r: int, g: int, b: int)
      requires colorPalette.Length == PaletteLength
      requires forall k :: 0 <= k < PaletteLength ==> colorPalette[k] == 0
      ensures GetColor(r, g, b) == 0 && GetColorAsWritten(r, g, b) == 0
    {
      var k := PaletteKey(r, g, b);
      assert colorPalette[k] == 0;
    }

    /**
     * Had the generated palette been loaded (with every nearest id below 16),
     * `getColor` as written would read, for the colour (r, g, b) with its
     * components taken modulo 256: through the low side, its own id plus 16
     * times bits 0 and 1 of its partner's id; through the high side, its own
     * id less 16 when that id is 8 or more. So it gives back the nearest id
     * exactly when the partner's id is a multiple of 4 (low side), or the id
     * is below 8 (high side).
     */
    lemma LoadedColorAsWritten(nearest: (int, int, int) -> bv8, r: int, g: int, b: int)
      requires colorPalette.Length == PaletteLength
      requires forall r', g', b' :: 0 <= r' < 256 && 0 <= g' < 256 && 0 <= b' < 128 ==>
        colorPalette[PaletteKey(r', g', b')] == PackedSlot(nearest(r', g', b'), nearest(r', g', b' + 128))
      requires forall r', g', b' :: nearest(r', g', b') < 16
      ensures var hi, lo := nearest(r % 256, g % 256, b % 128), nearest(r % 256, g % 256, b % 128 + 128);
        GetColorAsWritten(r, g, b) ==
          if HasBit7(b) then lo as int + 16 * ((hi & 3) as int)
          else if hi < 8 then hi as int else hi as int - 16
      ensures GetColorAsWritten(r, g, b) == nearest(r % 256, g % 256, b % 256) as int <==>
        if HasBit7(b) then nearest(r % 256, g % 256, b % 128) & 3 == 0
        else nearest(r % 256, g % 256, b % 128) < 8
    {
      var r0, g0, b0 := r % 256, g % 256, b % 128;
      assert r0 % 256 == r0 && g0 % 256 == g0 && b0 % 128 == b0;
      KeyEqual(r, g, b, r0, g0, b0);
      var hi, lo := nearest(r0, g0, b0), nearest(r0, g0, b0 + 128);
      assert colorPalette[PaletteKey(r, g, b)] == PackedSlot(hi, lo);
      AsWrittenChar(hi, lo);
      if HasBit7(b) {
        assert b % 256 == b0 + 128;
      } else {
        assert b % 256 == b0;
      }
    }

    /**
     * Had the generated palette been loaded (with every nearest id below 16),
     * `getColor` with the corrected masks would give back each colour's
     * nearest id.
     */
    lemma LoadedColorRoundTrip(nearest: (int, int, int) -> bv8, r: int, g: int, b: int)
      requires colorPalette.Length == PaletteLength
      requires forall r', g', b' :: 0 <= r' < 256 && 0 <= g' < 256 && 0 <= b' < 128 ==>
        colorPalette[PaletteKey(r', g', b')] == PackedSlot(nearest(r', g', b'), nearest(r', g', b' + 128))
      requires forall r', g', b' :: nearest(r', g', b') < 16
      ensures GetColor(r, g, b) == nearest(r % 256, g % 256, b % 256)
    {
      GeneratedRoundTrip(nearest, colorPalette[..], r, g, b);
    }
  }
}
