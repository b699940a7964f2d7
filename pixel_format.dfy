/**
 * Bit-level pixel decoding of the X backend: `u64::trailing_zeros`, the
 * XRender direct-colour format, how the fetched image's channel masks are
 * built from a format, and how `get_pixel` pulls 8-bit channels out of a
 * packed 64-bit pixel.
 */
module PixelFormat {
  import opened Images

  const AllOnes: bv64 := 0xFFFF_FFFF_FFFF_FFFF

  /** Bit `i` of `m`, bit 0 being the least significant. */
  predicate BitSet(m: bv64, i: nat)
    requires i < 64
  {
    (m >> i) & 1 == 1
  }

  function TrailingZerosFrom(m: bv64, i: nat): (n: nat)
    requires i <= 64
    requires forall j :: 0 <= j < i ==> !BitSet(m, j)
    ensures i <= n <= 64
    ensures forall j :: 0 <= j < n ==> !BitSet(m, j)
    ensures n < 64 ==> BitSet(m, n)
    ensures n == 64 ==> m == 0
    decreases 64 - i
  {
    if i == 64 then
      // no bit is set, position by position
      assert !BitSet(m, 0) && !BitSet(m, 1) && !BitSet(m, 2) && !BitSet(m, 3) && !BitSet(m, 4) && !BitSet(m, 5) && !BitSet(m, 6) && !BitSet(m, 7);
      assert !BitSet(m, 8) && !BitSet(m, 9) && !BitSet(m, 10) && !BitSet(m, 11) && !BitSet(m, 12) && !BitSet(m, 13) && !BitSet(m, 14) && !BitSet(m, 15);
      assert !BitSet(m, 16) && !BitSet(m, 17) && !BitSet(m, 18) && !BitSet(m, 19) && !BitSet(m, 20) && !BitSet(m, 21) && !BitSet(m, 22) && !BitSet(m, 23);
      assert !BitSet(m, 24) && !BitSet(m, 25) && !BitSet(m, 26) && !BitSet(m, 27) && !BitSet(m, 28) && !BitSet(m, 29) && !BitSet(m, 30) && !BitSet(m, 31);
      assert !BitSet(m, 32) && !BitSet(m, 33) && !BitSet(m, 34) && !BitSet(m, 35) && !BitSet(m, 36) && !BitSet(m, 37) && !BitSet(m, 38) && !BitSet(m, 39);
      assert !BitSet(m, 40) && !BitSet(m, 41) && !BitSet(m, 42) && !BitSet(m, 43) && !BitSet(m, 44) && !BitSet(m, 45) && !BitSet(m, 46) && !BitSet(m, 47);
      assert !BitSet(m, 48) && !BitSet(m, 49) && !BitSet(m, 50) && !BitSet(m, 51) && !BitSet(m, 52) && !BitSet(m, 53) && !BitSet(m, 54) && !BitSet(m, 55);
      assert !BitSet(m, 56) && !BitSet(m, 57) && !BitSet(m, 58) && !BitSet(m, 59) && !BitSet(m, 60) && !BitSet(m, 61) && !BitSet(m, 62) && !BitSet(m, 63);
      64
    else if BitSet(m, i) then i
    else TrailingZerosFrom(m, i + 1)
  }

  /**
   * `u64::trailing_zeros`: the position of the lowest set bit, or 64 when no
   * bit is set.
   */
  function TrailingZeros(m: bv64): (n: nat)
    ensures n <= 64
    ensures forall j :: 0 <= j < n ==> !BitSet(m, j)
    ensures n < 64 ==> BitSet(m, n)
    ensures n == 64 <==> m == 0
  {
    TrailingZerosFrom(m, 0)
  }

  /** The lowest set bit determines `trailing_zeros`. */
  lemma TrailingZerosAt(m: bv64, k: nat)
    requires k < 64 && BitSet(m, k)
    requires forall j :: 0 <= j < k ==> !BitSet(m, j)
    ensures TrailingZeros(m) == k
  {
  }

  /** A zero mask has 64 trailing zeros, so shifting by it overflows a `u64` shift. */
  lemma TrailingZerosOfZero()
    ensures TrailingZeros(0) == 64
  {
  }

  /**
   * A mask whose least significant bit is set, moved up by `offset`, has
   * exactly `offset` trailing zeros: decoding shifts a channel down by the
   * same amount its mask was shifted up.
   */
  lemma ShiftedMaskOffset(mask: bv64, offset: nat)
    requires offset < 64 && mask & 1 == 1
    ensures TrailingZeros(mask << offset) == offset
  {
    var m := mask << offset;
    forall j | 0 <= j < offset
      ensures !BitSet(m, j)
    {
      ShiftedMaskBelow(mask, offset, j);
    }
    ShiftedMaskAt(mask, offset);
    TrailingZerosAt(mask << offset, offset);
  }

  lemma ShiftedMaskBelow(mask: bv64, offset: nat, j: nat)
    requires j < offset < 64
    ensures !BitSet(mask << offset, j)
  {
  }

  lemma ShiftedMaskAt(mask: bv64, offset: nat)
    requires offset < 64 && mask & 1 == 1
    ensures BitSet(mask << offset, offset)
  {
  }

  // XRender constants
  const PictTypeDirect: int := 1
  const PictOpSrc: int := 1
  const PictOpOver: int := 3

  /**
   * `XRenderDirectFormat`: for each channel, its shift and its unshifted
   * mask, both C `short`s.  The masks are kept as their 16-bit patterns.
   */
  datatype DirectFormat = DirectFormat(
    red: int, redMask: bv16,
    green: int, greenMask: bv16,
    blue: int, blueMask: bv16,
    alpha: int, alphaMask: bv16)

  /** `XRenderPictFormat`: the format's type (`PictTypeDirect` or indexed), depth and channel layout. */
  datatype PictFormat = PictFormat(kind: int, depth: int, direct: DirectFormat)

  /** The standard 32-bit ARGB format XRender defines: alpha in bits 24-31, red 16-23, green 8-15, blue 0-7. */
  const StandardArgb32: PictFormat :=
    PictFormat(PictTypeDirect, 32, DirectFormat(16, 0xFF, 8, 0xFF, 0, 0xFF, 24, 0xFF))

  /** Whether a window's visual format carries an alpha channel (`has_alpha`). */
  predicate HasAlpha(f: PictFormat) {
    f.kind == PictTypeDirect && f.direct.alphaMask != 0
  }

  /** The composite operator: blend over the cleared pixmap when the source has alpha, copy otherwise. */
  function CompositeOp(hasAlpha: bool): int {
    if hasAlpha then PictOpOver else PictOpSrc
  }

  lemma CompositeOpChoice(f: PictFormat)
    ensures CompositeOp(HasAlpha(f)) == PictOpOver <==> f.kind == PictTypeDirect && f.direct.alphaMask != 0
    ensures CompositeOp(HasAlpha(f)) == PictOpSrc <==> !(f.kind == PictTypeDirect && f.direct.alphaMask != 0)
  {
  }

  /** Rust's `v as u64` on a C `short` with bit pattern `v`: sign extension to 64 bits. */
  function ShortAsU64(v: bv16): (r: bv64)
    ensures r & 0xFFFF == v as bv64
    ensures r >> 16 == if v & 0x8000 == 0 then 0 else 0xFFFF_FFFF_FFFF
  {
    if v & 0x8000 == 0 then v as bv64 else v as bv64 | 0xFFFF_FFFF_FFFF_0000
  }

  /**
   * A fetched image's channel mask, `(mask as u64) << (offset as u64)`.
   * The shift overflows unless the offset is below 64.
   */
  function ChannelMask(mask: bv16, offset: nat): bv64
    requires offset < 64
  {
    ShortAsU64(mask) << offset
  }

  /** The three masks `get_pixel` decodes with. */
  datatype ChannelMasks = ChannelMasks(red: bv64, green: bv64, blue: bv64)

  predicate FormatShiftsFit(f: PictFormat) {
    0 <= f.direct.red < 64 && 0 <= f.direct.green < 64 && 0 <= f.direct.blue < 64
  }

  /** The masks the capture writes into the fetched image, built from format `f`. */
  function MasksOf(f: PictFormat): ChannelMasks
    requires FormatShiftsFit(f)
  {
    ChannelMasks(
      ChannelMask(f.direct.redMask, f.direct.red),
      ChannelMask(f.direct.greenMask, f.direct.green),
      ChannelMask(f.direct.blueMask, f.direct.blue))
  }

  /** The masks of the standard ARGB32 format: red 0xff0000, green 0xff00, blue 0xff. */
  const Argb32Masks: ChannelMasks := ChannelMasks(0xFF_0000, 0xFF00, 0xFF)

  lemma StandardArgb32Masks()
    ensures FormatShiftsFit(StandardArgb32)
    ensures MasksOf(StandardArgb32) == Argb32Masks
  {
  }

  /** Rust's `v as u8` on a `u64`: the low byte. */
  function LowByte(v: bv64): bv8 {
    (v & 0xFF) as bv8
  }

  /** `((pix & mask) >> mask.trailing_zeros()) as u8`; a zero mask would overflow the shift. */
  function Channel(pix: bv64, mask: bv64): bv8
    requires mask != 0
  {
    ShiftDown(pix & mask, TrailingZeros(mask))
  }

  /** `(v >> n) as u8` */
  function ShiftDown(v: bv64, n: nat): bv8
    requires n < 64
  {
    LowByte(v >> n)
  }

  /** A channel depends only on the pixel bits its mask covers. */
  lemma ChannelReadsOnlyMask(p: bv64, q: bv64, mask: bv64)
    requires mask != 0 && p & mask == q & mask
    ensures Channel(p, mask) == Channel(q, mask)
  {
  }

  /** Masks `get_pixel` can decode with without overflowing a shift. */
  predicate Decodable(m: ChannelMasks) {
    m.red != 0 && m.green != 0 && m.blue != 0 && m.red | m.green | m.blue != AllOnes
  }

  /** The alpha shift: the trailing zeros of the complement of the union of the colour masks. */
  function AlphaShift(m: ChannelMasks): nat {
    TrailingZeros(!(m.red | m.green | m.blue))
  }

  /** `get_pixel`'s decode of one packed pixel. Alpha is shifted down but not masked. */
  function Decode(pix: bv64, m: ChannelMasks): Rgba
    requires Decodable(m)
  {
    Rgba(Channel(pix, m.red), Channel(pix, m.green), Channel(pix, m.blue), LowByte(pix >> AlphaShift(m)))
  }

  /** Packs four 8-bit channels in the ARGB32 layout. */
  function PackArgb32(c: Rgba): bv64 {
    (c.a as bv64 << 24) | (c.r as bv64 << 16) | (c.g as bv64 << 8) | c.b as bv64
  }

  /**
   * With the ARGB32 masks, red is bits 16-23, green 8-15, blue 0-7 and alpha,
   * found through the complement of the colour masks, bits 24-31.
   */
  lemma DecodeArgb32(pix: bv64)
    ensures Decodable(Argb32Masks)
    ensures Decode(pix, Argb32Masks) ==
      Rgba(LowByte(pix >> 16), LowByte(pix >> 8), LowByte(pix), LowByte(pix >> 24))
  {
    TrailingZerosAt(0xFF_0000, 16);
    TrailingZerosAt(0xFF00, 8);
    TrailingZerosAt(0xFF, 0);
    TrailingZerosAt(!(0xFF_0000 | 0xFF00 | 0xFF), 24);
  }

  /** Decoding with the ARGB32 masks inverts packing in the ARGB32 layout. */
  lemma DecodePackArgb32(c: Rgba)
    ensures Decodable(Argb32Masks)
    ensures Decode(PackArgb32(c), Argb32Masks) == c
  {
    var p := PackArgb32(c);
    DecodeArgb32(p);
    assert LowByte(p >> 16) == c.r;
    assert LowByte(p >> 8) == c.g;
    assert LowByte(p) == c.b;
    assert LowByte(p >> 24) == c.a;
  }

  /** Two pixels decode alike under ARGB32 exactly when their low 32 bits agree. */
  lemma DecodeArgb32Injective(p: bv64, q: bv64)
    ensures Decodable(Argb32Masks)
    ensures Decode(p, Argb32Masks) == Decode(q, Argb32Masks) <==> p & 0xFFFF_FFFF == q & 0xFFFF_FFFF
  {
    DecodeArgb32(p);
    DecodeArgb32(q);
    if Decode(p, Argb32Masks) == Decode(q, Argb32Masks) {
      LowWordOfBytes(p, q);
    }
    if p & 0xFFFF_FFFF == q & 0xFFFF_FFFF {
      BytesOfLowWord(p, q);
    }
  }

  lemma LowWordOfBytes(p: bv64, q: bv64)
    requires LowByte(p >> 16) == LowByte(q >> 16) && LowByte(p >> 8) == LowByte(q >> 8)
    requires LowByte(p) == LowByte(q) && LowByte(p >> 24) == LowByte(q >> 24)
    ensures p & 0xFFFF_FFFF == q & 0xFFFF_FFFF
  {
  }

  lemma BytesOfLowWord(p: bv64, q: bv64)
    requires p & 0xFFFF_FFFF == q & 0xFFFF_FFFF
    ensures LowByte(p >> 16) == LowByte(q >> 16) && LowByte(p >> 8) == LowByte(q >> 8)
    ensures LowByte(p) == LowByte(q) && LowByte(p >> 24) == LowByte(q >> 24)
  {
  }
}
