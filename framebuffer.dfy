/**
 * The framebuffer backend: a mapped `/dev/fb0` seen as its screen
 * information plus the bytes of the frame, read three bytes per pixel.
 */
module FrameBuffer {
  import opened Wrappers
  import opened Images

  const U32Limit: nat := 0x1_0000_0000

  type u32 = v: int | 0 <= v < U32Limit

  /** The fields of `fb_var_screeninfo` the backend reads. */
  datatype VarScreenInfo = VarScreenInfo(xres: u32, yres: u32, xoffset: u32, bitsPerPixel: u32)

  /** The field of `fb_fix_screeninfo` the backend reads: the length of a scanline in bytes. */
  datatype FixScreenInfo = FixScreenInfo(lineLength: u32)

  /** Why `Framebuffer::new` failed. */
  datatype FramebufferError = FramebufferError(message: string)

  /** A framebuffer that `Framebuffer::new("/dev/fb0")` opened and mapped; `frame` is what `read_frame` returns. */
  datatype FrameBufferBackend = FrameBufferBackend(varInfo: VarScreenInfo, fixInfo: FixScreenInfo, frame: seq<bv8>)
  {
    function Width(): (w: u32)
      ensures w == varInfo.xres
    {
      varInfo.xres
    }

    function Height(): (h: u32)
      ensures h == varInfo.yres
    {
      varInfo.yres
    }

    /** `GenericImageView::dimensions`: the visible resolution. */
    function Dimensions(): (d: (u32, u32))
      ensures d.0 == varInfo.xres && d.1 == varInfo.yres
    {
      (Width(), Height())
    }

    /** `GenericImageView::bounds`: the whole visible resolution, from the origin. */
    function Bounds(): (b: (u32, u32, u32, u32))
      ensures b.0 == 0 && b.1 == 0 && b.2 == varInfo.xres && b.3 == varInfo.yres
    {
      (0, 0, Width(), Height())
    }

    /** Whole bytes per pixel: `bits_per_pixel / 8`, rounded down. */
    function BytesPerPixel(): (bpp: u32)
      ensures bpp * 8 <= varInfo.bitsPerPixel < bpp * 8 + 8
    {
      varInfo.bitsPerPixel / 8
    }

    /**
     * `y * line + x * bpp + xoffset` evaluated in `u32` does not overflow.
     * Every term is non-negative, so bounding the final sum bounds every
     * intermediate product and sum too.
     */
    predicate OffsetFits(x: u32, y: u32) {
      y * fixInfo.lineLength + x * BytesPerPixel() + varInfo.xoffset < U32Limit
    }

    /** The index in the frame of the first byte of pixel (x, y). */
    function PixelOffset(x: u32, y: u32): nat
      requires OffsetFits(x, y)
    {
      y * fixInfo.lineLength + x * BytesPerPixel() + varInfo.xoffset
    }

    /** `get_pixel(x, y)` neither overflows nor indexes past the end of the frame. */
    predicate Readable(x: u32, y: u32) {
      OffsetFits(x, y) && PixelOffset(x, y) + 2 < |frame|
    }

    /**
     * `GenericImageView::get_pixel`: the three bytes at the pixel's offset
     * are stored in the order red, blue, green.
     */
    function GetPixel(x: u32, y: u32): (p: Rgb)
      requires Readable(x, y)
      ensures var off := PixelOffset(x, y); frame[off..off + 3] == [p.r, p.b, p.g]
    {
      var off := PixelOffset(x, y);
      Rgb(frame[off], frame[off + 2], frame[off + 1])
    }

    /** The bottom-right visible pixel is readable (or nothing is visible). */
    predicate Covered() {
      Width() == 0 || Height() == 0 || Readable(Width() - 1, Height() - 1)
    }

    /** If the bottom-right pixel is readable then so is every visible pixel. */
    lemma CoveredReadable(x: u32, y: u32)
      requires Covered() && x < Width() && y < Height()
      ensures Readable(x, y)
    {
      MulMonotone(y, Height() - 1, fixInfo.lineLength);
      MulMonotone(x, Width() - 1, BytesPerPixel());
    }

    /**
     * `get_global_screenshot`: never an error; an RGB8 image of the visible
     * resolution whose pixel (x, y) is `get_pixel(x, y)`.
     */
    function GetGlobalScreenshot(): (r: ImageResult)
      requires Covered()
      ensures r.Ok? && r.value.ImageRgb8?
      ensures r.value.rgb.Valid() && r.value.rgb.width == Width() && r.value.rgb.height == Height()
      ensures forall x: u32, y: u32 :: x < Width() && y < Height() ==>
        Readable(x, y) && r.value.rgb.At(x, y) == GetPixel(x, y)
    {
      var (w, h) := Dimensions();
      assert forall x: u32, y: u32 :: x < w && y < h ==> Readable(x, y) by {
        forall x: u32, y: u32 | x < w && y < h
          ensures Readable(x, y)
        {
          CoveredReadable(x, y);
        }
      }
      var view := (x: nat, y: nat) requires x < w && y < h && Readable(x, y) => GetPixel(x, y);
      var img := Tabulate(w, h, view);
      Ok(ImageRgb8(img))
    }
  }

  lemma MulMonotone(a: nat, b: nat, c: nat)
    requires a <= b
    ensures a * c <= b * c
  {
  }

  /**
   * When a scanline holds the horizontal offset and every visible pixel,
   * pixel (x, y) lies wholly inside scanline y.
   */
  lemma PixelInScanline(fb: FrameBufferBackend, x: u32, y: u32)
    requires fb.OffsetFits(x, y) && x < fb.Width()
    requires fb.varInfo.xoffset + fb.Width() * fb.BytesPerPixel() <= fb.fixInfo.lineLength
    ensures y * fb.fixInfo.lineLength <= fb.PixelOffset(x, y)
    ensures fb.PixelOffset(x, y) + fb.BytesPerPixel() <= (y + 1) * fb.fixInfo.lineLength
  {
    var bpp := fb.BytesPerPixel();
    MulMonotone(x + 1, fb.Width(), bpp);
    assert (x + 1) * bpp == x * bpp + bpp;
    assert (y + 1) * fb.fixInfo.lineLength == y * fb.fixInfo.lineLength + fb.fixInfo.lineLength;
  }

  /**
   * With at least three bytes per pixel and scanlines holding every visible
   * pixel, distinct visible pixels read disjoint bytes of the frame.
   */
  lemma PixelsDisjoint(fb: FrameBufferBackend, x1: u32, y1: u32, x2: u32, y2: u32)
    requires fb.OffsetFits(x1, y1) && fb.OffsetFits(x2, y2)
    requires x1 < fb.Width() && x2 < fb.Width() && (x1, y1) != (x2, y2)
    requires fb.BytesPerPixel() >= 3
    requires fb.varInfo.xoffset + fb.Width() * fb.BytesPerPixel() <= fb.fixInfo.lineLength
    ensures fb.PixelOffset(x1, y1) + 3 <= fb.PixelOffset(x2, y2) || fb.PixelOffset(x2, y2) + 3 <= fb.PixelOffset(x1, y1)
  {
    var bpp, line := fb.BytesPerPixel(), fb.fixInfo.lineLength;
    if y1 == y2 {
      if x1 < x2 {
        MulMonotone(x1 + 1, x2, bpp);
      } else {
        MulMonotone(x2 + 1, x1, bpp);
      }
    } else {
      PixelInScanline(fb, x1, y1);
      PixelInScanline(fb, x2, y2);
      if y1 < y2 {
        MulMonotone(y1 + 1, y2, line);
      } else {
        MulMonotone(y2 + 1, y1, line);
      }
    }
  }

  /**
   * `get_pixel(x, y)` depends only on the screen information and the three
   * frame bytes at the pixel's offset.
   */
  lemma GetPixelLocal(fb: FrameBufferBackend, other: FrameBufferBackend, x: u32, y: u32)
    requires fb.varInfo == other.varInfo && fb.fixInfo == other.fixInfo
    requires fb.Readable(x, y) && other.Readable(x, y)
    requires fb.frame[fb.PixelOffset(x, y)..fb.PixelOffset(x, y) + 3] ==
             other.frame[fb.PixelOffset(x, y)..fb.PixelOffset(x, y) + 3]
    ensures fb.GetPixel(x, y) == other.GetPixel(x, y)
  {
    var off := fb.PixelOffset(x, y);
    assert fb.frame[off + 1] == fb.frame[off..off + 3][1] == other.frame[off..off + 3][1] == other.frame[off + 1];
    assert fb.frame[off + 2] == fb.frame[off..off + 3][2] == other.frame[off..off + 3][2] == other.frame[off + 2];
  }
}
