/**
 * The X backend: the display connection, `get_screenshot_inner` (render a
 * window into an off-screen ARGB32 picture through XRender and fetch it as
 * an `XImage`), the image's pixel view, and the two screenshot entry points.
 *
 * The X server is the class `XServer`.  Its answers to queries are fixed
 * oracle values (constant fields), and every request that creates or draws
 * something is appended to its `requests` log, so the model states exactly
 * what the capture asks the server to do and in what order.
 */
module XLib {
  import opened Wrappers
  import opened Images
  import opened PixelFormat
  import opened ResourceGuard
  import opened WindowId

  /** An X resource id (`XID`: a window, pixmap or picture), a 64-bit unsigned value. */
  type Xid = nat

  const IncludeInferiors: int := 1
  /** `CPSubwindowMode`, the attribute-mask bit for `subwindow_mode`. */
  const CPSubwindowMode: bv64 := 0x100
  const ZPixmap: int := 2
  /** The plane mask `!0u64`: all planes. */
  const AllPlanes: bv64 := AllOnes
  /** The depth of the off-screen pixmap. */
  const PixmapDepth: nat := 32

  /** `XRenderColor`, 16 bits per channel. */
  datatype RenderColor = RenderColor(red: nat, green: nat, blue: nat, alpha: nat)

  /** Fully transparent black, what the pixmap is cleared to. */
  const Transparent: RenderColor := RenderColor(0, 0, 0, 0)

  /**
   * What `XGetWindowAttributes` reports that the capture uses.  Window sizes
   * are 16-bit in the X protocol, so the `as u32` casts of the source never
   * change them.
   */
  datatype WindowAttributes = WindowAttributes(width: nat, height: nat, visual: nat)

  /** A request that creates or draws something, as sent to the server. */
  datatype Request =
    | CreatePicture(picture: Xid, drawable: Xid, format: PictFormat, valueMask: bv64, subwindowMode: int)
    | CreatePixmap(pixmap: Xid, drawable: Xid, width: nat, height: nat, depth: nat)
    | FillRectangle(op: int, dst: Xid, color: RenderColor, x: int, y: int, width: nat, height: nat)
    | Composite(op: int, src: Xid, mask: Xid, dst: Xid, srcX: int, srcY: int, maskX: int, maskY: int,
                dstX: int, dstY: int, width: nat, height: nat)
    | GetImage(drawable: Xid, x: int, y: int, width: nat, height: nat, planeMask: bv64, imageFormat: int)

  /** A client-side image fetched with `XGetImage`. */
  class XImage {
    const width: nat
    const height: nat
    const xoffset: nat
    var depth: int
    var redMask: bv64
    var greenMask: bv64
    var blueMask: bv64
    /** The packed pixel value `XGetPixel` returns at column `x`, row `y`. */
    const pixels: (nat, nat) -> bv64

    /**
     * Xlib fills `depth` and the masks from the drawable; the capture
     * overwrites all four, so they start out as zero here.
     */
    constructor (w: nat, h: nat, p: (nat, nat) -> bv64)
      ensures width == w && height == h && xoffset == 0 && pixels == p
      ensures depth == 0 && redMask == 0 && greenMask == 0 && blueMask == 0
    {
      width, height, xoffset, pixels := w, h, 0, p;
      depth, redMask, greenMask, blueMask := 0, 0, 0, 0;
    }

    function Masks(): ChannelMasks
      reads this
    {
      ChannelMasks(redMask, greenMask, blueMask)
    }

    /** `GenericImageView::dimensions`. */
    function Dimensions(): (d: (nat, nat))
      ensures d.0 == width && d.1 == height
    {
      (width, height)
    }

    /** `GenericImageView::bounds`: the image's `xoffset` is reported as the x origin. */
    function Bounds(): (b: (nat, nat, nat, nat))
      ensures b.0 == xoffset && b.1 == 0 && b.2 == width && b.3 == height
    {
      (xoffset, 0, width, height)
    }

    /** `GenericImageView::get_pixel`: `XGetPixel`, then decode with the image's masks. */
    function GetPixel(x: nat, y: nat): (p: Rgba)
      reads this
      requires Decodable(Masks()) && x < width && y < height
      ensures p == Decode(pixels(x, y), Masks())
    {
      Decode(pixels(x, y), Masks())
    }

    /** The view `view(0, 0, width, height)` hands to `to_image`, at the image's current masks. */
    function View(): (f: (nat, nat) --> Rgba)
      reads this
      requires Decodable(Masks())
      ensures forall x: nat, y: nat :: x < width && y < height ==> f.requires(x, y) && f(x, y) == GetPixel(x, y)
    {
      var m, p, w, h := Masks(), pixels, width, height;
      (x: nat, y: nat) requires x < w && y < h => Decode(p(x, y), m)
    }
  }

  /** The X server behind a display connection. */
  class XServer {
    /** `XRenderQueryVersion` returns `True`. */
    const hasRender: bool
    /** `XRootWindow(dpy, XDefaultScreen(dpy))`. */
    const rootWindow: Xid
    /** The windows `XGetWindowAttributes` succeeds for, with their attributes. */
    const attributes: map<Xid, WindowAttributes>
    /** The visuals `XRenderFindVisualFormat` finds a format for. */
    const visualFormats: map<nat, PictFormat>
    /** `XRenderFindStandardFormat` finds the standard ARGB32 format. */
    const hasStandardArgb32: bool
    /** `XGetImage` is non-null. */
    const imageFetches: bool
    /** The packed pixel at column `x`, row `y` of a drawable, as `XGetImage` reads it. */
    const contents: (Xid, nat, nat) -> bv64

    /** The requests sent so far, oldest first. */
    var requests: seq<Request>
    /** The id the next created resource gets. */
    var nextXid: Xid

    constructor (hasRender: bool, rootWindow: Xid, attributes: map<Xid, WindowAttributes>,
                 visualFormats: map<nat, PictFormat>, hasStandardArgb32: bool, imageFetches: bool,
                 contents: (Xid, nat, nat) -> bv64, firstXid: Xid)
      ensures this.hasRender == hasRender && this.rootWindow == rootWindow
      ensures this.attributes == attributes && this.visualFormats == visualFormats
      ensures this.hasStandardArgb32 == hasStandardArgb32 && this.imageFetches == imageFetches
      ensures this.contents == contents
      ensures requests == [] && nextXid == firstXid
    {
      this.hasRender, this.rootWindow, this.attributes := hasRender, rootWindow, attributes;
      this.visualFormats, this.hasStandardArgb32 := visualFormats, hasStandardArgb32;
      this.imageFetches, this.contents := imageFetches, contents;
      requests, nextXid := [], firstXid;
    }

    /** `XRenderCreatePicture` */
    method CreatePictureOn(drawable: Xid, format: PictFormat, valueMask: bv64, subwindowMode: int)
      returns (picture: Xid)
      modifies this
      ensures picture == old(nextXid) && nextXid == old(nextXid) + 1
      ensures requests == old(requests) + [CreatePicture(picture, drawable, format, valueMask, subwindowMode)]
    {
      picture := nextXid;
      nextXid := nextXid + 1;
      requests := requests + [CreatePicture(picture, drawable, format, valueMask, subwindowMode)];
    }

    /** `XCreatePixmap` */
    method CreatePixmapOn(drawable: Xid, width: nat, height: nat, depth: nat) returns (pixmap: Xid)
      modifies this
      ensures pixmap == old(nextXid) && nextXid == old(nextXid) + 1
      ensures requests == old(requests) + [CreatePixmap(pixmap, drawable, width, height, depth)]
    {
      pixmap := nextXid;
      nextXid := nextXid + 1;
      requests := requests + [CreatePixmap(pixmap, drawable, width, height, depth)];
    }

    /** `XRenderFillRectangle` */
    method Fill(op: int, dst: Xid, color: RenderColor, x: int, y: int, width: nat, height: nat)
      modifies this
      ensures nextXid == old(nextXid)
      ensures requests == old(requests) + [FillRectangle(op, dst, color, x, y, width, height)]
    {
      requests := requests + [FillRectangle(op, dst, color, x, y, width, height)];
    }

    /** `XRenderComposite` */
    method CompositeOnto(op: int, src: Xid, mask: Xid, dst: Xid, srcX: int, srcY: int, maskX: int, maskY: int,
                         dstX: int, dstY: int, width: nat, height: nat)
      modifies this
      ensures nextXid == old(nextXid)
      ensures requests == old(requests) +
        [Composite(op, src, mask, dst, srcX, srcY, maskX, maskY, dstX, dstY, width, height)]
    {
      requests := requests + [Composite(op, src, mask, dst, srcX, srcY, maskX, maskY, dstX, dstY, width, height)];
    }

    /** `XGetImage`: null, or a fresh image of the requested size holding the drawable's pixels. */
    method Fetch(drawable: Xid, x: int, y: int, width: nat, height: nat, planeMask: bv64, imageFormat: int)
      returns (p: Ptr<XImage>)
      modifies this
      ensures nextXid == old(nextXid)
      ensures requests == old(requests) + [GetImage(drawable, x, y, width, height, planeMask, imageFormat)]
      ensures p.NonNull? <==> imageFetches
      ensures p.NonNull? ==> fresh(p.target) && p.target.width == width && p.target.height == height
      ensures p.NonNull? ==> forall i: nat, j: nat :: p.target.pixels(i, j) == contents(drawable, i, j)
    {
      requests := requests + [GetImage(drawable, x, y, width, height, planeMask, imageFormat)];
      if imageFetches {
        var c := contents;
        var img := new XImage(width, height, (i: nat, j: nat) => c(drawable, i, j));
        p := NonNull(img);
      } else {
        p := Null;
      }
    }
  }

  /** `Display`: a non-null connection. */
  datatype Display = Display(conn: XServer)

  /** `Display::new`: nothing for a null pointer, otherwise a display over that same connection. */
  function NewDisplay(dpy: Ptr<XServer>): (r: Option<Display>)
    ensures r.None? <==> dpy.Null?
    ensures r.Some? ==> r.value.conn == dpy.target
  {
    if dpy.Null? then None else Some(Display(dpy.target))
  }

  /** `XLibState::new`: the display `XOpenDisplay` returned, and its root window. */
  function NewXLibState(dpy: Ptr<XServer>): (r: Option<XLibState>)
    ensures r.None? <==> dpy.Null?
    ensures r.Some? ==> r.value.display.conn == dpy.target && r.value.root == dpy.target.rootWindow
  {
    match NewDisplay(dpy)
    case None => None
    case Some(d) => Some(XLibState(d, d.conn.rootWindow))
  }

  /** The window's visual format is known, so the capture gets as far as creating the pixmap. */
  predicate FormatFound(s: XServer, window: Xid) {
    window in s.attributes && s.attributes[window].visual in s.visualFormats
  }

  /** Every lookup and the fetch succeed. */
  predicate Captures(s: XServer, window: Xid) {
    FormatFound(s, window) && s.hasStandardArgb32 && s.imageFetches
  }

  /**
   * How many resource ids `get_screenshot_inner(window)` takes from the
   * server: none when the window or its format is not found, the window's
   * picture and the pixmap when the standard format is missing, and those
   * and the pixmap's picture otherwise.
   */
  function CaptureIdsUsed(s: XServer, window: Xid): nat {
    if !FormatFound(s, window) then 0
    else if !s.hasStandardArgb32 then 2
    else 3
  }

  /** The id a request creates, if it creates a resource. */
  function CreatedId(r: Request): Option<Xid> {
    match r
    case CreatePicture(picture, _, _, _, _) => Some(picture)
    case CreatePixmap(pixmap, _, _, _, _) => Some(pixmap)
    case _ => None
  }

  /**
   * The requests `rs` create exactly the ids `base .. base + n`: every
   * created id lies in that range, each id in it is created, and no id is
   * created twice.
   */
  ghost predicate CreatesExactly(rs: seq<Request>, base: Xid, n: nat) {
    (forall i :: 0 <= i < |rs| && CreatedId(rs[i]).Some? ==> base <= CreatedId(rs[i]).value < base + n) &&
    (forall id: Xid :: base <= id < base + n ==> exists i :: 0 <= i < |rs| && CreatedId(rs[i]) == Some(id)) &&
    (forall i, j :: 0 <= i < j < |rs| && CreatedId(rs[i]).Some? ==> CreatedId(rs[j]) != CreatedId(rs[i]))
  }

  /** The ids a capture takes from the server are exactly the ids its requests create. */
  lemma CaptureCreatesIds(s: XServer, window: Xid, root: Xid, base: Xid)
    ensures CreatesExactly(CaptureRequests(s, window, root, base), base, CaptureIdsUsed(s, window))
  {
    var rs := CaptureRequests(s, window, root, base);
    var n := CaptureIdsUsed(s, window);
    if FormatFound(s, window) {
      assert CreatedId(rs[0]) == Some(base) && CreatedId(rs[1]) == Some(base + 1);
      if s.hasStandardArgb32 {
        assert CreatedId(rs[2]) == Some(base + 2);
      }
      forall id: Xid | base <= id < base + n
        ensures exists i :: 0 <= i < |rs| && CreatedId(rs[i]) == Some(id)
      {
        var i := id - base;
        assert CreatedId(rs[i]) == Some(id);
      }
    }
  }

  /**
   * The requests `get_screenshot_inner(window)` sends when the server's next
   * id is `base`: the window's picture gets id `base`, the pixmap `base + 1`,
   * the pixmap's picture `base + 2`.
   */
  function CaptureRequests(s: XServer, window: Xid, root: Xid, base: Xid): seq<Request> {
    if !FormatFound(s, window) then []
    else
      var wa := s.attributes[window];
      var format := s.visualFormats[wa.visual];
      var (picture, pixmap, pixmapPicture) := (base, base + 1, base + 2);
      var (w, h) := (wa.width, wa.height);
      var setup := [
        CreatePicture(picture, window, format, CPSubwindowMode, IncludeInferiors),
        CreatePixmap(pixmap, root, w, h, PixmapDepth)];
      if !s.hasStandardArgb32 then setup
      else setup + [
        CreatePicture(pixmapPicture, pixmap, StandardArgb32, 0, 0),
        FillRectangle(PictOpSrc, pixmapPicture, Transparent, 0, 0, w, h),
        Composite(CompositeOp(HasAlpha(format)), picture, 0, pixmapPicture, 0, 0, 0, 0, 0, 0, w, h),
        GetImage(pixmap, 0, 0, w, h, AllPlanes, ZPixmap)]
  }

  /**
   * Once the standard format is found, the capture clears the pixmap to
   * transparent, then composites the whole window onto it (blending over
   * exactly when the window's format is direct with a non-zero alpha mask,
   * copying otherwise), then fetches the pixmap's full area on all planes.
   */
  lemma CaptureRequestOrder(s: XServer, window: Xid, root: Xid, base: Xid)
    requires FormatFound(s, window) && s.hasStandardArgb32
    ensures var rs := CaptureRequests(s, window, root, base);
      var wa := s.attributes[window];
      var f := s.visualFormats[wa.visual];
      |rs| == 6 &&
      rs[1].CreatePixmap? && rs[1].pixmap == base + 1 && rs[1].depth == 32 &&
      rs[1].width == wa.width && rs[1].height == wa.height &&
      rs[3] == FillRectangle(PictOpSrc, base + 2, RenderColor(0, 0, 0, 0), 0, 0, wa.width, wa.height) &&
      rs[4].Composite? && rs[4].src == base && rs[4].dst == base + 2 &&
      rs[4].width == wa.width && rs[4].height == wa.height &&
      (rs[4].op == PictOpOver <==> f.kind == PictTypeDirect && f.direct.alphaMask != 0) &&
      (rs[4].op == PictOpSrc <==> !(f.kind == PictTypeDirect && f.direct.alphaMask != 0)) &&
      rs[5] == GetImage(base + 1, 0, 0, wa.width, wa.height, AllOnes, ZPixmap)
  {
    CompositeOpChoice(s.visualFormats[s.attributes[window].visual]);
  }

  /**
   * The window's picture includes its inferiors, and the pixmap's picture is
   * in the standard ARGB32 format rather than the window's own.
   */
  lemma CapturePictures(s: XServer, window: Xid, root: Xid, base: Xid)
    requires FormatFound(s, window) && s.hasStandardArgb32
    ensures var rs := CaptureRequests(s, window, root, base);
      rs[0] == CreatePicture(base, window, s.visualFormats[s.attributes[window].visual], 0x100, 1) &&
      rs[2] == CreatePicture(base + 2, base + 1, StandardArgb32, 0, 0)
  {
  }

  /**
   * The image handle a screenshot entry point dropped: there is one exactly
   * when the capture succeeded, and then no handle is left and the image was
   * freed exactly once.
   */
  ghost predicate ReleasedOnce(handle: Option<XLibMut<XImage>>, r: ImageResult)
    reads if handle.Some? then {handle.value.cell, handle.value.cell.guard} else {}
  {
    (handle.Some? <==> r.Ok?) &&
    (handle.Some? ==> handle.value.cell.strong == 0 && handle.value.cell.guard.frees == 1)
  }

  /**
   * `img` is the image a capture of `window` fetched when the server's next
   * id was `base`: the window's size, holding the pixmap's pixels.
   */
  ghost predicate FetchedImage(img: XImage, s: XServer, window: Xid, base: Xid) {
    window in s.attributes &&
    img.width == s.attributes[window].width && img.height == s.attributes[window].height &&
    forall x: nat, y: nat :: img.pixels(x, y) == s.contents(base + 1, x, y)
  }

  datatype XLibState = XLibState(display: Display, root: Xid)
  {
    /**
     * `get_screenshot_inner`: `None` as soon as a lookup or the fetch fails;
     * otherwise one fresh handle on a fetched image of the window's size whose
     * masks are the standard ARGB32 format's masks shifted into place.
     */
    method GetScreenshotInner(window: Xid) returns (r: Option<XLibMut<XImage>>)
      requires display.conn.hasRender
      modifies display.conn
      ensures r.Some? <==> Captures(display.conn, window)
      ensures display.conn.nextXid == old(display.conn.nextXid) + CaptureIdsUsed(display.conn, window)
      ensures display.conn.requests ==
        old(display.conn.requests) + CaptureRequests(display.conn, window, root, old(display.conn.nextXid))
      ensures r.Some? ==> fresh(r.value.cell) && fresh(r.value.cell.guard) && fresh(r.value.Get())
      ensures r.Some? ==> r.value.cell.strong == 1 && r.value.cell.Valid()
      ensures r.Some? ==> var img := r.value.Get(); var wa := display.conn.attributes[window];
        img.width == wa.width && img.height == wa.height &&
        img.Masks() == MasksOf(StandardArgb32) && img.depth == StandardArgb32.depth &&
        forall x: nat, y: nat :: img.pixels(x, y) == display.conn.contents(old(display.conn.nextXid) + 1, x, y)
    {
      var s := display.conn;
      ghost var base := s.nextXid;
      ghost var before := s.requests;
      if window !in s.attributes {
        return None;
      }
      var wa := s.attributes[window];
      if wa.visual !in s.visualFormats {
        return None;
      }
      var format := s.visualFormats[wa.visual];
      var hasAlpha := HasAlpha(format);
      var picture := s.CreatePictureOn(window, format, CPSubwindowMode, IncludeInferiors);
      var (width, height) := (wa.width, wa.height);
      var pixmap := s.CreatePixmapOn(root, width, height, PixmapDepth);
      if !s.hasStandardArgb32 {
        return None;
      }
      var format2 := StandardArgb32;
      var pixmapPicture := s.CreatePictureOn(pixmap, format2, 0, 0);
      s.Fill(PictOpSrc, pixmapPicture, Transparent, 0, 0, width, height);
      s.CompositeOnto(CompositeOp(hasAlpha), picture, 0, pixmapPicture, 0, 0, 0, 0, 0, 0, width, height);
      var fetched := s.Fetch(pixmap, 0, 0, width, height, AllPlanes, ZPixmap);
      var image := NewXLibMut(fetched);
      if image.None? {
        return None;
      }
      var img := image.value.Get();
      StandardArgb32Masks();
      img.redMask := ChannelMask(format2.direct.redMask, format2.direct.red);
      img.greenMask := ChannelMask(format2.direct.greenMask, format2.direct.green);
      img.blueMask := ChannelMask(format2.direct.blueMask, format2.direct.blue);
      img.depth := format2.depth;
      r := image;
    }

    /**
     * What follows a successful fetch in both screenshot entry points: the
     * RGBA8 image `to_image` builds from the fetched image's view, then the
     * handle is dropped, which frees the image.  A failed capture is an
     * `InvalidData` error.
     */
    method CaptureImage(window: Xid) returns (r: ImageResult, ghost released: Option<XLibMut<XImage>>)
      requires display.conn.hasRender
      modifies display.conn
      ensures display.conn.nextXid == old(display.conn.nextXid) + CaptureIdsUsed(display.conn, window)
      ensures display.conn.requests ==
        old(display.conn.requests) + CaptureRequests(display.conn, window, root, old(display.conn.nextXid))
      ensures CapturedAs(display.conn, window, old(display.conn.nextXid), r)
      ensures ReleasedOnce(released, r)
      ensures released.Some? ==>
        fresh(released.value.cell) && fresh(released.value.Get()) &&
        FetchedImage(released.value.Get(), display.conn, window, old(display.conn.nextXid))
    {
      var ximage := GetScreenshotInner(window);
      if ximage.None? {
        return Err(IoError(InvalidData, "Failed to aquire screen image")), None;
      }
      var img := ximage.value.Get();
      DecodeArgb32(0);
      var (w, h) := img.Dimensions();
      var buffer := Tabulate(w, h, img.View());
      ximage.value.Drop();
      released := ximage;
      r := Ok(ImageRgba8(buffer));
      assert r.value.rgba.Valid();
    }

    /** `global_screenshot`: capture the root window. */
    method GlobalScreenshot() returns (r: ImageResult, ghost released: Option<XLibMut<XImage>>)
      requires display.conn.hasRender
      modifies display.conn
      ensures display.conn.nextXid == old(display.conn.nextXid) + CaptureIdsUsed(display.conn, root)
      ensures display.conn.requests ==
        old(display.conn.requests) + CaptureRequests(display.conn, root, root, old(display.conn.nextXid))
      ensures CapturedAs(display.conn, root, old(display.conn.nextXid), r)
      ensures ReleasedOnce(released, r)
      ensures released.Some? ==>
        fresh(released.value.cell) && fresh(released.value.Get()) &&
        FetchedImage(released.value.Get(), display.conn, root, old(display.conn.nextXid))
    {
      r, released := CaptureImage(root);
    }

    /**
     * `window_screenshot`: a window id that does not parse is an
     * `InvalidInput` error and nothing is sent; otherwise capture that window.
     */
    method WindowScreenshot(id: string) returns (r: ImageResult, ghost released: Option<XLibMut<XImage>>)
      requires ParseWindowId(id).Ok? ==> display.conn.hasRender
      modifies display.conn
      ensures ParseWindowId(id).Err? ==>
        r == Err(IoError(InvalidInput, "failed to parse window_id.")) &&
        display.conn.requests == old(display.conn.requests) && display.conn.nextXid == old(display.conn.nextXid)
      ensures ParseWindowId(id).Ok? ==>
        var window := ParseWindowId(id).value;
        display.conn.nextXid == old(display.conn.nextXid) + CaptureIdsUsed(display.conn, window) &&
        display.conn.requests ==
          old(display.conn.requests) + CaptureRequests(display.conn, window, root, old(display.conn.nextXid)) &&
        CapturedAs(display.conn, window, old(display.conn.nextXid), r) &&
        (released.Some? ==>
          fresh(released.value.cell) && fresh(released.value.Get()) &&
          FetchedImage(released.value.Get(), display.conn, window, old(display.conn.nextXid)))
      ensures ReleasedOnce(released, r)
    {
      match ParseWindowId(id)
      case Err(e) =>
        ParseWindowIdSpec(id);
        r, released := Err(e), None;
      case Ok(window) =>
        r, released := CaptureImage(window);
    }
  }

  /**
   * The outcome of capturing `window` when the server's next id was `base`:
   * an `InvalidData` error when a lookup or the fetch failed, otherwise an
   * RGBA8 image of the window's size whose pixel (x, y) is the ARGB32 decode
   * of the pixmap's packed pixel (x, y).
   */
  ghost predicate CapturedAs(s: XServer, window: Xid, base: Xid, r: ImageResult) {
    (r.Err? <==> !Captures(s, window)) &&
    (r.Err? ==> r.error == IoError(InvalidData, "Failed to aquire screen image")) &&
    (r.Ok? ==>
      var wa := s.attributes[window];
      r.value.ImageRgba8? && r.value.rgba.Valid() &&
      r.value.rgba.width == wa.width && r.value.rgba.height == wa.height &&
      Decodable(Argb32Masks) &&
      forall x: nat, y: nat :: x < wa.width && y < wa.height ==>
        r.value.rgba.At(x, y) == Decode(s.contents(base + 1, x, y), Argb32Masks))
  }
}
