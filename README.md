# coral-screenshot, modelled in Dafny

coral-screenshot takes a screenshot through one of two backends.

- **X backend** (`src/xlib.rs`). It renders a window, including its sub-windows, into an off-screen 32-bit pixmap with XRender. It clears the pixmap to transparent first, then composites the window over it when the window has alpha and copies it otherwise. It fetches the pixmap with `XGetImage`, overwrites the fetched image's channel masks with those of the standard ARGB32 format, and turns the image into an RGBA8 buffer by decoding every packed pixel. A per-window capture first parses the window id from a hexadecimal string.
- **Framebuffer backend** (`src/fb.rs`). It reads `/dev/fb0` three bytes per pixel, at the byte offset `y * line_length + x * (bits_per_pixel / 8) + xoffset`.
- **Dispatcher** (`src/screenshot.rs`). It picks a backend by name and reports a backend that cannot be opened as an error.

The model has eight modules:

- `Wrappers`: `Option` and `Result`.
- `Images`: the `image` crate's pixels, buffers and errors. `to_image` of a full view is `Tabulate`.
- `PixelFormat`: `u64::trailing_zeros`, XRender direct formats, channel masks and the `get_pixel` decode, on `bv64`.
- `ResourceGuard`: the `XLibPtr`/`XLibMut` guards. `XLibPtr` is a class that counts its `XFree` calls. `XLibMut` is a datatype holding a shared `RcCell` class, which keeps the strong count and an `XLibPtr` whose frees are counted.
- `WindowId`: `trim_start_matches("0x")` followed by `u64::from_str_radix(_, 16)`.
- `XLib`: the display, the server and the capture.
  - The X server is a class. Its query answers are fixed fields.
  - Each creating or drawing request is appended to a request log. `GetScreenshotInner` promises the exact log it produces.
  - The fetched `XImage` is a class whose masks and depth the capture updates in place.
- `FrameBuffer`: the framebuffer backend as a value.
- `Screenshot`: the dispatcher.

Notes on what the code does:

- `Display` has no `Drop`, so the connection is never closed.
- The pictures and the pixmap the capture creates are never freed.
- `bounds()` of the X image reports the image's `xoffset` as its x origin.
- The framebuffer bytes are read as red, blue, green, in that order.
- No alpha is forced to opaque.

## Model

| member | source | states |
|---|---|---|
| PixelFormat.TrailingZeros | src/xlib.rs:269-272 | the count is at most 64; every bit below it is clear, and the bit at it is set unless the count is 64; the count is 64 exactly for zero |
| PixelFormat.TrailingZerosAt | src/xlib.rs:269-272 | the lowest set bit of a value is its trailing-zero count |
| PixelFormat.TrailingZerosOfZero | src/xlib.rs:269-272 | a zero mask has 64 trailing zeros, so shifting by it overflows a `u64` shift |
| PixelFormat.ShiftedMaskOffset | src/xlib.rs:211-213 | a mask with bit 0 set, shifted up by an offset below 64, has exactly that many trailing zeros, so decoding shifts the channel back down by the same amount |
| PixelFormat.ShortAsU64 | src/xlib.rs:211-213 | `short as u64` keeps the low 16 bits and fills the upper 48 bits with copies of bit 15 |
| PixelFormat.HasAlpha | src/xlib.rs:134 | the window has alpha when its format is direct with a non-zero alpha mask; `CompositeOpChoice` states the operator it selects |
| PixelFormat.CompositeOp | src/xlib.rs:184 | `PictOpOver` for a source with alpha, `PictOpSrc` otherwise; `CompositeOpChoice` states both directions |
| PixelFormat.CompositeOpChoice | src/xlib.rs:134 | the composite operator is `PictOpOver` if and only if the format is direct with a non-zero alpha mask, and `PictOpSrc` otherwise |
| PixelFormat.ChannelMask | src/xlib.rs:211-213 | a format's 16-bit channel mask, sign-extended to 64 bits and shifted up by the channel's offset; `ShortAsU64` states its bits; its trailing zeros are stated only for the standard format's masks, through `StandardArgb32Masks` and `DecodeArgb32` |
| PixelFormat.MasksOf | src/xlib.rs:211-213 | the red, green and blue masks the capture writes into the fetched image; `StandardArgb32Masks` gives their values for the standard format |
| PixelFormat.StandardArgb32Masks | src/xlib.rs:211-213 | the standard ARGB32 format's shifts are valid, and the masks built from it are 0xff0000, 0xff00 and 0xff |
| PixelFormat.ChannelReadsOnlyMask | src/xlib.rs:269-271 | a decoded colour channel depends only on the pixel bits under its mask |
| PixelFormat.Channel | src/xlib.rs:269-271 | a colour channel: the pixel under the mask, shifted down by the mask's trailing zeros, truncated to 8 bits; `ChannelReadsOnlyMask` and `DecodeArgb32` state what it extracts |
| PixelFormat.AlphaShift | src/xlib.rs:267 | the alpha shift: the trailing zeros of the complement of the union of the colour masks; `DecodeArgb32` shows it is 24 for ARGB32 |
| PixelFormat.Decode | src/xlib.rs:267-274 | `get_pixel`'s decode of one packed pixel under non-zero masks whose union is not all ones; `DecodeArgb32`, `DecodePackArgb32` and `DecodeArgb32Injective` state its meaning |
| PixelFormat.DecodeArgb32 | src/xlib.rs:263-275 | under the ARGB32 masks, red is bits 16-23, green bits 8-15 and blue bits 0-7; alpha, found through the complement of the colour masks, is bits 24-31 |
| PixelFormat.DecodePackArgb32 | src/xlib.rs:263-275 | decoding with the ARGB32 masks recovers every colour packed in the ARGB32 layout |
| PixelFormat.DecodeArgb32Injective | src/xlib.rs:263-275 | two pixels decode to the same colour if and only if their low 32 bits agree |
| ResourceGuard.XLibPtr.Wrap | src/xlib.rs:35 | a new guard holds the pointer and has not freed it |
| ResourceGuard.XLibPtr.Drop | src/xlib.rs:40-46 | dropping a guard calls `XFree` on its pointer once more |
| ResourceGuard.NewXLibPtr | src/xlib.rs:31-37 | no guard for a null pointer; otherwise a fresh guard over that same pointer that has freed nothing |
| ResourceGuard.RcCell.constructor | src/xlib.rs:53 | a new shared cell has one handle and has not freed its pointer |
| ResourceGuard.NewXLibMut | src/xlib.rs:52-54 | no handle for a null pointer; otherwise one fresh handle over that same pointer, with a count of one and nothing freed |
| ResourceGuard.XLibMut.Clone | src/xlib.rs:48-49 | a clone is a handle on the same cell and pointer; the count goes up by one and nothing is freed |
| ResourceGuard.XLibMut.Drop | src/xlib.rs:40-49 | the count goes down by one, and the pointer is freed exactly when the last handle goes; freed once, never twice, never early |
| ResourceGuard.CloneThenDropBoth | src/xlib.rs:40-49 | after a clone and two drops, no handle is left and the pointer has been freed exactly once |
| WindowId.TrimHexPrefix | src/xlib.rs:327 | what is removed is a run of "0x"s, and what is left does not start with "0x" |
| WindowId.Accumulate | src/xlib.rs:327 | the base-16 digit loop of `from_str_radix`: reject a non-digit, fail as soon as the value leaves `u64`; `AccumulateValue` states what it computes |
| WindowId.FromStrRadix16 | src/xlib.rs:327 | `u64::from_str_radix(_, 16)`: empty input and a lone sign are errors, and one leading '+' is accepted; `ParseWindowIdSpec` states the whole condition |
| WindowId.ParseWindowId | src/xlib.rs:327-332 | the id parse of `window_screenshot` with its error; `ParseWindowIdSpec`, `ParsePrintedWindowId`, `RepeatedPrefix` and `NotAWindow` state its properties |
| WindowId.AccumulateValue | src/xlib.rs:327 | the base-16 digit loop succeeds if and only if every character is a hex digit and the value fits in 64 bits, and it then returns that value |
| WindowId.ParseWindowIdSpec | src/xlib.rs:327-332 | an id parses if and only if, after the "0x" prefixes and one '+', it is a non-empty hex string whose value fits in 64 bits; the id is that value; every failure is an `InvalidInput` error "failed to parse window_id." |
| WindowId.ParsePrintedWindowId | src/xlib.rs:327-332 | every 64-bit id printed as "0x" followed by lower-case hex parses back to itself |
| WindowId.RepeatedPrefix | src/xlib.rs:327 | "0x0x1f" is window 0x1f, since every leading "0x" is stripped |
| WindowId.NotAWindow | src/xlib.rs:327-332 | a non-hex id is the `InvalidInput` error |
| Images.Tabulate | src/xlib.rs:319-321 | `to_image` of a full view gives a buffer of the view's size whose pixel (x, y) is the view's pixel (x, y) |
| XLib.XImage.Dimensions | src/xlib.rs:246-250 | the image's width and height |
| XLib.XImage.Bounds | src/xlib.rs:252-261 | the image's `xoffset`, 0, width and height |
| XLib.XImage.GetPixel | src/xlib.rs:263-275 | the packed pixel `XGetPixel` returns, decoded with the image's current masks |
| XLib.XImage.View | src/xlib.rs:319-321 | the view hands `to_image` exactly `get_pixel` at every visible coordinate |
| XLib.XServer.CreatePictureOn | src/xlib.rs:140-148 | a new picture id, and one `CreatePicture` request appended to the log |
| XLib.XServer.CreatePixmapOn | src/xlib.rs:153 | a new pixmap id, and one `CreatePixmap` request appended to the log |
| XLib.XServer.Fill | src/xlib.rs:171-180 | one `FillRectangle` request appended; no id used |
| XLib.XServer.CompositeOnto | src/xlib.rs:182-196 | one `Composite` request appended; no id used |
| XLib.XServer.Fetch | src/xlib.rs:198-207 | one `GetImage` request appended; null exactly when the server gives no image, otherwise a fresh image of the requested size holding the drawable's pixels |
| XLib.NewDisplay | src/xlib.rs:75-81 | no display for a null connection; otherwise a display over that same connection |
| XLib.NewXLibState | src/xlib.rs:94-99 | no state without a connection; otherwise the state holds the connection and its default screen's root window |
| XLib.CaptureRequests | src/xlib.rs:128-207 | the requests a capture sends, in order, given the server's next id; `CaptureRequestOrder`, `CapturePictures` and `CaptureCreatesIds` state their content |
| XLib.CaptureIdsUsed | src/xlib.rs:140-161 | how many resource ids a capture takes: 0 when the window or its format is not found, 2 without the standard format, 3 otherwise; `CaptureCreatesIds` ties it to the requests |
| XLib.CaptureCreatesIds | src/xlib.rs:140-161 | the ids a capture takes are exactly the ids its requests create: each lies in the range taken, each id in that range is created, and none is created twice |
| XLib.CaptureRequestOrder | src/xlib.rs:150-207 | the pixmap has depth 32 and the window's size; it is cleared to transparent with `PictOpSrc`, then the window's picture is composited onto it with `PictOpOver` if and only if the window has alpha, then it is fetched at full size on all planes as a `ZPixmap` |
| XLib.CapturePictures | src/xlib.rs:135-161 | the window's picture includes its inferiors, and the pixmap's picture uses the standard ARGB32 format |
| XLib.XLibState.GetScreenshotInner | src/xlib.rs:128-220 | `None` if and only if a lookup or the fetch fails; the exact requests sent, in order; the server's next id advanced by `CaptureIdsUsed`; on success one fresh handle on an image of the window's size, with depth 32, the ARGB32 channel masks, and the pixmap's pixels |
| XLib.CapturedAs | src/xlib.rs:311-323 | the outcome of a capture: an `InvalidData` error "Failed to aquire screen image" if and only if a lookup or the fetch failed; otherwise an RGBA8 image of the window's size whose pixel (x, y) is the ARGB32 decode of the pixmap's pixel (x, y) |
| XLib.XLibState.CaptureImage | src/xlib.rs:311-323 | the server's next id advanced by `CaptureIdsUsed`; on success the dropped handle is a fresh handle on the fetched image (the window's size, holding the pixmap's pixels), with no handle left and the image freed exactly once; an `InvalidData` error "Failed to aquire screen image" if and only if the capture fails; otherwise an RGBA8 image of the window's size whose pixel (x, y) is the ARGB32 decode of the pixmap's pixel (x, y) |
| XLib.XLibState.GlobalScreenshot | src/xlib.rs:311-324 | the capture of the root window, with that error mapping, the ids it takes, and on success the fetched image's handle dropped and the image freed exactly once |
| XLib.XLibState.WindowScreenshot | src/xlib.rs:326-346 | a bad window id is an `InvalidInput` error, sends nothing and takes no id; otherwise the capture of the parsed window, with the ids it takes and on success the fetched image's handle dropped and the image freed exactly once |
| FrameBuffer.FrameBufferBackend.Width | src/fb.rs:15-17 | the visible x resolution |
| FrameBuffer.FrameBufferBackend.Height | src/fb.rs:19-21 | the visible y resolution |
| FrameBuffer.FrameBufferBackend.Dimensions | src/fb.rs:29-31 | `(xres, yres)` |
| FrameBuffer.FrameBufferBackend.Bounds | src/fb.rs:33-35 | `(0, 0, xres, yres)` |
| FrameBuffer.FrameBufferBackend.BytesPerPixel | src/fb.rs:38 | whole bytes per pixel, rounded down: `8 * bpp <= bits_per_pixel < 8 * bpp + 8` |
| FrameBuffer.FrameBufferBackend.PixelOffset | src/fb.rs:38-44 | the first byte of pixel (x, y) is at `y * line_length + x * bpp + xoffset`; `PixelInScanline` and `PixelsDisjoint` state where that lies |
| FrameBuffer.FrameBufferBackend.Readable | src/fb.rs:44-48 | `get_pixel(x, y)` neither overflows the `u32` offset nor indexes past the frame; `CoveredReadable` extends it from the bottom-right pixel to all |
| FrameBuffer.FrameBufferBackend.GetPixel | src/fb.rs:37-51 | the three frame bytes at the pixel's offset hold red, blue and green, in that order; callable only where the `u32` offset does not overflow and the bytes are inside the frame |
| FrameBuffer.FrameBufferBackend.CoveredReadable | src/fb.rs:44-48 | if the bottom-right visible pixel can be read, every visible pixel can |
| FrameBuffer.FrameBufferBackend.GetGlobalScreenshot | src/fb.rs:79-83 | required: the bottom-right visible pixel is readable, which stands for `to_image` not panicking in `get_pixel`; then never an error, and an RGB8 image of `xres` by `yres` whose pixel (x, y) is `get_pixel(x, y)` |
| FrameBuffer.PixelInScanline | src/fb.rs:44 | when a scanline holds the x offset and all visible pixels, pixel (x, y) lies wholly inside scanline y |
| FrameBuffer.PixelsDisjoint | src/fb.rs:44-48 | with at least three bytes per pixel, distinct visible pixels read disjoint bytes |
| FrameBuffer.GetPixelLocal | src/fb.rs:42-50 | a pixel depends only on the screen information and its own three frame bytes |
| Screenshot.BackendFrom | src/screenshot.rs:31-39 | `FrameBuffer` if and only if the name is exactly "fb"; `XLib` if and only if it is exactly "xlib"; `Default` for everything else, including no name |
| Screenshot.GetScreenshot | src/screenshot.rs:14-29 | a framebuffer open failure is an `Other` error with the device error's message; a null X connection is an `Other` error "Failed to connect to X server."; otherwise the opened backend's screenshot of the unchanged `window` |
| Screenshot.DefaultIsXLib | src/screenshot.rs:20 | `Default` and `XLib` give the same result |
| Screenshot.FrameBufferIgnoresX | src/screenshot.rs:16-19 | the framebuffer path depends on nothing on the X side, so it has no fallback to X |
| Screenshot.XLibIgnoresFrameBuffer | src/screenshot.rs:20-25 | the X path depends on nothing on the framebuffer side |
| Screenshot.ScreenshotOutcome | src/screenshot.rs:14-29 | an open failure is always an `Other` error; every result is either a backend's screenshot of the same `window` or such an error |
| Screenshot.NamedBackend | src/screenshot.rs:31-39 | the name "fb" takes the framebuffer path; any other name, or none, takes the X path |

## Left out

- The X client library and the X server are not modelled. `XOpenDisplay`, `XRenderQueryVersion`, `XGetWindowAttributes`, `XRenderFindVisualFormat`, `XRenderFindStandardFormat`, `XGetImage` and `XGetPixel` become fixed answers: fields of `XServer` and `XImage`. Creating and drawing requests are only logged; their effect on the server is not modelled. The pixmap's contents after the composite are the server's `contents`.
- The `assert_eq!` on XRender support is a precondition (`hasRender`) of the capture methods; the panic itself is not modelled. `WindowScreenshot` demands it only for an id that parses, since a bad id is rejected before the capture starts.
- `get_window_attributes` is called twice in the capture. The model looks it up once: the oracle answers the same both times, so the case where the second lookup fails after the first picture was created is not modelled.
- `XLibMut<XImage>::put_pixel`, `red_offset`, `green_offset`, `blue_offset` and `alpha_offset` are not modelled. `put_pixel` combines into zero with `&=`, so it always writes 0. `alpha_offset` complements the OR of the offsets rather than of the masks. These are not an encoder to pair with `get_pixel`.
- The `todo!()` stubs `get_pixel_mut` and `blend_pixel` (both backends) and the framebuffer's `put_pixel` are not modelled.
- PixelFormat.ShiftedMaskOffset: stated for a 64-bit mask with bit 0 set. That it holds for the sign-extended 16-bit format masks, and that a general contiguous mask decodes to its bit field, is proved only for the ARGB32 masks (`DecodeArgb32`). Bit-vector shifts by a symbolic amount combined with sign extension exceed the solver's budget.
- FrameBuffer.FrameBufferBackend.GetGlobalScreenshot: requires that the bottom-right visible pixel is readable. That requirement excludes two failures, and neither is modelled.
  - The `u32` offset expression at `src/fb.rs:44` overflows. A debug build panics there. A release build wraps silently and may read an in-frame byte belonging to another pixel.
  - The offset lies past the frame, and the indexing at `src/fb.rs:46-48` panics. One such case: `get_pixel` always reads three bytes, so a 16-bit frame exactly `line_length * yres` bytes long panics on its last pixel.
- `RefCell` borrow checking, the `Rc` around the display pointer, and `as_ptr`/`as_mut_ref` aliasing are not modelled. `XLibMut.Get` returns the shared pointer.
- Opening `/dev/fb0`, the memory map and `read_frame` are not modelled. The framebuffer backend is its screen information plus the frame's bytes, and `Framebuffer::new`'s result is a `Platform` field.
- Screenshot.GetScreenshot: each backend's `screenshot(window)` is a given function. The trait method that maps a window argument to `global_screenshot` or `window_screenshot` is not part of this model, and `src/fb.rs` does not implement that trait.
- `src/main.rs`, `src/bin/coral-screenshot.rs` (argument parsing, logging, saving PNG files) and `src/traits.rs` are not part of this model.
- `XRenderColor`'s 16-bit channels and the `c_int` to `u32` casts of window sizes are not range-checked. X window sizes are 16-bit, so the casts never change a value.
