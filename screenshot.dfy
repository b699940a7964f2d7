/**
 * Choosing a backend by name and taking a screenshot with it.
 */
module Screenshot {
  import opened Wrappers
  import opened Images
  import opened ResourceGuard
  import Fb = FrameBuffer
  import X = XLib

  datatype Backend = XLib | FrameBuffer | Default

  /** `From<Option<&str>> for Backend`: only the exact names "fb" and "xlib" pick a backend. */
  function BackendFrom(name: Option<string>): (b: Backend)
    ensures b == FrameBuffer <==> name == Some("fb")
    ensures b == XLib <==> name == Some("xlib")
    ensures b == Default <==> name != Some("fb") && name != Some("xlib")
  {
    match name
    case Some(s) =>
      if s == "fb" then FrameBuffer
      else if s == "xlib" then XLib
      else Default
    case None => Default
  }

  /**
   * What taking a screenshot can observe of the machine: what opening the
   * framebuffer device returns, what `XOpenDisplay` returns, and each
   * backend's `screenshot(window)`.
   */
  datatype Platform = Platform(
    openFramebuffer: Result<Fb.FrameBufferBackend, Fb.FramebufferError>,
    openDisplay: Ptr<X.XServer>,
    framebufferShot: (Fb.FrameBufferBackend, Option<string>) -> ImageResult,
    xShot: (X.XLibState, Option<string>) -> ImageResult)

  const NoXServer: string := "Failed to connect to X server."

  /**
   * `get_screenshot`: construct the chosen backend, or fail with an `Other`
   * error, then return that backend's screenshot of `window`.
   */
  function GetScreenshot(backend: Backend, window: Option<string>, p: Platform): (r: ImageResult)
    ensures backend == FrameBuffer && p.openFramebuffer.Err? ==>
      r == Err(IoError(Other, p.openFramebuffer.error.message))
    ensures backend == FrameBuffer && p.openFramebuffer.Ok? ==>
      r == p.framebufferShot(p.openFramebuffer.value, window)
    ensures backend != FrameBuffer && p.openDisplay.Null? ==>
      r == Err(IoError(Other, NoXServer))
    ensures backend != FrameBuffer && p.openDisplay.NonNull? ==>
      var server := p.openDisplay.target;
      r == p.xShot(X.XLibState(X.Display(server), server.rootWindow), window)
  {
    match backend
    case FrameBuffer =>
      (match p.openFramebuffer
       case Err(e) => Err(IoError(Other, e.message))
       case Ok(fb) => p.framebufferShot(fb, window))
    case _ =>
      (match X.NewXLibState(p.openDisplay)
       case None => Err(IoError(Other, NoXServer))
       case Some(state) => p.xShot(state, window))
  }

  /** `XLib` and `Default` behave identically. */
  lemma DefaultIsXLib(window: Option<string>, p: Platform)
    ensures GetScreenshot(Default, window, p) == GetScreenshot(XLib, window, p)
  {
  }

  /**
   * The framebuffer path never touches the X side: whatever `XOpenDisplay`
   * and the X backend would do, the result is the same, so a failure to open
   * the framebuffer does not fall back to X.
   */
  lemma FrameBufferIgnoresX(window: Option<string>, p: Platform, q: Platform)
    requires p.openFramebuffer == q.openFramebuffer && p.framebufferShot == q.framebufferShot
    ensures GetScreenshot(FrameBuffer, window, p) == GetScreenshot(FrameBuffer, window, q)
  {
  }

  /** The X path never opens the framebuffer. */
  lemma XLibIgnoresFrameBuffer(backend: Backend, window: Option<string>, p: Platform, q: Platform)
    requires backend != FrameBuffer
    requires p.openDisplay == q.openDisplay && p.xShot == q.xShot
    ensures GetScreenshot(backend, window, p) == GetScreenshot(backend, window, q)
  {
  }

  /**
   * Every error `get_screenshot` produces itself is an `Other` error; any
   * other result is one a backend returned for the unchanged `window`.
   */
  lemma ScreenshotOutcome(backend: Backend, window: Option<string>, p: Platform)
    ensures var r := GetScreenshot(backend, window, p);
      var openFailed := if backend == FrameBuffer then p.openFramebuffer.Err? else p.openDisplay.Null?;
      openFailed ==> r.Err? && r.error.kind == Other
    ensures var r := GetScreenshot(backend, window, p);
      (exists fb :: r == p.framebufferShot(fb, window)) ||
      (exists s :: r == p.xShot(s, window)) ||
      (r.Err? && r.error.kind == Other)
  {
    var r := GetScreenshot(backend, window, p);
    if backend == FrameBuffer && p.openFramebuffer.Ok? {
      assert r == p.framebufferShot(p.openFramebuffer.value, window);
    } else if backend != FrameBuffer && p.openDisplay.NonNull? {
      var server := p.openDisplay.target;
      assert r == p.xShot(X.XLibState(X.Display(server), server.rootWindow), window);
    }
  }

  /** Choosing by name: "fb" takes the framebuffer path, every other name or none takes the X path. */
  lemma NamedBackend(name: Option<string>, window: Option<string>, p: Platform)
    ensures name == Some("fb") ==> GetScreenshot(BackendFrom(name), window, p) == GetScreenshot(FrameBuffer, window, p)
    ensures name != Some("fb") ==> GetScreenshot(BackendFrom(name), window, p) == GetScreenshot(XLib, window, p)
  {
  }
}
