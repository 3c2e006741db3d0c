/**
 * Both ends of the bridge together: what the page script posts
 * (Terminal/Resources/hterm_bridge.js) is what the native handler in
 * Sources/Internal/HtermWebView.swift accepts.
 */
module BridgeProtocol {
  import opened Wrappers
  import opened Values
  import Script = HtermBridgeScript
  import W = HtermWebViewSpec
  import V = TerminalViewSpec

  /** A message whose name the native side dispatches on. */
  predicate Handled(m: Option<Message>) {
    m.Some? ==> W.FromRawValue(m.value.name).Some?
  }

  /** Every message the script can post has a native handler. */
  lemma ScriptMessagesAreHandled(hasWebkit: bool, text: string, cols: int, rows: int, eventType: string)
    ensures Handled(Script.NativeLog(hasWebkit, text))
    ensures Handled(Script.SendString(hasWebkit, text)) && Handled(Script.OnVTKeyStroke(hasWebkit, text))
    ensures Handled(Script.OnTerminalResize(hasWebkit, cols, rows))
    ensures Handled(Script.OnFocus(hasWebkit)) && Handled(Script.OnBlur(hasWebkit))
    ensures Handled(Script.OnTouch(hasWebkit, eventType))
    ensures Handled(Script.OpenUrl(hasWebkit, text)) && Handled(Script.TerminalReady(hasWebkit))
  {
    W.FromRawValueOfRawValue(W.Log);
    W.FromRawValueOfRawValue(W.HtermHandleSendString);
    W.FromRawValueOfRawValue(W.HtermHandleOnVTKeyStroke);
    W.FromRawValueOfRawValue(W.HtermHandleOnTerminalResize);
    W.FromRawValueOfRawValue(W.HtermDidFocusScreen);
    W.FromRawValueOfRawValue(W.HtermDidBlurScreen);
    W.FromRawValueOfRawValue(W.HtermScrollPortDidTouchStart);
    W.FromRawValueOfRawValue(W.HtermScrollPortDidTouchMove);
    W.FromRawValueOfRawValue(W.HtermScrollPortDidTouchEnd);
    W.FromRawValueOfRawValue(W.HtermScrollPortDidTouchCancel);
    W.FromRawValueOfRawValue(W.HtermDidHandleURL);
    W.FromRawValueOfRawValue(W.HtermDidLoad);
  }

  /** Without `window.webkit` the page posts nothing at all. */
  lemma NoWebkitPostsNothing(prop: string, args: seq<Json>, eventType: string)
    ensures Script.Post(false, prop, args).None?
    ensures Script.OnTouch(false, eventType).None? && Script.TerminalReady(false).None?
  {
  }

  /** A resize posted as `[cols, rows]` sets the native size to `(cols, rows)` when both fit in `Int`. */
  lemma ResizeRoundTrip(w: W.Web, cols: int, rows: int, urlParses: bool)
    requires IntMin <= cols <= IntMax && IntMin <= rows <= IntMax
    ensures var m := Script.OnTerminalResize(true, cols, rows).value;
      W.Receive(w, m, urlParses) == W.Received(W.SetSize(w, TerminalSize(cols, rows)), false)
  {
    var m := Script.OnTerminalResize(true, cols, rows).value;
    assert m.name == "htermHandleOnTerminalResize";
    assert W.IsResizeBody(m.body);
  }

  /** A resize whose columns do not fit in `Int` is dropped. */
  lemma OversizedResizeDropped(w: W.Web, cols: int, rows: int, urlParses: bool)
    requires cols > IntMax
    ensures W.Receive(w, Script.OnTerminalResize(true, cols, rows).value, urlParses) == W.Received(w, false)
  {
    var m := Script.OnTerminalResize(true, cols, rows).value;
    assert m.name == "htermHandleOnTerminalResize";
    assert !W.IsResizeBody(m.body);
  }

  /**
   * `syncTerminalSize` returns `[width, height]`, which the native completion may index
   * and reads as `(cols, rows)`.
   */
  lemma SyncRoundTrip(w: W.Web, height: int, width: int)
    requires IntMin <= height <= IntMax && IntMin <= width <= IntMax
    ensures W.SyncResultIndexable(Returned(Script.SyncTerminalSize(height, width)))
    ensures W.SyncTerminalSizeDidComplete(w, Returned(Script.SyncTerminalSize(height, width))).size
      == TerminalSize(width, height)
  {
  }

  /** Strings sent from the page reach the delegate unchanged. */
  lemma StringsRoundTrip(w: W.Web, s: string, urlParses: bool)
    ensures W.Receive(w, Script.SendString(true, s).value, urlParses).web.notes == w.notes + [DidHandleSendString(s)]
    ensures W.Receive(w, Script.OnVTKeyStroke(true, s).value, urlParses).web.notes == w.notes + [DidHandleOnVTKeyStroke(s)]
    ensures W.Receive(w, Script.OpenUrl(true, s).value, urlParses).web.notes ==
      w.notes + (if urlParses then [DidHandleURL(s)] else [])
  {
  }

  /** Readiness posts `htermDidLoad` with a null body, which marks the emulator loaded. */
  lemma ReadyLoads(w: W.Web, urlParses: bool)
    ensures W.Receive(w, Script.TerminalReady(true).value, urlParses) == W.Received(W.SetLoaded(w, true), false)
  {
  }

  /** The screen's focus and blur listeners set the native focus flag and nothing else. */
  lemma FocusListeners(w: W.Web, urlParses: bool)
    ensures W.Receive(w, Script.OnFocus(true).value, urlParses) == W.Received(w.(focused := true), false)
    ensures W.Receive(w, Script.OnBlur(true).value, urlParses) == W.Received(w.(focused := false), false)
  {
  }

  /** A tap in the page (touchstart, then touchend) brings a scrolling view back to input mode. */
  lemma TapReturnsToInputMode(v: V.View, urlParses: bool, granted: bool)
    requires v.mode == Scroll
    ensures var started := V.Receive(v, Script.OnTouch(true, "touchstart").value, urlParses, granted);
      V.Receive(started, Script.OnTouch(true, "touchend").value, urlParses, granted).mode == Input
  {
    var started := V.Receive(v, Script.OnTouch(true, "touchstart").value, urlParses, granted);
    assert started == v.(web := v.web.(touchArmed := true));
  }

  /** A drag in the page (touchstart, touchmove, touchend) leaves the view scrolling. */
  lemma DragStaysInScrollMode(v: V.View, urlParses: bool, granted: bool)
    requires v.mode == Scroll
    ensures var started := V.Receive(v, Script.OnTouch(true, "touchstart").value, urlParses, granted);
      var moved := V.Receive(started, Script.OnTouch(true, "touchmove").value, urlParses, granted);
      V.Receive(moved, Script.OnTouch(true, "touchend").value, urlParses, granted).mode == Scroll
  {
    var start := Script.OnTouch(true, "touchstart").value;
    var move := Script.OnTouch(true, "touchmove").value;
    var end := Script.OnTouch(true, "touchend").value;
    assert start == Message("htermScrollPortDidTouchStart", JNull);
    assert move == Message("htermScrollPortDidTouchMove", JNull);
    assert end == Message("htermScrollPortDidTouchEnd", JNull);
    var started := V.Receive(v, start, urlParses, granted);
    assert started == v.(web := v.web.(touchArmed := true));
    var moved := V.Receive(started, move, urlParses, granted);
    assert moved == v.(web := v.web.(touchArmed := false));
    assert !W.Receive(moved.web, end, urlParses).enterInputMode;
  }
}
