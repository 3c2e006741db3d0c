/**
 * The page side of the bridge (Terminal/Resources/hterm_bridge.js): how the
 * `native` proxy turns a call into a posted message, and which messages the
 * emulator callbacks post. `hasWebkit` stands for `window.webkit` existing.
 */
module HtermBridgeScript {
  import opened Wrappers
  import opened Values
  import W = HtermWebViewSpec

  /** How the native side reads a posted body back as the `n` arguments of the call. */
  function ArgsOf(body: Json, n: nat): seq<Json> {
    if n == 0 then []
    else if n == 1 then [body]
    else if body.JArray? then body.items
    else []
  }

  /**
   * The proxy's argument normalisation. A lone argument is posted bare, not wrapped
   * in an array, and knowing the arity the native side recovers every argument.
   */
  function NormalizedArgs(args: seq<Json>): (body: Json)
    ensures |args| == 0 ==> body == JNull
    ensures |args| == 1 ==> body == args[0]
    ensures |args| >= 2 ==> body.JArray?
    ensures ArgsOf(body, |args|) == args
  {
    if |args| == 0 then JNull
    else if |args| == 1 then args[0]
    else JArray(args)
  }

  /**
   * `native[prop](...args)`: posts only when `window.webkit` exists and the native side
   * registered a handler named `prop`, with a body from which that handler recovers the
   * arguments. For an unregistered name `messageHandlers[prop]` is `undefined` and the
   * call throws instead of posting.
   */
  function Post(hasWebkit: bool, prop: string, args: seq<Json>): (m: Option<Message>)
    ensures m.Some? <==> hasWebkit && W.FromRawValue(prop).Some?
    ensures m.Some? ==> m.value.name == prop && m.value.body == NormalizedArgs(args)
    ensures m.Some? ==> ArgsOf(m.value.body, |args|) == args
  {
    if hasWebkit && W.FromRawValue(prop).Some? then Some(Message(prop, NormalizedArgs(args))) else None
  }

  /** A posted message selects native handler `f`. */
  predicate Selects(m: Option<Message>, f: W.BridgingFunction) {
    m.Some? ==> W.FromRawValue(m.value.name) == Some(f)
  }

  /** `window.native_log`: the stringified object goes to the `log` handler. */
  function NativeLog(hasWebkit: bool, text: string): (m: Option<Message>)
    ensures m.Some? <==> hasWebkit
    ensures Selects(m, W.Log) && (m.Some? ==> m.value.body == JString(text))
  {
    W.FromRawValueOfRawValue(W.Log);
    Post(hasWebkit, "log", [JString(text)])
  }

  /** `io.sendString`: the send-string handler, with the String body it accepts. */
  function SendString(hasWebkit: bool, str: string): (m: Option<Message>)
    ensures m.Some? <==> hasWebkit
    ensures Selects(m, W.HtermHandleSendString)
    ensures m.Some? ==> m.value.body.JString? && m.value.body.s == str
  {
    W.FromRawValueOfRawValue(W.HtermHandleSendString);
    Post(hasWebkit, "htermHandleSendString", [JString(str)])
  }

  /** `io.onVTKeyStroke`: the key-stroke handler, with the String body it accepts. */
  function OnVTKeyStroke(hasWebkit: bool, str: string): (m: Option<Message>)
    ensures m.Some? <==> hasWebkit
    ensures Selects(m, W.HtermHandleOnVTKeyStroke)
    ensures m.Some? ==> m.value.body.JString? && m.value.body.s == str
  {
    W.FromRawValueOfRawValue(W.HtermHandleOnVTKeyStroke);
    Post(hasWebkit, "htermHandleOnVTKeyStroke", [JString(str)])
  }

  /**
   * `io.onTerminalResize(cols, rows)`: the resize handler accepts the body exactly
   * when both numbers fit in `Int`, and then reads columns first.
   */
  function OnTerminalResize(hasWebkit: bool, cols: int, rows: int): (m: Option<Message>)
    ensures m.Some? <==> hasWebkit
    ensures Selects(m, W.HtermHandleOnTerminalResize)
    ensures m.Some? ==> (W.IsResizeBody(m.value.body) <==> IntMin <= cols <= IntMax && IntMin <= rows <= IntMax)
    ensures m.Some? && W.IsResizeBody(m.value.body) ==>
      m.value.body.items[0].n == cols && m.value.body.items[1].n == rows
  {
    W.FromRawValueOfRawValue(W.HtermHandleOnTerminalResize);
    Post(hasWebkit, "htermHandleOnTerminalResize", [JNumber(cols), JNumber(rows)])
  }

  /**
   * `exports.syncTerminalSize()`: the height is realised first, but the result the
   * native completion reads is width first. It may always be indexed twice, and it
   * passes `as? [Int]` exactly when both numbers fit in `Int`.
   */
  function SyncTerminalSize(height: int, width: int): (r: Json)
    ensures W.SyncResultIndexable(Returned(r))
    ensures IsIntArray(r) <==> IntMin <= width <= IntMax && IntMin <= height <= IntMax
    ensures r.JArray? && |r.items| == 2 && r.items[0].JNumber? && r.items[1].JNumber?
    ensures r.items[0].n == width && r.items[1].n == height
  {
    var rows := height;
    var cols := width;
    var r := JArray([JNumber(cols), JNumber(rows)]);
    assert IsIntArray(r) <==> IsSwiftInt(r.items[0]) && IsSwiftInt(r.items[1]) by {
      assert forall k :: 0 <= k < |r.items| ==> r.items[k] == JNumber(cols) || r.items[k] == JNumber(rows);
    }
    r
  }

  /** The screen node's `focus` listener: the focus handler, which ignores its body. */
  function OnFocus(hasWebkit: bool): (m: Option<Message>)
    ensures m.Some? <==> hasWebkit
    ensures Selects(m, W.HtermDidFocusScreen) && (m.Some? ==> m.value.body == JNull)
  {
    W.FromRawValueOfRawValue(W.HtermDidFocusScreen);
    Post(hasWebkit, "htermDidFocusScreen", [])
  }

  /** The screen node's `blur` listener: the blur handler. */
  function OnBlur(hasWebkit: bool): (m: Option<Message>)
    ensures m.Some? <==> hasWebkit
    ensures Selects(m, W.HtermDidBlurScreen) && (m.Some? ==> m.value.body == JNull)
  {
    W.FromRawValueOfRawValue(W.HtermDidBlurScreen);
    Post(hasWebkit, "htermDidBlurScreen", [])
  }

  /**
   * `scrollPort_.onTouch`: each of the four touch types selects its own touch
   * handler, with a null body; any other type posts nothing.
   */
  function OnTouch(hasWebkit: bool, eventType: string): (m: Option<Message>)
    ensures m.Some? <==> hasWebkit && eventType in {"touchstart", "touchmove", "touchend", "touchcancel"}
    ensures m.Some? ==> m.value.body == JNull
    ensures eventType == "touchstart" ==> Selects(m, W.HtermScrollPortDidTouchStart)
    ensures eventType == "touchmove" ==> Selects(m, W.HtermScrollPortDidTouchMove)
    ensures eventType == "touchend" ==> Selects(m, W.HtermScrollPortDidTouchEnd)
    ensures eventType == "touchcancel" ==> Selects(m, W.HtermScrollPortDidTouchCancel)
  {
    W.FromRawValueOfRawValue(W.HtermScrollPortDidTouchStart);
    W.FromRawValueOfRawValue(W.HtermScrollPortDidTouchMove);
    W.FromRawValueOfRawValue(W.HtermScrollPortDidTouchEnd);
    W.FromRawValueOfRawValue(W.HtermScrollPortDidTouchCancel);
    if eventType == "touchstart" then Post(hasWebkit, "htermScrollPortDidTouchStart", [])
    else if eventType == "touchmove" then Post(hasWebkit, "htermScrollPortDidTouchMove", [])
    else if eventType == "touchend" then Post(hasWebkit, "htermScrollPortDidTouchEnd", [])
    else if eventType == "touchcancel" then Post(hasWebkit, "htermScrollPortDidTouchCancel", [])
    else None
  }

  /** `hterm.openUrl`: the URL handler, with the String body it accepts. */
  function OpenUrl(hasWebkit: bool, url: string): (m: Option<Message>)
    ensures m.Some? <==> hasWebkit
    ensures Selects(m, W.HtermDidHandleURL)
    ensures m.Some? ==> m.value.body.JString? && m.value.body.s == url
  {
    W.FromRawValueOfRawValue(W.HtermDidHandleURL);
    Post(hasWebkit, "htermDidHandleURL", [JString(url)])
  }

  /** The last step of `onTerminalReady`: `native.htermDidLoad()`, selecting the did-load handler. */
  function TerminalReady(hasWebkit: bool): (m: Option<Message>)
    ensures m.Some? <==> hasWebkit
    ensures Selects(m, W.HtermDidLoad) && (m.Some? ==> m.value.body == JNull)
  {
    W.FromRawValueOfRawValue(W.HtermDidLoad);
    Post(hasWebkit, "htermDidLoad", [])
  }
}
