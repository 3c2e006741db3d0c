/**
 * What `HtermWebView` (Sources/Internal/HtermWebView.swift) does, as transitions
 * on a snapshot of its state. Each outbound `evaluateJavaScript` is appended to
 * `calls`; each delegate callback is appended to `notes`. The class in
 * HtermWebViewModel is proved to follow these transitions.
 */
module HtermWebViewSpec {
  import opened Wrappers
  import opened Values
  import Utf8
  import HtermFunctions

  /** The presentation properties with their `didSet` observers. */
  datatype Props = Props(
    isContentEditable: bool,
    backgroundColor: Option<Color>,
    foregroundColor: Color,
    cursorColor: Color,
    isCursorBlink: bool,
    cursorShape: CursorShape,
    fontFamily: string,
    fontSize: UInt,
    isEnableBold: Option<bool>,
    isEnableBoldAsBright: bool)

  /** The declared initial values (`init` sets the background to `.clear`). */
  const DefaultProps: Props :=
    Props(false, Some(Clear), Clear, Clear, false, Beam, "Menlo", 9, None, true)

  /** The observable state of the web view, with the two output logs. */
  datatype Web = Web(
    loaded: bool,
    focused: bool,
    size: TerminalSize,
    touchArmed: bool,
    props: Props,
    calls: seq<JsCall>,
    notes: seq<Note>)

  const Initial: Web := Web(false, false, ZeroSize, false, DefaultProps, [], [])

  function Emit(w: Web, c: JsCall): Web {
    w.(calls := w.calls + [c])
  }

  function Notify(w: Web, n: Note): Web {
    w.(notes := w.notes + [n])
  }

  /** The four calls `reloadHtermColors` makes, in order: background, foreground, cursor colour, font size. */
  function ColorCalls(p: Props): seq<JsCall> {
    [ Invoke("term.setBackgroundColor", CssColor(p.backgroundColor.GetOr(Clear))),
      Invoke("term.setForegroundColor", CssColor(p.foregroundColor)),
      Invoke("term.setCursorColor", CssColor(p.cursorColor)),
      Invoke("term.setFontSize", UIntArg(p.fontSize)) ]
  }

  /** `reloadHtermColors`: only when loaded; the font size is pushed without a range check. */
  function ReloadColors(w: Web): Web {
    if !w.loaded then w else w.(calls := w.calls + ColorCalls(w.props))
  }

  /** Assigning `isHtermLoaded`: colours on a false-to-true edge, the did-load callback on every `true`. */
  function SetLoaded(w: Web, value: bool): (r: Web)
    ensures r.loaded == value
    ensures r.focused == w.focused && r.size == w.size && r.touchArmed == w.touchArmed && r.props == w.props
    ensures r.calls == w.calls + (if value && !w.loaded then ColorCalls(w.props) else [])
    ensures r.notes == w.notes + (if value then [DidLoad] else [])
  {
    if value then
      var pushed := if !w.loaded then ReloadColors(w.(loaded := true)) else w.(loaded := true);
      Notify(pushed, DidLoad)
    else
      w.(loaded := false)
  }

  /** Assigning `terminalSize`: the delegate hears the old size only when it changes. */
  function SetSize(w: Web, s: TerminalSize): (r: Web)
    ensures r.size == s
    ensures r.notes == w.notes + (if s != w.size then [DidChangeTerminalSize(w.size)] else [])
    ensures r == w.(size := s, notes := r.notes)
  {
    if w.size != s then Notify(w.(size := s), DidChangeTerminalSize(w.size)) else w.(size := s)
  }

  /** An assignment to one presentation property. */
  datatype PropUpdate =
    | ContentEditable(editable: bool)
    | BackgroundColor(background: Option<Color>)
    | ForegroundColor(foreground: Color)
    | CursorColor(cursor: Color)
    | CursorBlink(blink: bool)
    | CursorShapeUpdate(shape: CursorShape)
    | FontFamily(family: string)
    | FontSize(size: UInt)
    | EnableBold(bold: Option<bool>)
    | EnableBoldAsBright(bright: bool)

  /** The stored properties after the assignment. */
  function Apply(p: Props, u: PropUpdate): Props {
    match u
    case ContentEditable(b) => p.(isContentEditable := b)
    case BackgroundColor(c) => p.(backgroundColor := c)
    case ForegroundColor(c) => p.(foregroundColor := c)
    case CursorColor(c) => p.(cursorColor := c)
    case CursorBlink(b) => p.(isCursorBlink := b)
    case CursorShapeUpdate(s) => p.(cursorShape := s)
    case FontFamily(f) => p.(fontFamily := f)
    case FontSize(n) => p.(fontSize := n)
    case EnableBold(b) => p.(isEnableBold := b)
    case EnableBoldAsBright(b) => p.(isEnableBoldAsBright := b)
  }

  /** `oldValue != newValue` in the observer of the assigned property. */
  predicate Differs(p: Props, u: PropUpdate) {
    match u
    case ContentEditable(b) => p.isContentEditable != b
    case BackgroundColor(c) => p.backgroundColor != c
    case ForegroundColor(c) => p.foregroundColor != c
    case CursorColor(c) => p.cursorColor != c
    case CursorBlink(b) => p.isCursorBlink != b
    case CursorShapeUpdate(s) => p.cursorShape != s
    case FontFamily(f) => p.fontFamily != f
    case FontSize(n) => p.fontSize != n
    case EnableBold(b) => p.isEnableBold != b
    case EnableBoldAsBright(b) => p.isEnableBoldAsBright != b
  }

  /** An observer's `oldValue != newValue` holds exactly when the assignment changes the stored properties. */
  lemma ChangesIffDiffers(p: Props, u: PropUpdate)
    ensures Differs(p, u) <==> Apply(p, u) != p
  {
    match u
    case ContentEditable(b) => assert Apply(p, u).isContentEditable == b;
    case BackgroundColor(c) => assert Apply(p, u).backgroundColor == c;
    case ForegroundColor(c) => assert Apply(p, u).foregroundColor == c;
    case CursorColor(c) => assert Apply(p, u).cursorColor == c;
    case CursorBlink(b) => assert Apply(p, u).isCursorBlink == b;
    case CursorShapeUpdate(s) => assert Apply(p, u).cursorShape == s;
    case FontFamily(f) => assert Apply(p, u).fontFamily == f;
    case FontSize(n) => assert Apply(p, u).fontSize == n;
    case EnableBold(b) => assert Apply(p, u).isEnableBold == b;
    case EnableBoldAsBright(b) => assert Apply(p, u).isEnableBoldAsBright == b;
  }

  /** The extra guard of the font-size observer: `2 <= fontSize <= 100`. */
  predicate InRange(u: PropUpdate) {
    u.FontSize? ==> 2 <= u.size <= 100
  }

  /** The call each observer makes. */
  function PropCall(u: PropUpdate): JsCall {
    match u
    case ContentEditable(b) =>
      Evaluate("term.scrollPort_.getScreenNode().contentEditable = " + if b then "true" else "false")
    case BackgroundColor(c) => Invoke("term.setBackgroundColor", CssColor(c.GetOr(Clear)))
    case ForegroundColor(c) => Invoke("term.setForegroundColor", CssColor(c))
    case CursorColor(c) => Invoke("term.setCursorColor", CssColor(c))
    case CursorBlink(b) => Invoke("term.setCursorBlink", BoolArg(b))
    case CursorShapeUpdate(s) => Invoke("term.setCursorShape", StringArg(s.RawValue()))
    case FontFamily(f) => Invoke("exports.setFontFamily", StringArg(f))
    case FontSize(n) => Invoke("term.setFontSize", UIntArg(n))
    case EnableBold(b) => Invoke("exports.setEnableBold", OptionalBoolArg(b))
    case EnableBoldAsBright(b) => Invoke("exports.setEnableBoldAsBright", BoolArg(b))
  }

  /**
   * Assigning a presentation property. The value is always stored; exactly one
   * call is emitted iff the emulator is loaded, the stored properties actually
   * change and (for the font size) the size is in 2..100.
   */
  function SetProperty(w: Web, u: PropUpdate): (r: Web)
    ensures r.props == Apply(w.props, u)
    ensures r.calls == w.calls + (if w.loaded && Apply(w.props, u) != w.props && InRange(u) then [PropCall(u)] else [])
    ensures r == w.(props := r.props, calls := r.calls)
  {
    ChangesIffDiffers(w.props, u);
    var stored := w.(props := Apply(w.props, u));
    if w.loaded && Differs(w.props, u) && InRange(u) then Emit(stored, PropCall(u)) else stored
  }

  /** `HtermBridgingFunction`: the message handler names. */
  datatype BridgingFunction =
    | Log
    | HtermDidLoad
    | HtermDidFocusScreen
    | HtermDidBlurScreen
    | HtermScrollPortDidTouchStart
    | HtermScrollPortDidTouchMove
    | HtermScrollPortDidTouchEnd
    | HtermScrollPortDidTouchCancel
    | HtermDidHandleURL
    | HtermHandleSendString
    | HtermHandleOnVTKeyStroke
    | HtermHandleOnTerminalResize
  {
    function RawValue(): string {
      match this
      case Log => "log"
      case HtermDidLoad => "htermDidLoad"
      case HtermDidFocusScreen => "htermDidFocusScreen"
      case HtermDidBlurScreen => "htermDidBlurScreen"
      case HtermScrollPortDidTouchStart => "htermScrollPortDidTouchStart"
      case HtermScrollPortDidTouchMove => "htermScrollPortDidTouchMove"
      case HtermScrollPortDidTouchEnd => "htermScrollPortDidTouchEnd"
      case HtermScrollPortDidTouchCancel => "htermScrollPortDidTouchCancel"
      case HtermDidHandleURL => "htermDidHandleURL"
      case HtermHandleSendString => "htermHandleSendString"
      case HtermHandleOnVTKeyStroke => "htermHandleOnVTKeyStroke"
      case HtermHandleOnTerminalResize => "htermHandleOnTerminalResize"
    }
  }

  /** `HtermBridgingFunction(rawValue:)`: the case with that handler name, if any. */
  function FromRawValue(name: string): (r: Option<BridgingFunction>)
    ensures r.Some? ==> r.value.RawValue() == name
  {
    if name == "log" then Some(Log)
    else if name == "htermDidLoad" then Some(HtermDidLoad)
    else if name == "htermDidFocusScreen" then Some(HtermDidFocusScreen)
    else if name == "htermDidBlurScreen" then Some(HtermDidBlurScreen)
    else if name == "htermScrollPortDidTouchStart" then Some(HtermScrollPortDidTouchStart)
    else if name == "htermScrollPortDidTouchMove" then Some(HtermScrollPortDidTouchMove)
    else if name == "htermScrollPortDidTouchEnd" then Some(HtermScrollPortDidTouchEnd)
    else if name == "htermScrollPortDidTouchCancel" then Some(HtermScrollPortDidTouchCancel)
    else if name == "htermDidHandleURL" then Some(HtermDidHandleURL)
    else if name == "htermHandleSendString" then Some(HtermHandleSendString)
    else if name == "htermHandleOnVTKeyStroke" then Some(HtermHandleOnVTKeyStroke)
    else if name == "htermHandleOnTerminalResize" then Some(HtermHandleOnTerminalResize)
    else None
  }

  /** Every case is found again from its own name, so names and cases correspond one to one. */
  lemma FromRawValueOfRawValue(f: BridgingFunction)
    ensures FromRawValue(f.RawValue()) == Some(f)
  {
  }

  /** The only resize body the handler accepts: an array of exactly two `Int`s. */
  predicate IsResizeBody(body: Json) {
    body.JArray? && |body.items| == 2 && IsSwiftInt(body.items[0]) && IsSwiftInt(body.items[1])
  }

  /** The outcome of one inbound message; `enterInputMode` is the call back into the parent view. */
  datatype Received = Received(web: Web, enterInputMode: bool)

  /** `userContentController(_:didReceive:)`; `urlParses` is whether `URL(string:)` accepts the body. */
  function Receive(w: Web, m: Message, urlParses: bool): Received {
    match FromRawValue(m.name)
    case None => Received(w, false)
    case Some(f) =>
      match f
      case Log => Received(w, false)
      case HtermDidLoad => Received(SetLoaded(w, true), false)
      case HtermDidFocusScreen => Received(w.(focused := true), false)
      case HtermDidBlurScreen => Received(w.(focused := false), false)
      case HtermScrollPortDidTouchStart => Received(w.(touchArmed := true), false)
      case HtermScrollPortDidTouchMove => Received(w.(touchArmed := false), false)
      case HtermScrollPortDidTouchEnd =>
        if w.touchArmed then Received(w.(touchArmed := false), true) else Received(w, false)
      case HtermScrollPortDidTouchCancel => Received(w.(touchArmed := false), false)
      case HtermDidHandleURL =>
        if m.body.JString? && urlParses then Received(Notify(w, DidHandleURL(m.body.s)), false)
        else Received(w, false)
      case HtermHandleSendString =>
        if m.body.JString? then Received(SetUserGesture(Notify(w, DidHandleSendString(m.body.s))), false)
        else Received(w, false)
      case HtermHandleOnVTKeyStroke =>
        if m.body.JString? then Received(SetUserGesture(Notify(w, DidHandleOnVTKeyStroke(m.body.s))), false)
        else Received(w, false)
      case HtermHandleOnTerminalResize =>
        if IsResizeBody(m.body) then
          Received(SetSize(w, TerminalSize(m.body.items[0].n, m.body.items[1].n)), false)
        else Received(w, false)
  }

  /** `htermFocus`: `term.focus()` only when loaded and not focused; the flag waits for the completion. */
  function HtermFocus(w: Web): Web {
    if w.loaded && !w.focused then Emit(w, Evaluate("term.focus()")) else w
  }

  /** The completion of `term.focus()`: the flag is set only on success. */
  function FocusDidComplete(w: Web, succeeded: bool): Web {
    if succeeded then w.(focused := true) else w
  }

  /** `htermBlur`: `term.blur()` only when loaded and focused. */
  function HtermBlur(w: Web): Web {
    if w.loaded && w.focused then Emit(w, Evaluate("term.blur()")) else w
  }

  /** The completion of `term.blur()`. */
  function BlurDidComplete(w: Web, succeeded: bool): Web {
    if succeeded then w.(focused := false) else w
  }

  /** `write`: only when loaded and only when the bytes decode as UTF-8. */
  function Write(w: Web, data: seq<Utf8.byte>): Web {
    if !w.loaded then w
    else match Utf8.Decode(data)
      case None => w
      case Some(str) => Emit(w, Invoke("exports.write", StringArg(str)))
  }

  /** `syncTerminalSize`: asks the page for its size, only when loaded. */
  function SyncTerminalSize(w: Web): Web {
    if w.loaded then Emit(w, Evaluate("exports.syncTerminalSize()")) else w
  }

  /** What the completion of `syncTerminalSize` needs: an `[Int]` result has at least two elements. */
  predicate SyncResultIndexable(result: EvalResult) {
    result.Returned? && IsIntArray(result.value) ==> |result.value.items| >= 2
  }

  /** The completion of `syncTerminalSize`: an `[Int]` result is read as `[cols, rows]`; anything else is dropped. */
  function SyncTerminalSizeDidComplete(w: Web, result: EvalResult): Web
    requires SyncResultIndexable(result)
  {
    if result.Returned? && IsIntArray(result.value) then
      var items := result.value.items;
      assert IsSwiftInt(items[0]) && IsSwiftInt(items[1]);
      SetSize(w, TerminalSize(items[0].n, items[1].n))
    else w
  }

  /** `clearSelection`. */
  function ClearSelection(w: Web): Web {
    if w.loaded then Emit(w, Evaluate("exports.clearSelection()")) else w
  }

  /** `htermScroll`. */
  function HtermScroll(w: Web, f: HtermFunctions.HtermScrollFunction): Web {
    if w.loaded then Emit(w, Evaluate(f.RawValue())) else w
  }

  /** `htermClear`. */
  function HtermClear(w: Web, f: HtermFunctions.HtermClearFunction): Web {
    if w.loaded then Emit(w, Evaluate(f.RawValue())) else w
  }

  /** `htermErase`. */
  function HtermErase(w: Web, f: HtermFunctions.HtermEraseFunction): Web {
    if w.loaded then Emit(w, Evaluate(f.RawValue())) else w
  }

  /** `setUserGesture`. */
  function SetUserGesture(w: Web): Web {
    if w.loaded then Emit(w, Evaluate("exports.setUserGesture()")) else w
  }

  /** `copy(_:)`: asks for the selection text; the pasteboard write is not modelled. */
  function Copy(w: Web): Web {
    if w.loaded then Emit(w, Evaluate("term.getSelectionText()")) else w
  }

  /** A text query: the state after it, and the answer when the callback runs at once. */
  datatype TextQuery = TextQuery(web: Web, immediate: Option<string>)

  /** `getVisibleText`: answers "" at once when not loaded; otherwise asks the page. */
  function GetVisibleText(w: Web): TextQuery {
    if !w.loaded then TextQuery(w, Some("")) else TextQuery(Emit(w, Evaluate("exports.getVisibleText()")), None)
  }

  /** `getAllText`. */
  function GetAllText(w: Web): TextQuery {
    if !w.loaded then TextQuery(w, Some("")) else TextQuery(Emit(w, Evaluate("exports.getAllText()")), None)
  }

  /** The string a text query's completion hands to the callback: the result when it is a String, else "". */
  function TextReply(result: EvalResult): (s: string)
    ensures result.Returned? && result.value.JString? ==> s == result.value.s
    ensures !(result.Returned? && result.value.JString?) ==> s == ""
  {
    match result
    case Failed => ""
    case Returned(j) => if j.JString? then j.s else ""
  }

  /** `traitCollectionDidChange`: colours are re-pushed when the colour appearance changed. */
  function TraitCollectionDidChange(w: Web, appearanceChanged: bool): Web {
    if appearanceChanged then ReloadColors(w) else w
  }

  /** `reloadHterm`: size to zero, blur while still loaded, then mark unloaded. The page reload is not modelled. */
  function ReloadHterm(w: Web): Web {
    SetLoaded(HtermBlur(SetSize(w, ZeroSize)), false)
  }
}
