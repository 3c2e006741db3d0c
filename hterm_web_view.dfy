/**
 * `HtermWebView` (Sources/Internal/HtermWebView.swift) as a class whose fields
 * are updated in place. Every method is proved to move `State()` exactly as the
 * matching transition of HtermWebViewSpec says.
 */
module HtermWebViewModel {
  import opened Wrappers
  import opened Values
  import Utf8
  import HtermFunctions
  import Spec = HtermWebViewSpec

  /** The delegate: the notifications it has received, in order. */
  class TerminalViewDelegate {
    var notes: seq<Note>

    constructor()
      ensures notes == []
    {
      notes := [];
    }

    method Notify(n: Note)
      modifies this
      ensures notes == old(notes) + [n]
    {
      notes := notes + [n];
    }
  }

  class HtermWebView {
    var isHtermLoaded: bool
    var terminalSize: TerminalSize
    var isHtermFocused: bool
    var isContentEditable: bool
    var backgroundColor: Option<Color>
    var foregroundColor: Color
    var cursorColor: Color
    var isCursorBlink: bool
    var cursorShape: CursorShape
    var fontFamily: string
    var fontSize: UInt
    var isEnableBold: Option<bool>
    var isEnableBoldAsBright: bool
    var shouldEnterInputModeWhenJSTouchEnd: bool
    /** Every JavaScript evaluation issued so far. */
    var calls: seq<JsCall>
    const delegate: TerminalViewDelegate

    function Props(): Spec.Props
      reads this
    {
      Spec.Props(isContentEditable, backgroundColor, foregroundColor, cursorColor, isCursorBlink,
                 cursorShape, fontFamily, fontSize, isEnableBold, isEnableBoldAsBright)
    }

    function State(): Spec.Web
      reads this, delegate
    {
      Spec.Web(isHtermLoaded, isHtermFocused, terminalSize, shouldEnterInputModeWhenJSTouchEnd,
               Props(), calls, delegate.notes)
    }

    constructor(delegate: TerminalViewDelegate)
      ensures this.delegate == delegate
      ensures State() == Spec.Initial.(notes := delegate.notes)
    {
      this.delegate := delegate;
      isHtermLoaded := false;
      terminalSize := ZeroSize;
      isHtermFocused := false;
      isContentEditable := false;
      backgroundColor := Some(Clear);
      foregroundColor := Clear;
      cursorColor := Clear;
      isCursorBlink := false;
      cursorShape := Beam;
      fontFamily := "Menlo";
      fontSize := 9;
      isEnableBold := None;
      isEnableBoldAsBright := true;
      shouldEnterInputModeWhenJSTouchEnd := false;
      calls := [];
    }

    method EvaluateJavaScript(expression: string)
      modifies this
      ensures calls == old(calls) + [Evaluate(expression)]
      ensures State() == Spec.Emit(old(State()), Evaluate(expression))
    {
      calls := calls + [Evaluate(expression)];
    }

    method EvaluateOneArgumentJavaScript(functionName: string, arg: Arg)
      modifies this
      ensures State() == Spec.Emit(old(State()), Invoke(functionName, arg))
    {
      calls := calls + [Invoke(functionName, arg)];
    }

    /** `reloadHtermColors`. */
    method ReloadHtermColors()
      modifies this
      ensures State() == Spec.ReloadColors(old(State()))
    {
      if !isHtermLoaded {
        return;
      }
      EvaluateOneArgumentJavaScript("term.setBackgroundColor", CssColor(backgroundColor.GetOr(Clear)));
      EvaluateOneArgumentJavaScript("term.setForegroundColor", CssColor(foregroundColor));
      EvaluateOneArgumentJavaScript("term.setCursorColor", CssColor(cursorColor));
      EvaluateOneArgumentJavaScript("term.setFontSize", UIntArg(fontSize));
    }

    /** `isHtermLoaded` with its `didSet`. */
    method SetHtermLoaded(value: bool)
      modifies this, delegate
      ensures State() == Spec.SetLoaded(old(State()), value)
    {
      var oldValue := isHtermLoaded;
      isHtermLoaded := value;
      if isHtermLoaded {
        if !oldValue {
          ReloadHtermColors();
        }
        delegate.Notify(DidLoad);
      }
    }

    /** `terminalSize` with its `didSet`. */
    method SetTerminalSize(size: TerminalSize)
      modifies this, delegate
      ensures State() == Spec.SetSize(old(State()), size)
    {
      var oldValue := terminalSize;
      terminalSize := size;
      if oldValue != terminalSize {
        delegate.Notify(DidChangeTerminalSize(oldValue));
      }
    }

    method SetContentEditable(value: bool)
      modifies this
      ensures State() == Spec.SetProperty(old(State()), Spec.ContentEditable(value))
    {
      var oldValue := isContentEditable;
      isContentEditable := value;
      if isHtermLoaded && oldValue != isContentEditable {
        EvaluateJavaScript("term.scrollPort_.getScreenNode().contentEditable = " + if isContentEditable then "true" else "false");
      }
    }

    method SetBackgroundColor(value: Option<Color>)
      modifies this
      ensures State() == Spec.SetProperty(old(State()), Spec.BackgroundColor(value))
    {
      var oldValue := backgroundColor;
      backgroundColor := value;
      if isHtermLoaded && oldValue != backgroundColor {
        EvaluateOneArgumentJavaScript("term.setBackgroundColor", CssColor(backgroundColor.GetOr(Clear)));
      }
    }

    method SetForegroundColor(value: Color)
      modifies this
      ensures State() == Spec.SetProperty(old(State()), Spec.ForegroundColor(value))
    {
      var oldValue := foregroundColor;
      foregroundColor := value;
      if isHtermLoaded && oldValue != foregroundColor {
        EvaluateOneArgumentJavaScript("term.setForegroundColor", CssColor(foregroundColor));
      }
    }

    method SetCursorColor(value: Color)
      modifies this
      ensures State() == Spec.SetProperty(old(State()), Spec.CursorColor(value))
    {
      var oldValue := cursorColor;
      cursorColor := value;
      if isHtermLoaded && oldValue != cursorColor {
        EvaluateOneArgumentJavaScript("term.setCursorColor", CssColor(cursorColor));
      }
    }

    method SetCursorBlink(value: bool)
      modifies this
      ensures State() == Spec.SetProperty(old(State()), Spec.CursorBlink(value))
    {
      var oldValue := isCursorBlink;
      isCursorBlink := value;
      if isHtermLoaded && oldValue != isCursorBlink {
        EvaluateOneArgumentJavaScript("term.setCursorBlink", BoolArg(isCursorBlink));
      }
    }

    method SetCursorShape(value: CursorShape)
      modifies this
      ensures State() == Spec.SetProperty(old(State()), Spec.CursorShapeUpdate(value))
    {
      var oldValue := cursorShape;
      cursorShape := value;
      if isHtermLoaded && oldValue != cursorShape {
        EvaluateOneArgumentJavaScript("term.setCursorShape", StringArg(cursorShape.RawValue()));
      }
    }

    method SetFontFamily(value: string)
      modifies this
      ensures State() == Spec.SetProperty(old(State()), Spec.FontFamily(value))
    {
      var oldValue := fontFamily;
      fontFamily := value;
      if isHtermLoaded && oldValue != fontFamily {
        EvaluateOneArgumentJavaScript("exports.setFontFamily", StringArg(fontFamily));
      }
    }

    method SetFontSize(value: UInt)
      modifies this
      ensures State() == Spec.SetProperty(old(State()), Spec.FontSize(value))
    {
      var oldValue := fontSize;
      fontSize := value;
      if isHtermLoaded && oldValue != fontSize && 2 <= fontSize && fontSize <= 100 {
        EvaluateOneArgumentJavaScript("term.setFontSize", UIntArg(fontSize));
      }
    }

    method SetEnableBold(value: Option<bool>)
      modifies this
      ensures State() == Spec.SetProperty(old(State()), Spec.EnableBold(value))
    {
      var oldValue := isEnableBold;
      isEnableBold := value;
      if isHtermLoaded && oldValue != isEnableBold {
        EvaluateOneArgumentJavaScript("exports.setEnableBold", OptionalBoolArg(isEnableBold));
      }
    }

    method SetEnableBoldAsBright(value: bool)
      modifies this
      ensures State() == Spec.SetProperty(old(State()), Spec.EnableBoldAsBright(value))
    {
      var oldValue := isEnableBoldAsBright;
      isEnableBoldAsBright := value;
      if isHtermLoaded && oldValue != isEnableBoldAsBright {
        EvaluateOneArgumentJavaScript("exports.setEnableBoldAsBright", BoolArg(isEnableBoldAsBright));
      }
    }

    /** `traitCollectionDidChange`. */
    method TraitCollectionDidChange(appearanceChanged: bool)
      modifies this
      ensures State() == Spec.TraitCollectionDidChange(old(State()), appearanceChanged)
    {
      if appearanceChanged {
        ReloadHtermColors();
      }
    }

    /** `reloadHterm`. */
    method ReloadHterm()
      modifies this, delegate
      ensures State() == Spec.ReloadHterm(old(State()))
    {
      SetTerminalSize(ZeroSize);
      HtermBlur();
      SetHtermLoaded(false);
    }

    /**
     * `userContentController(_:didReceive:)`. The result says whether the handler
     * called the parent view's `enterInputMode`, which the view then does.
     */
    method Receive(message: Message, urlParses: bool) returns (enterInputMode: bool)
      modifies this, delegate
      ensures Spec.Receive(old(State()), message, urlParses) == Spec.Received(State(), enterInputMode)
    {
      enterInputMode := false;
      var bridgingFunction := Spec.FromRawValue(message.name);
      if bridgingFunction.None? {
        return;
      }
      match bridgingFunction.value
      case Log =>
      case HtermDidLoad =>
        SetHtermLoaded(true);
      case HtermDidFocusScreen =>
        isHtermFocused := true;
      case HtermDidBlurScreen =>
        isHtermFocused := false;
      case HtermScrollPortDidTouchStart =>
        shouldEnterInputModeWhenJSTouchEnd := true;
      case HtermScrollPortDidTouchMove =>
        shouldEnterInputModeWhenJSTouchEnd := false;
      case HtermScrollPortDidTouchEnd =>
        if shouldEnterInputModeWhenJSTouchEnd {
          shouldEnterInputModeWhenJSTouchEnd := false;
          enterInputMode := true;
        }
      case HtermScrollPortDidTouchCancel =>
        shouldEnterInputModeWhenJSTouchEnd := false;
      case HtermDidHandleURL =>
        if message.body.JString? && urlParses {
          delegate.Notify(DidHandleURL(message.body.s));
        }
      case HtermHandleSendString =>
        if message.body.JString? {
          delegate.Notify(DidHandleSendString(message.body.s));
          SetUserGesture();
        }
      case HtermHandleOnVTKeyStroke =>
        if message.body.JString? {
          delegate.Notify(DidHandleOnVTKeyStroke(message.body.s));
          SetUserGesture();
        }
      case HtermHandleOnTerminalResize =>
        if Spec.IsResizeBody(message.body) {
          var cols := message.body.items[0].n;
          var rows := message.body.items[1].n;
          SetTerminalSize(TerminalSize(cols, rows));
        }
    }

    /** `htermFocus`; the completion is `FocusDidComplete`. */
    method HtermFocus()
      modifies this
      ensures State() == Spec.HtermFocus(old(State()))
    {
      if !(isHtermLoaded && !isHtermFocused) {
        return;
      }
      EvaluateJavaScript("term.focus()");
    }

    method FocusDidComplete(succeeded: bool)
      modifies this
      ensures State() == Spec.FocusDidComplete(old(State()), succeeded)
    {
      if succeeded {
        isHtermFocused := true;
      }
    }

    /** `htermBlur`; the completion is `BlurDidComplete`. */
    method HtermBlur()
      modifies this
      ensures State() == Spec.HtermBlur(old(State()))
    {
      if !(isHtermLoaded && isHtermFocused) {
        return;
      }
      EvaluateJavaScript("term.blur()");
    }

    method BlurDidComplete(succeeded: bool)
      modifies this
      ensures State() == Spec.BlurDidComplete(old(State()), succeeded)
    {
      if succeeded {
        isHtermFocused := false;
      }
    }

    /** `write`. */
    method Write(data: seq<Utf8.byte>)
      modifies this
      ensures State() == Spec.Write(old(State()), data)
    {
      if !isHtermLoaded {
        return;
      }
      var str := Utf8.Decode(data);
      if str.None? {
        return;
      }
      EvaluateOneArgumentJavaScript("exports.write", StringArg(str.value));
    }

    /** `syncTerminalSize`; the completion is `SyncTerminalSizeDidComplete`. */
    method SyncTerminalSize()
      modifies this
      ensures State() == Spec.SyncTerminalSize(old(State()))
    {
      if !isHtermLoaded {
        return;
      }
      EvaluateJavaScript("exports.syncTerminalSize()");
    }

    method SyncTerminalSizeDidComplete(result: EvalResult)
      requires Spec.SyncResultIndexable(result)
      modifies this, delegate
      ensures State() == Spec.SyncTerminalSizeDidComplete(old(State()), result)
    {
      if result.Failed? || !IsIntArray(result.value) {
        return;
      }
      var items := result.value.items;
      assert IsSwiftInt(items[0]) && IsSwiftInt(items[1]);
      SetTerminalSize(TerminalSize(items[0].n, items[1].n));
    }

    method ClearSelection()
      modifies this
      ensures State() == Spec.ClearSelection(old(State()))
    {
      if !isHtermLoaded {
        return;
      }
      EvaluateJavaScript("exports.clearSelection()");
    }

    method HtermScroll(f: HtermFunctions.HtermScrollFunction)
      modifies this
      ensures State() == Spec.HtermScroll(old(State()), f)
    {
      if !isHtermLoaded {
        return;
      }
      EvaluateJavaScript(f.RawValue());
    }

    method HtermClear(f: HtermFunctions.HtermClearFunction)
      modifies this
      ensures State() == Spec.HtermClear(old(State()), f)
    {
      if !isHtermLoaded {
        return;
      }
      EvaluateJavaScript(f.RawValue());
    }

    method HtermErase(f: HtermFunctions.HtermEraseFunction)
      modifies this
      ensures State() == Spec.HtermErase(old(State()), f)
    {
      if !isHtermLoaded {
        return;
      }
      EvaluateJavaScript(f.RawValue());
    }

    method SetUserGesture()
      modifies this
      ensures State() == Spec.SetUserGesture(old(State()))
    {
      if !isHtermLoaded {
        return;
      }
      EvaluateJavaScript("exports.setUserGesture()");
    }

    method Copy()
      modifies this
      ensures State() == Spec.Copy(old(State()))
    {
      if !isHtermLoaded {
        return;
      }
      EvaluateJavaScript("term.getSelectionText()");
    }

    /** `getVisibleText`: `immediate` is the answer the callback gets at once, if any. */
    method GetVisibleText() returns (immediate: Option<string>)
      modifies this
      ensures Spec.GetVisibleText(old(State())) == Spec.TextQuery(State(), immediate)
    {
      if !isHtermLoaded {
        return Some("");
      }
      EvaluateJavaScript("exports.getVisibleText()");
      immediate := None;
    }

    method GetAllText() returns (immediate: Option<string>)
      modifies this
      ensures Spec.GetAllText(old(State())) == Spec.TextQuery(State(), immediate)
    {
      if !isHtermLoaded {
        return Some("");
      }
      EvaluateJavaScript("exports.getAllText()");
      immediate := None;
    }
  }
}
