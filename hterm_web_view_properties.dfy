/** Properties of the `HtermWebView` transitions that relate several steps or guard outcomes. */
module HtermWebViewProperties {
  import opened Wrappers
  import opened Values
  import Utf8
  import HtermFunctions
  import opened HtermWebViewSpec

  /**
   * Loading pushes background, foreground, cursor colour and font size once, on the
   * false-to-true edge; a second `true` pushes nothing but notifies the delegate again.
   */
  lemma LoadTwice(w: Web)
    requires !w.loaded
    ensures SetLoaded(w, true).calls == w.calls + ColorCalls(w.props)
    ensures SetLoaded(SetLoaded(w, true), true).calls == SetLoaded(w, true).calls
    ensures SetLoaded(SetLoaded(w, true), true).notes == w.notes + [DidLoad, DidLoad]
  {
  }

  /** The names of the functions a load pushes: nothing for font family, cursor shape, blink or bold. */
  lemma ColorCallFunctions(p: Props)
    ensures forall c :: c in ColorCalls(p) ==>
      c.Invoke? && c.functionName in ["term.setBackgroundColor", "term.setForegroundColor", "term.setCursorColor", "term.setFontSize"]
  {
  }

  /**
   * A font size latched while unloaded is pushed by the next load even when it is
   * outside 2..100, where assigning it while loaded would push nothing.
   */
  lemma LatchedFontSizeSkipsRangeCheck(w: Web, n: UInt)
    requires !w.loaded && n > 100
    ensures SetProperty(w, FontSize(n)).calls == w.calls
    ensures var loaded := SetLoaded(SetProperty(w, FontSize(n)), true);
      |loaded.calls| == |w.calls| + 4 && loaded.calls[|w.calls| + 3] == Invoke("term.setFontSize", UIntArg(n))
    ensures SetProperty(SetLoaded(w, true), FontSize(n)).calls == SetLoaded(w, true).calls
  {
  }

  /** A font family latched while unloaded is never pushed by the load. */
  lemma LatchedFontFamilyNotPushed(w: Web, family: string)
    requires !w.loaded
    ensures var loaded := SetLoaded(SetProperty(w, FontFamily(family)), true);
      loaded.props.fontFamily == family &&
      forall c :: c in loaded.calls[|w.calls|..] ==> c != Invoke("exports.setFontFamily", StringArg(family))
  {
    var loaded := SetLoaded(SetProperty(w, FontFamily(family)), true);
    assert loaded.calls[|w.calls|..] == ColorCalls(w.props.(fontFamily := family));
    ColorCallFunctions(w.props.(fontFamily := family));
  }

  /** Assigning the same value twice emits at most one call: the second assignment is silent. */
  lemma SetPropertyTwice(w: Web, u: PropUpdate)
    ensures SetProperty(SetProperty(w, u), u) == SetProperty(w, u)
  {
    ChangesIffDiffers(Apply(w.props, u), u);
    assert Apply(Apply(w.props, u), u) == Apply(w.props, u) by {
      match u
      case ContentEditable(b) =>
      case BackgroundColor(c) =>
      case ForegroundColor(c) =>
      case CursorColor(c) =>
      case CursorBlink(b) =>
      case CursorShapeUpdate(s) =>
      case FontFamily(f) =>
      case FontSize(n) =>
      case EnableBold(b) =>
      case EnableBoldAsBright(b) =>
    }
  }

  /** Assigning an equal size emits nothing; assigning a new one notifies the old size once. */
  lemma SetSizeTwice(w: Web, s: TerminalSize)
    ensures SetSize(SetSize(w, s), s) == SetSize(w, s)
    ensures SetSize(w, w.size) == w
  {
  }

  /** The touch messages, whatever their bodies. */
  function TouchMessage(f: BridgingFunction, body: Json): Message {
    Message(f.RawValue(), body)
  }

  /** TouchEnd calls back into the view exactly when the flag was set, and always leaves it clear. */
  lemma TouchEndEntersInputModeIffArmed(w: Web, body: Json, urlParses: bool)
    ensures var r := Receive(w, TouchMessage(HtermScrollPortDidTouchEnd, body), urlParses);
      r.enterInputMode == w.touchArmed && r.web == w.(touchArmed := false)
  {
  }

  /** A tap (start then end) enters input mode; a start interrupted by a move or a cancel does not. */
  lemma TouchSequences(w: Web, interrupt: BridgingFunction, b1: Json, b2: Json, b3: Json, urlParses: bool)
    requires interrupt == HtermScrollPortDidTouchMove || interrupt == HtermScrollPortDidTouchCancel
    ensures var started := Receive(w, TouchMessage(HtermScrollPortDidTouchStart, b1), urlParses).web;
      Receive(started, TouchMessage(HtermScrollPortDidTouchEnd, b2), urlParses).enterInputMode
    ensures var started := Receive(w, TouchMessage(HtermScrollPortDidTouchStart, b1), urlParses).web;
      var interrupted := Receive(started, TouchMessage(interrupt, b2), urlParses);
      !interrupted.enterInputMode &&
      !Receive(interrupted.web, TouchMessage(HtermScrollPortDidTouchEnd, b3), urlParses).enterInputMode
  {
  }

  /** Only a TouchEnd with the flag set calls back into the view. */
  lemma OnlyArmedTouchEndEntersInputMode(w: Web, m: Message, urlParses: bool)
    requires Receive(w, m, urlParses).enterInputMode
    ensures m.name == "htermScrollPortDidTouchEnd" && w.touchArmed
  {
  }

  /** A message whose name is no handler's is ignored. */
  lemma UnknownNameIgnored(w: Web, m: Message, urlParses: bool)
    requires FromRawValue(m.name) == None
    ensures Receive(w, m, urlParses) == Received(w, false)
  {
  }

  /** A resize changes the size only for a two-element array of `Int`s, taken as `[cols, rows]`; any other body changes nothing. */
  lemma ResizeMessage(w: Web, body: Json, urlParses: bool)
    ensures var r := Receive(w, Message("htermHandleOnTerminalResize", body), urlParses);
      !r.enterInputMode &&
      if IsResizeBody(body) then r.web == SetSize(w, TerminalSize(body.items[0].n, body.items[1].n))
      else r.web == w
  {
  }

  /** A String body is forwarded to the delegate, then the user gesture is flagged; any other body does nothing. */
  lemma SendStringMessage(w: Web, body: Json, urlParses: bool)
    ensures var r := Receive(w, Message("htermHandleSendString", body), urlParses).web;
      if body.JString? then
        r.notes == w.notes + [DidHandleSendString(body.s)] &&
        r.calls == w.calls + (if w.loaded then [Evaluate("exports.setUserGesture()")] else []) &&
        r == w.(notes := r.notes, calls := r.calls)
      else r == w
  {
  }

  /** The same for key strokes. */
  lemma VTKeyStrokeMessage(w: Web, body: Json, urlParses: bool)
    ensures var r := Receive(w, Message("htermHandleOnVTKeyStroke", body), urlParses).web;
      if body.JString? then
        r.notes == w.notes + [DidHandleOnVTKeyStroke(body.s)] &&
        r.calls == w.calls + (if w.loaded then [Evaluate("exports.setUserGesture()")] else []) &&
        r == w.(notes := r.notes, calls := r.calls)
      else r == w
  {
  }

  /** A URL reaches the delegate only when the body is a String that parses as a URL. */
  lemma UrlMessage(w: Web, body: Json, urlParses: bool)
    ensures var r := Receive(w, Message("htermDidHandleURL", body), urlParses).web;
      r == if body.JString? && urlParses then w.(notes := w.notes + [DidHandleURL(body.s)]) else w
  {
  }

  /** While unloaded, no outbound operation emits anything and both text queries answer "" at once. */
  lemma UnloadedEmitsNothing(w: Web, data: seq<Utf8.byte>, sf: HtermFunctions.HtermScrollFunction,
                             cf: HtermFunctions.HtermClearFunction, ef: HtermFunctions.HtermEraseFunction)
    requires !w.loaded
    ensures HtermFocus(w) == w && HtermBlur(w) == w && Write(w, data) == w
    ensures SyncTerminalSize(w) == w && ClearSelection(w) == w && SetUserGesture(w) == w && Copy(w) == w
    ensures HtermScroll(w, sf) == w && HtermClear(w, cf) == w && HtermErase(w, ef) == w
    ensures ReloadColors(w) == w
    ensures GetVisibleText(w) == TextQuery(w, Some("")) && GetAllText(w) == TextQuery(w, Some(""))
  {
  }

  /** When loaded, writing the UTF-8 encoding of a string hands exactly that string to the page. */
  lemma WriteEncodedText(w: Web, s: string)
    requires w.loaded
    ensures Write(w, Utf8.Encode(s)) == w.(calls := w.calls + [Invoke("exports.write", StringArg(s))])
  {
    Utf8.DecodeEncode(s);
  }

  /** Whatever `write` hands to the page re-encodes to exactly the bytes given; malformed bytes emit nothing. */
  lemma WriteIsFaithful(w: Web, data: seq<Utf8.byte>)
    requires w.loaded
    ensures Utf8.Decode(data).None? ==> Write(w, data) == w
    ensures Utf8.Decode(data).Some? ==>
      Write(w, data).calls == w.calls + [Invoke("exports.write", StringArg(Utf8.Decode(data).value))] &&
      Utf8.Encode(Utf8.Decode(data).value) == data
  {
    if Utf8.Decode(data).Some? {
      Utf8.EncodeDecode(data);
    }
  }

  /** `term.focus()` only when loaded and unfocused; the flag changes only when the completion succeeds. */
  lemma FocusLifecycle(w: Web, succeeded: bool)
    ensures HtermFocus(w).calls == w.calls + (if w.loaded && !w.focused then [Evaluate("term.focus()")] else [])
    ensures HtermFocus(w).focused == w.focused
    ensures FocusDidComplete(w, succeeded).focused == (succeeded || w.focused)
    ensures HtermBlur(w).calls == w.calls + (if w.loaded && w.focused then [Evaluate("term.blur()")] else [])
    ensures HtermBlur(w).focused == w.focused
    ensures BlurDidComplete(w, succeeded).focused == (!succeeded && w.focused)
  {
  }

  /** `syncTerminalSize`'s completion reads an `[Int]` as `[cols, rows]` and drops everything else. */
  lemma SyncCompletion(w: Web, result: EvalResult)
    requires SyncResultIndexable(result)
    ensures result.Failed? ==> SyncTerminalSizeDidComplete(w, result) == w
    ensures result.Returned? && !IsIntArray(result.value) ==> SyncTerminalSizeDidComplete(w, result) == w
    ensures result.Returned? && IsIntArray(result.value) ==>
      SyncTerminalSizeDidComplete(w, result).size ==
        TerminalSize(result.value.items[0].n, result.value.items[1].n)
  {
  }

  /**
   * `reloadHterm`: the size becomes zero (notifying only if it was not), `term.blur()`
   * is emitted when loaded and focused, and the view is unloaded; the focused flag
   * is left to the blur completion.
   */
  lemma Reload(w: Web)
    ensures var r := ReloadHterm(w);
      && !r.loaded && r.size == ZeroSize && r.focused == w.focused
      && r.touchArmed == w.touchArmed && r.props == w.props
      && r.notes == w.notes + (if w.size != ZeroSize then [DidChangeTerminalSize(w.size)] else [])
      && r.calls == w.calls + (if w.loaded && w.focused then [Evaluate("term.blur()")] else [])
  {
  }
}
