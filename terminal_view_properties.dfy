/** Properties of the `TerminalView` transitions: modes, the output buffer, font size and key dispatch. */
module TerminalViewProperties {
  import opened Wrappers
  import opened Values
  import Utf8
  import SpecialKeys
  import ControlKey
  import MetaKey
  import KeyDownEvent
  import ScrollEvent
  import HtermFunctions
  import W = HtermWebViewSpec
  import opened TerminalViewSpec

  // ---------------------------------------------------------------- start-up

  /** The view starts in input mode with an empty buffer, and the initial reload changes nothing. */
  lemma InitialView()
    ensures Initial.mode == Input && Initial.buffer == [] && !Initial.needsScrollEnd
    ensures Initial.web == W.Initial
    ensures |Initial.keyCommands| == 42
  {
  }

  // ---------------------------------------------------------------- modes

  /** Assigning the current mode again is silent. */
  lemma SetModeTwice(v: View, m: Mode)
    ensures SetMode(SetMode(v, m), m) == SetMode(v, m)
    ensures SetMode(v, v.mode) == v
  {
  }

  /** Outside input mode the view refuses first responder, so neither request reaches the emulator. */
  lemma FirstResponderOnlyInInputMode(v: View, granted: bool)
    requires v.mode == Scroll
    ensures BecomeFirstResponder(v, granted) == v && ResignFirstResponder(v, granted) == v
  {
  }

  /**
   * `enterInputMode` from scroll mode: `term.scrollEnd()` first, then the mode change
   * the delegate hears of, then `term.focus()` if the responder request is granted
   * (and the emulator is loaded and unfocused).
   */
  lemma EnterInputModeEffects(v: View, granted: bool)
    requires v.mode == Scroll
    ensures var r := EnterInputMode(v, granted);
      && r.mode == Input
      && r.web.notes == v.web.notes + [DidChangeMode]
      && r.web.calls == v.web.calls
           + (if v.web.loaded then [Evaluate("term.scrollEnd()")] else [])
           + (if granted && v.web.loaded && !v.web.focused then [Evaluate("term.focus()")] else [])
      && r == v.(mode := Input, web := v.web.(notes := r.web.notes, calls := r.web.calls))
  {
  }

  /** `enterInputMode` does nothing in input mode, so calling it twice is calling it once. */
  lemma EnterInputModeIdempotent(v: View, g1: bool, g2: bool)
    ensures v.mode == Input ==> EnterInputMode(v, g1) == v
    ensures EnterInputMode(EnterInputMode(v, g1), g2) == EnterInputMode(v, g1)
  {
  }

  /**
   * `enterScrollMode` from input mode: `term.blur()` if the resignation is granted
   * (and the emulator is loaded and focused), then the mode change.
   */
  lemma EnterScrollModeEffects(v: View, granted: bool)
    requires v.mode == Input
    ensures var r := EnterScrollMode(v, granted);
      && r.mode == Scroll
      && r.web.notes == v.web.notes + [DidChangeMode]
      && r.web.calls == v.web.calls + (if granted && v.web.loaded && v.web.focused then [Evaluate("term.blur()")] else [])
      && r == v.(mode := Scroll, web := v.web.(notes := r.web.notes, calls := r.web.calls))
  {
  }

  /**
   * The order inside `enterScrollMode` matters: switching mode before resigning, the
   * opposite order, would never blur the emulator.
   */
  lemma ResignBeforeModeChange(v: View)
    requires v.mode == Input && v.web.loaded && v.web.focused
    ensures EnterScrollMode(v, true).web.calls == v.web.calls + [Evaluate("term.blur()")]
    ensures ResignFirstResponder(SetMode(v, Scroll), true).web.calls == v.web.calls
  {
  }

  /** `enterScrollMode` does nothing in scroll mode. */
  lemma EnterScrollModeIdempotent(v: View, g1: bool, g2: bool)
    ensures v.mode == Scroll ==> EnterScrollMode(v, g1) == v
    ensures EnterScrollMode(EnterScrollMode(v, g1), g2) == EnterScrollMode(v, g1)
  {
  }

  /** A pan that begins in input mode enters scroll mode; any other pan event changes nothing. */
  lemma PanEntersScrollMode(v: View, began: bool, granted: bool)
    ensures began && v.mode == Input ==> HandlePan(v, began, granted) == EnterScrollMode(v, granted)
    ensures began && v.mode == Input ==> HandlePan(v, began, granted).mode == Scroll
    ensures !began || v.mode == Scroll ==> HandlePan(v, began, granted) == v
  {
  }

  /** A touch start then a touch end from the page brings a scrolling view back to input mode. */
  lemma TapInScrollModeEntersInputMode(v: View, b1: Json, b2: Json, urlParses: bool, granted: bool)
    requires v.mode == Scroll
    ensures var started := Receive(v, Message("htermScrollPortDidTouchStart", b1), urlParses, granted);
      var ended := Receive(started, Message("htermScrollPortDidTouchEnd", b2), urlParses, granted);
      started.mode == Scroll && ended.mode == Input && !ended.web.touchArmed
  {
    W.FromRawValueOfRawValue(W.HtermScrollPortDidTouchStart);
    W.FromRawValueOfRawValue(W.HtermScrollPortDidTouchEnd);
    var started := Receive(v, Message("htermScrollPortDidTouchStart", b1), urlParses, granted);
    assert started == v.(web := v.web.(touchArmed := true));
    var ended := Receive(started, Message("htermScrollPortDidTouchEnd", b2), urlParses, granted);
    assert ended == EnterInputMode(started.(web := v.web.(touchArmed := false)), granted);
  }

  // ---------------------------------------------------------------- the buffer

  /** Chunks are kept in arrival order; clearing empties the buffer; neither touches anything else. */
  lemma BufferOrder(v: View, a: seq<Utf8.byte>, b: seq<Utf8.byte>)
    ensures AppendBuffer(AppendBuffer(v, a), b) == v.(buffer := v.buffer + a + b)
    ensures ClearBuffer(AppendBuffer(v, a)) == v.(buffer := [])
  {
  }

  /** While the emulator is unloaded, layout changes nothing and the buffer is kept. */
  lemma LayoutWhileUnloaded(v: View)
    requires !v.web.loaded
    ensures LayoutSubviews(v) == v
  {
  }

  /**
   * When loaded, layout hands exactly the prior buffer to `write`, empties it,
   * syncs the size, and scrolls to the end exactly when that was pending.
   */
  lemma LayoutWhenLoaded(v: View)
    requires v.web.loaded
    ensures var r := LayoutSubviews(v);
      && r.buffer == [] && !r.needsScrollEnd
      && r.web.calls == W.Write(v.web, v.buffer).calls
           + [Evaluate("exports.syncTerminalSize()")]
           + (if v.needsScrollEnd then [Evaluate("term.scrollEnd()")] else [])
      && r.web == v.web.(calls := r.web.calls)
      && r == v.(buffer := [], needsScrollEnd := false, web := r.web)
  {
  }

  /** When loaded, a buffer holding the UTF-8 encoding of some text hands exactly that text to the page. */
  lemma LayoutWritesBufferedText(v: View, s: string)
    requires v.web.loaded && v.buffer == Utf8.Encode(s)
    ensures var r := LayoutSubviews(v);
      |r.web.calls| > |v.web.calls| && r.web.calls[|v.web.calls|] == Invoke("exports.write", StringArg(s))
  {
    Utf8.DecodeEncode(s);
    var written := W.Write(v.web, v.buffer);
    assert written.calls == v.web.calls + [Invoke("exports.write", StringArg(s))];
    LayoutWhenLoaded(v);
  }

  /**
   * Text appended in UTF-8 chunks reaches the page at the next layout as one string:
   * what was already buffered, then each chunk in order.
   */
  lemma LayoutDeliversAppendedText(v: View, u: string, s: string, t: string)
    requires v.web.loaded && v.buffer == Utf8.Encode(u)
    ensures var r := LayoutSubviews(AppendBuffer(AppendBuffer(v, Utf8.Encode(s)), Utf8.Encode(t)));
      |r.web.calls| > |v.web.calls| && r.web.calls[|v.web.calls|] == Invoke("exports.write", StringArg(u + s + t))
  {
    var es, et := Utf8.Encode(s), Utf8.Encode(t);
    var appended := AppendBuffer(AppendBuffer(v, es), et);
    Utf8.EncodeAppend(u, s);
    Utf8.EncodeAppend(u + s, t);
    assert appended.buffer == Utf8.Encode(u + s + t);
    LayoutWritesBufferedText(appended, u + s + t);
  }

  /**
   * A character split across two layouts is lost: neither half decodes, so neither
   * layout writes, and both empty the buffer.
   */
  lemma LayoutDropsSplitCharacter(v: View)
    requires v.web.loaded && v.buffer == [] && !v.needsScrollEnd
    ensures var first := LayoutSubviews(AppendBuffer(v, [0xE3, 0x81]));
      var second := LayoutSubviews(AppendBuffer(first, [0x82]));
      && first.buffer == [] && second.buffer == []
      && first.web.calls == v.web.calls + [Evaluate("exports.syncTerminalSize()")]
      && second.web.calls == first.web.calls + [Evaluate("exports.syncTerminalSize()")]
  {
    Utf8.TruncatedSequence();
    assert Utf8.Decode([0x82]) == None by {
      assert Utf8.SequenceLength(0x82) == 0;
    }
    assert [] + [0xE3, 0x81] == [0xE3, 0x81];
  }

  /** `reloadTerminal` keeps the buffer, which the next layout keeps too because the emulator is now unloaded. */
  lemma ReloadKeepsBuffer(v: View)
    ensures ReloadTerminal(v).buffer == v.buffer
    ensures LayoutSubviews(ReloadTerminal(v)) == ReloadTerminal(v)
  {
  }

  /** After a reload, the page's `htermDidLoad` lets the next layout write what was buffered. */
  lemma ReloadThenLoadDelivers(v: View, s: string, body: Json, urlParses: bool, granted: bool)
    requires v.buffer == Utf8.Encode(s)
    ensures var loaded := Receive(ReloadTerminal(v), Message("htermDidLoad", body), urlParses, granted);
      var r := LayoutSubviews(loaded);
      && loaded.web.loaded && loaded.buffer == v.buffer
      && |r.web.calls| > |loaded.web.calls|
      && r.web.calls[|loaded.web.calls|] == Invoke("exports.write", StringArg(s))
  {
    Utf8.DecodeEncode(s);
    W.FromRawValueOfRawValue(W.HtermDidLoad);
  }

  // ---------------------------------------------------------------- font size

  /** `increaseSize` yields min(f + 1, 30), so it lowers a size above 30, and traps only at `UInt.max`. */
  lemma IncreaseSizeClamp(v: View)
    ensures var f := v.web.props.fontSize;
      && (IncreaseSize(v).None? <==> f == UIntMax)
      && (IncreaseSize(v).Some? ==> IncreaseSize(v).value.web.props.fontSize == if f + 1 < 30 then f + 1 else 30)
      && (IncreaseSize(v).Some? && f > 30 ==> IncreaseSize(v).value.web.props.fontSize < f)
  {
  }

  /** `decreaseSize` yields max(f - 1, 2), so it raises a size of 1 to 2, and traps on 0. */
  lemma DecreaseSizeClamp(v: View)
    ensures var f := v.web.props.fontSize;
      && (DecreaseSize(v).None? <==> f == 0)
      && (DecreaseSize(v).Some? ==> DecreaseSize(v).value.web.props.fontSize == if f - 1 > 2 then f - 1 else 2)
      && (f == 1 ==> DecreaseSize(v).Some? && DecreaseSize(v).value.web.props.fontSize == 2)
  {
  }

  /** From 0, `increaseSize` stores 1, which is outside 2..100 and so is not pushed to the emulator. */
  lemma IncreaseFromZeroNotPushed(v: View)
    requires v.web.props.fontSize == 0
    ensures IncreaseSize(v).Some?
    ensures IncreaseSize(v).value.web.props.fontSize == 1
    ensures IncreaseSize(v).value.web.calls == v.web.calls
  {
  }

  /** The size buttons only touch the font size and, at most, push it once. */
  lemma SizeChangesPushAtMostOnce(v: View)
    requires v.web.props.fontSize < UIntMax
    ensures var r := IncreaseSize(v).value;
      r == v.(web := r.web) && r.web == v.web.(props := r.web.props, calls := r.web.calls)
      && |v.web.calls| <= |r.web.calls| <= |v.web.calls| + 1
  {
  }

  // ---------------------------------------------------------------- key input

  /** Every key path ends in `handleKeyInput`: one string to the delegate, a pending scroll to the end, a user gesture. */
  lemma HandleKeyInputEffects(v: View, s: string)
    ensures var r := HandleKeyInput(v, s);
      && r.needsScrollEnd
      && r.web.notes == v.web.notes + [DidHandleKeyInput(s)]
      && r.web.calls == v.web.calls + (if v.web.loaded then [Evaluate("exports.setUserGesture()")] else [])
      && r == v.(needsScrollEnd := true, web := v.web.(notes := r.web.notes, calls := r.web.calls))
  {
  }

  /** `insertText` with control alone sends the control character of a combinable key. */
  lemma InsertTextWithControl(v: View, c: char)
    requires v.controlPressed && !v.metaPressed && c in ControlKey.ControlKeys
    ensures InsertText(v, [c]) == HandleKeyInput(v, [ControlKey.CombineWithControlKey(c).value])
  {
  }

  /** `insertText` with meta alone sends ESC followed by a combinable key. */
  lemma InsertTextWithMeta(v: View, c: char)
    requires v.metaPressed && !v.controlPressed && c in MetaKey.MetaKeys
    ensures InsertText(v, [c]) == HandleKeyInput(v, SpecialKeys.Escape + [c])
  {
  }

  /** With both modifiers, neither, or a key neither table accepts, the text is sent as typed. */
  lemma InsertTextOtherwiseRaw(v: View, text: string)
    requires (v.controlPressed == v.metaPressed)
      || (v.controlPressed && ControlKey.CombineStringWithControlKey(text).None?)
      || (v.metaPressed && MetaKey.CombineWithMetaKey(text).None?)
    ensures InsertText(v, text) == HandleKeyInput(v, text)
  {
  }

  /** Control+c sends ETX, meta+x sends ESC x, and with both pressed "c" stays "c". */
  lemma InsertTextExamples(v: View)
    ensures v.controlPressed && !v.metaPressed ==> InsertText(v, "c") == HandleKeyInput(v, [3 as char])
    ensures v.metaPressed && !v.controlPressed ==> InsertText(v, "x") == HandleKeyInput(v, [27 as char, 'x'])
    ensures v.controlPressed && v.metaPressed ==> InsertText(v, "c") == HandleKeyInput(v, "c")
  {
    ControlKey.LowercaseLetter('c');
    MetaKey.MetaKeysCharacterized('x');
    assert SpecialKeys.Escape + "x" == [27 as char, 'x'];
  }

  /** cmd+k resets the emulator and types nothing. */
  lemma CommandKResets(v: View)
    ensures var r := HandleKeyCommand(v, KeyCommand(Some("k"), {Command}));
      r == v.(web := v.web.(calls := v.web.calls + (if v.web.loaded then [Evaluate("term.reset()")] else [])))
  {
  }

  /** shift+tab sends the back-tab sequence. */
  lemma ShiftTabSendsBackTab(v: View)
    ensures HandleKeyCommand(v, KeyCommand(Some(SpecialKeys.Tab), {Shift})) == HandleKeyInput(v, SpecialKeys.BackTab)
  {
  }

  /** Option+key is a meta key only when option acts as meta; otherwise the key is sent as typed. */
  lemma AlternateNeedsOption(v: View, c: char)
    requires c in MetaKey.MetaKeys
    ensures HandleKeyCommand(v, KeyCommand(Some([c]), {Alternate})) ==
      HandleKeyInput(v, if v.optionAsMeta then SpecialKeys.Escape + [c] else [c])
  {
    MetaKey.MetaKeysCharacterized(c);
    assert Alternate !in {Command} && Alternate !in {Shift} && Alternate !in {Control};
    if v.optionAsMeta {
      assert MetaKey.CombineWithMetaKey([c]) == Some(SpecialKeys.Escape + [c]);
    } else {
      OneCharacterInputIsPlain(c);
      assert KeyCommandAction(false, KeyCommand(Some([c]), {Alternate})) == Send([c]);
    }
  }

  /** Flags are compared exactly: control with another modifier falls through and sends the key as typed. */
  lemma ExtraModifierFallsThrough(v: View)
    ensures HandleKeyCommand(v, KeyCommand(Some("c"), {Control, Shift})) == HandleKeyInput(v, "c")
  {
    assert Control in {Control, Shift} && Control !in {Command} && Control !in {Alternate};
    assert Shift in {Control, Shift} && Shift !in {Control};
  }

  /** A command without input does nothing. */
  lemma NoInputIgnored(v: View, flags: set<Modifier>)
    ensures HandleKeyCommand(v, KeyCommand(None, flags)) == v
  {
  }

  /** The UIKit inputs map to the terminal's sequences; escape is the same character in both. */
  lemma SpecialKeyTable()
    ensures SpecialKeyFor(InputEscape) == SpecialKeys.Escape
    ensures SpecialKeyFor(InputPageUp) == SpecialKeys.PageUp
    ensures SpecialKeyFor(InputPageDown) == SpecialKeys.PageDown
    ensures SpecialKeyFor(InputLeftArrow) == SpecialKeys.LeftArrow
    ensures SpecialKeyFor(InputUpArrow) == SpecialKeys.UpArrow
    ensures SpecialKeyFor(InputDownArrow) == SpecialKeys.DownArrow
    ensures SpecialKeyFor(InputRightArrow) == SpecialKeys.RightArrow
  {
  }

  /** The terminal sequences the seven plain commands send, in registration order. */
  function PlainSequences(): seq<string> {
    [SpecialKeys.Escape, SpecialKeys.PageUp, SpecialKeys.PageDown, SpecialKeys.LeftArrow,
     SpecialKeys.DownArrow, SpecialKeys.UpArrow, SpecialKeys.RightArrow]
  }

  /** The seven plain commands send the terminal sequences of their UIKit inputs. */
  lemma PlainCommandsDispatch(opt: bool, j: int)
    requires 0 <= j < 7
    ensures var r := RegisteredKeyCommands(opt);
      r[j] == KeyCommand(Some(NormalInputs[j]), {}) && KeyCommandAction(opt, r[j]) == Send(PlainSequences()[j])
  {
    var plain := Commands(NormalInputs, {});
    assert RegisteredKeyCommands(opt)[j] == plain[j];
    assert Command !in {} && Shift !in {} && Control !in {} && Alternate !in {};
  }

  /** Each registered control command sends the control character of its key. */
  lemma ControlCommandsDispatch(opt: bool, j: int)
    requires 0 <= j < 33
    ensures var r := RegisteredKeyCommands(opt);
      && r[7 + j] == KeyCommand(Some([ControlKey.ControlKeys[j]]), {Control})
      && KeyCommandAction(opt, r[7 + j]) == Send([ControlKey.CombineWithControlKey(ControlKey.ControlKeys[j]).value])
  {
    var c := ControlKey.ControlKeys[j];
    var control := Commands(CharacterStrings(ControlKey.ControlKeys), {Control});
    assert control[j] == KeyCommand(Some([c]), {Control});
    assert RegisteredKeyCommands(opt)[7 + j] == control[j];
    assert Control !in {Command} && Control !in {Shift};
    assert [c][0] == c;
  }

  /** When option acts as meta, each registered option command sends ESC and its key. */
  lemma MetaCommandsDispatch(j: int)
    requires 0 <= j < 46
    ensures var r := RegisteredKeyCommands(true);
      && r[40 + j] == KeyCommand(Some([MetaKey.MetaKeys[j]]), {Alternate})
      && KeyCommandAction(true, r[40 + j]) == Send(SpecialKeys.Escape + [MetaKey.MetaKeys[j]])
  {
    var c := MetaKey.MetaKeys[j];
    var meta := Commands(CharacterStrings(MetaKey.MetaKeys), {Alternate});
    assert meta[j] == KeyCommand(Some([c]), {Alternate});
    assert RegisteredKeyCommands(true)[40 + j] == meta[j];
    assert Alternate !in {Command} && Alternate !in {Shift} && Alternate !in {Control};
    assert [c][0] == c;
  }

  /** The last two commands are cmd+k, which resets, and shift+tab, which sends back-tab. */
  lemma ClosingCommandsDispatch(opt: bool)
    ensures var r := RegisteredKeyCommands(opt);
      && r[|r| - 2] == KeyCommand(Some("k"), {Command}) && KeyCommandAction(opt, r[|r| - 2]) == ClearReset
      && r[|r| - 1] == KeyCommand(Some(SpecialKeys.Tab), {Shift}) && KeyCommandAction(opt, r[|r| - 1]) == Send(SpecialKeys.BackTab)
  {
    assert Shift !in {Command};
  }

  /** The option commands are registered exactly when option acts as meta. */
  lemma MetaCommandsIffOption(opt: bool, c: char)
    requires c in MetaKey.MetaKeys
    ensures KeyCommand(Some([c]), {Alternate}) in RegisteredKeyCommands(opt) <==> opt
  {
    var k := KeyCommand(Some([c]), {Alternate});
    var plain := Commands(NormalInputs, {});
    var control := Commands(CharacterStrings(ControlKey.ControlKeys), {Control});
    var tail := [KeyCommand(Some("k"), {Command}), KeyCommand(Some(SpecialKeys.Tab), {Shift})];
    assert Alternate in {Alternate} && Alternate !in {Control} && Alternate !in {Command} && Alternate !in {Shift};
    assert k !in plain && k !in control && k !in tail;
    if opt {
      var meta := Commands(CharacterStrings(MetaKey.MetaKeys), {Alternate});
      var j :| 0 <= j < |MetaKey.MetaKeys| && MetaKey.MetaKeys[j] == c;
      assert meta[j] == k;
      assert RegisteredKeyCommands(opt) == plain + control + meta + tail;
    } else {
      assert RegisteredKeyCommands(opt) == plain + control + [] + tail;
    }
  }

  /** Changing `useOptionKeyAsMetaKey` rebuilds the commands: 88 with option as meta, 42 without. */
  lemma OptionRebuildsCommands(v: View, value: bool)
    ensures SetUseOptionKeyAsMetaKey(v, value).keyCommands == RegisteredKeyCommands(value)
    ensures |SetUseOptionKeyAsMetaKey(v, value).keyCommands| == if value then 88 else 42
  {
  }

  /** `press` types the event's string. */
  lemma PressSendsEventString(v: View, e: KeyDownEvent.TerminalKeyDownEvent)
    ensures Press(v, e).web.notes == v.web.notes + [DidHandleKeyInput(KeyDownEvent.EventString(e))]
    ensures Press(v, e).needsScrollEnd
  {
  }

  /** `paste` types the pasteboard string, and does nothing when there is none. */
  lemma PasteTypes(v: View, pasteboard: Option<string>)
    ensures pasteboard.None? ==> Paste(v, pasteboard) == v
    ensures pasteboard.Some? ==> Paste(v, pasteboard).web.notes == v.web.notes + [DidHandleKeyInput(pasteboard.value)]
  {
  }
}
