/**
 * `TerminalView` (Sources/Public/TerminalView.swift) as a class that owns its
 * `HtermWebView`. Every method is proved to move `State()` exactly as the matching
 * transition of TerminalViewSpec says.
 */
module TerminalViewModel {
  import opened Wrappers
  import opened Values
  import Utf8
  import SpecialKeys
  import ControlKey
  import MetaKey
  import KeyDownEvent
  import ScrollEvent
  import ClearEvent
  import EraseEvent
  import HtermFunctions
  import W = HtermWebViewSpec
  import Spec = TerminalViewSpec
  import opened HtermWebViewModel

  class TerminalView {
    var mode: Mode
    var buffer: seq<Utf8.byte>
    var needsTerminalScrollEnd: bool
    var isControlKeyPressed: bool
    var isMetaKeyPressed: bool
    var useOptionKeyAsMetaKey: bool
    var customKeyCommands: seq<Spec.KeyCommand>
    const htermWebView: HtermWebView

    function State(): Spec.View
      reads this, htermWebView, htermWebView.delegate
    {
      Spec.View(mode, buffer, needsTerminalScrollEnd, isControlKeyPressed, isMetaKeyPressed,
                useOptionKeyAsMetaKey, customKeyCommands, htermWebView.State())
    }

    /** `commonInit`: create the web view, register the key commands, load the emulator page. */
    constructor()
      ensures fresh(htermWebView) && fresh(htermWebView.delegate)
      ensures State() == Spec.Initial
    {
      var delegate := new TerminalViewDelegate();
      htermWebView := new HtermWebView(delegate);
      mode := Input;
      buffer := [];
      needsTerminalScrollEnd := false;
      isControlKeyPressed := false;
      isMetaKeyPressed := false;
      useOptionKeyAsMetaKey := false;
      customKeyCommands := [];
      new;
      RegisterKeyCommands();
      htermWebView.ReloadHterm();
    }

    /** `registerKeyCommands`: rebuild the command list by appending, table by table. */
    method RegisterKeyCommands()
      modifies this
      ensures State() == old(State()).(keyCommands := Spec.RegisteredKeyCommands(useOptionKeyAsMetaKey))
    {
      ghost var plain, control, meta := Spec.PlainCommands(), Spec.ControlCommands(), Spec.MetaCommands(useOptionKeyAsMetaKey);
      customKeyCommands := [];
      AppendCommands(Spec.NormalInputs, {});
      assert customKeyCommands == plain;
      AppendCharacterCommands(ControlKey.ControlKeys, {Spec.Control});
      if useOptionKeyAsMetaKey {
        AppendCharacterCommands(MetaKey.MetaKeys, {Spec.Alternate});
      }
      assert customKeyCommands == plain + control + meta;
      customKeyCommands := customKeyCommands + [Spec.KeyCommand(Some("k"), {Spec.Command})];
      customKeyCommands := customKeyCommands + [Spec.KeyCommand(Some(SpecialKeys.Tab), {Spec.Shift})];
      assert customKeyCommands == plain + control + meta + Spec.ClosingCommands;
    }

    /** The loop that registers each unmodified input of the plain-key list with the given flags, one command per input in list order. */
    method AppendCommands(inputs: seq<string>, flags: set<Spec.Modifier>)
      modifies this
      ensures State() == old(State()).(keyCommands := old(customKeyCommands) + Spec.Commands(inputs, flags))
    {
      var i := 0;
      while i < |inputs|
        invariant 0 <= i <= |inputs|
        invariant State() == old(State()).(keyCommands := old(customKeyCommands) + Spec.Commands(inputs[..i], flags))
      {
        Spec.CommandsPrefixSnoc(inputs, i, flags);
        customKeyCommands := customKeyCommands + [Spec.KeyCommand(Some(inputs[i]), flags)];
        i := i + 1;
      }
      assert inputs[..i] == inputs;
    }

    /** The loops over the control and meta key tables: each character becomes a one-character command with the given flags, in table order. */
    method AppendCharacterCommands(keys: string, flags: set<Spec.Modifier>)
      modifies this
      ensures State() == old(State()).(keyCommands := old(customKeyCommands) + Spec.Commands(Spec.CharacterStrings(keys), flags))
    {
      ghost var inputs := Spec.CharacterStrings(keys);
      var j := 0;
      while j < |keys|
        invariant 0 <= j <= |keys|
        invariant State() == old(State()).(keyCommands := old(customKeyCommands) + Spec.Commands(inputs[..j], flags))
      {
        Spec.CommandsPrefixSnoc(inputs, j, flags);
        customKeyCommands := customKeyCommands + [Spec.KeyCommand(Some([keys[j]]), flags)];
        j := j + 1;
      }
      assert inputs[..j] == inputs;
    }

    /** `mode` with its `didSet`. */
    method SetMode(m: Mode)
      modifies this, htermWebView.delegate
      ensures State() == Spec.SetMode(old(State()), m)
    {
      var oldValue := mode;
      mode := m;
      if oldValue != mode {
        htermWebView.delegate.Notify(DidChangeMode);
      }
    }

    /** `becomeFirstResponder`; `granted` is UIKit's answer beyond `canBecomeFirstResponder`. */
    method BecomeFirstResponder(granted: bool) returns (accepted: bool)
      modifies htermWebView
      ensures accepted == (granted && Spec.CanChangeFirstResponder(old(State())))
      ensures State() == Spec.BecomeFirstResponder(old(State()), granted)
    {
      accepted := granted && mode == Input;
      if accepted {
        htermWebView.HtermFocus();
      }
    }

    /** `resignFirstResponder`; `granted` is UIKit's answer beyond `canResignFirstResponder`. */
    method ResignFirstResponder(granted: bool) returns (accepted: bool)
      modifies htermWebView
      ensures accepted == (granted && Spec.CanChangeFirstResponder(old(State())))
      ensures State() == Spec.ResignFirstResponder(old(State()), granted)
    {
      accepted := granted && mode == Input;
      if accepted {
        htermWebView.HtermBlur();
      }
    }

    method EnterInputMode(granted: bool)
      modifies this, htermWebView, htermWebView.delegate
      ensures State() == Spec.EnterInputMode(old(State()), granted)
    {
      if mode == Input {
        return;
      }
      TerminalScroll(ScrollEvent.End);
      SetMode(Input);
      var accepted := BecomeFirstResponder(granted);
    }

    method EnterScrollMode(granted: bool)
      modifies this, htermWebView, htermWebView.delegate
      ensures State() == Spec.EnterScrollMode(old(State()), granted)
    {
      if mode == Scroll {
        return;
      }
      var accepted := ResignFirstResponder(granted);
      SetMode(Scroll);
    }

    /** `handlePanGestureRecognizer`; `began` is the recognizer's state being `.began`. */
    method HandlePanGestureRecognizer(began: bool, granted: bool)
      modifies this, htermWebView, htermWebView.delegate
      ensures State() == Spec.HandlePan(old(State()), began, granted)
    {
      if began {
        if mode != Scroll {
          EnterScrollMode(granted);
        }
      }
    }

    /** `select` and `selectAll` enter scroll mode; the delayed selection in the page is not modelled. */
    method Select(granted: bool)
      modifies this, htermWebView, htermWebView.delegate
      ensures State() == Spec.EnterScrollMode(old(State()), granted)
    {
      EnterScrollMode(granted);
    }

    method SelectAll(granted: bool)
      modifies this, htermWebView, htermWebView.delegate
      ensures State() == Spec.EnterScrollMode(old(State()), granted)
    {
      EnterScrollMode(granted);
    }

    method ClearBuffer()
      modifies this
      ensures State() == Spec.ClearBuffer(old(State()))
    {
      buffer := [];
    }

    method AppendBuffer(data: seq<Utf8.byte>)
      modifies this
      ensures State() == Spec.AppendBuffer(old(State()), data)
    {
      buffer := buffer + data;
    }

    method LayoutSubviews()
      modifies this, htermWebView, htermWebView.delegate
      ensures State() == Spec.LayoutSubviews(old(State()))
    {
      if !htermWebView.isHtermLoaded {
        return;
      }
      var data := buffer;
      buffer := [];
      htermWebView.Write(data);
      htermWebView.SyncTerminalSize();
      if needsTerminalScrollEnd {
        needsTerminalScrollEnd := false;
        TerminalScroll(ScrollEvent.End);
      }
    }

    // The presentation properties the view forwards to its web view.

    method SetTerminalContentEditable(value: bool)
      modifies htermWebView
      ensures State() == Spec.SetTerminalProperty(old(State()), W.ContentEditable(value))
    {
      htermWebView.SetContentEditable(value);
    }

    method SetTerminalCursorBlink(value: bool)
      modifies htermWebView
      ensures State() == Spec.SetTerminalProperty(old(State()), W.CursorBlink(value))
    {
      htermWebView.SetCursorBlink(value);
    }

    method SetTerminalCursorShape(value: CursorShape)
      modifies htermWebView
      ensures State() == Spec.SetTerminalProperty(old(State()), W.CursorShapeUpdate(value))
    {
      htermWebView.SetCursorShape(value);
    }

    method SetTerminalBackgroundColor(value: Option<Color>)
      modifies htermWebView
      ensures State() == Spec.SetTerminalProperty(old(State()), W.BackgroundColor(value))
    {
      htermWebView.SetBackgroundColor(value);
    }

    /** A nil foreground colour is stored as clear. */
    method SetTerminalForegroundColor(value: Option<Color>)
      modifies htermWebView
      ensures State() == Spec.SetTerminalProperty(old(State()), W.ForegroundColor(value.GetOr(Clear)))
    {
      htermWebView.SetForegroundColor(value.GetOr(Clear));
    }

    /** A nil cursor colour is stored as clear. */
    method SetTerminalCursorColor(value: Option<Color>)
      modifies htermWebView
      ensures State() == Spec.SetTerminalProperty(old(State()), W.CursorColor(value.GetOr(Clear)))
    {
      htermWebView.SetCursorColor(value.GetOr(Clear));
    }

    /** A nil font family is stored as "Menlo". */
    method SetTerminalFontFamily(value: Option<string>)
      modifies htermWebView
      ensures State() == Spec.SetTerminalProperty(old(State()), W.FontFamily(value.GetOr("Menlo")))
    {
      htermWebView.SetFontFamily(value.GetOr("Menlo"));
    }

    method SetTerminalFontSize(value: UInt)
      modifies htermWebView
      ensures State() == Spec.SetTerminalProperty(old(State()), W.FontSize(value))
    {
      htermWebView.SetFontSize(value);
    }

    method SetTerminalIsEnableBold(value: Option<bool>)
      modifies htermWebView
      ensures State() == Spec.SetTerminalProperty(old(State()), W.EnableBold(value))
    {
      htermWebView.SetEnableBold(value);
    }

    method SetTerminalIsEnableBoldAsBright(value: bool)
      modifies htermWebView
      ensures State() == Spec.SetTerminalProperty(old(State()), W.EnableBoldAsBright(value))
    {
      htermWebView.SetEnableBoldAsBright(value);
    }

    /** `increaseSize`; `trapped` is the `UInt` overflow, after which nothing runs. */
    method IncreaseSize() returns (trapped: bool)
      modifies htermWebView
      ensures trapped <==> Spec.IncreaseSize(old(State())).None?
      ensures !trapped ==> State() == Spec.IncreaseSize(old(State())).value
      ensures trapped ==> State() == old(State())
    {
      var f := htermWebView.fontSize;
      if f + 1 > UIntMax {
        return true;
      }
      var size := f + 1;
      SetTerminalFontSize(if size < 30 then size else 30);
      return false;
    }

    /** `decreaseSize`; `trapped` is the `UInt` underflow, after which nothing runs. */
    method DecreaseSize() returns (trapped: bool)
      modifies htermWebView
      ensures trapped <==> Spec.DecreaseSize(old(State())).None?
      ensures !trapped ==> State() == Spec.DecreaseSize(old(State())).value
      ensures trapped ==> State() == old(State())
    {
      var f := htermWebView.fontSize;
      if f as int - 1 < 0 {
        return true;
      }
      var size := f - 1;
      SetTerminalFontSize(if size > 2 then size else 2);
      return false;
    }

    method SetNeedsTerminalScrollEnd()
      modifies this
      ensures State() == Spec.SetNeedsTerminalScrollEnd(old(State()))
    {
      needsTerminalScrollEnd := true;
    }

    method HandleKeyInput(s: string)
      modifies this, htermWebView, htermWebView.delegate
      ensures State() == Spec.HandleKeyInput(old(State()), s)
    {
      SetNeedsTerminalScrollEnd();
      htermWebView.delegate.Notify(DidHandleKeyInput(s));
      htermWebView.SetUserGesture();
    }

    method InsertText(text: string)
      modifies this, htermWebView, htermWebView.delegate
      ensures State() == Spec.InsertText(old(State()), text)
    {
      var controlled := ControlKey.CombineStringWithControlKey(text);
      var metaPrefixed := MetaKey.CombineWithMetaKey(text);
      if isControlKeyPressed && !isMetaKeyPressed && controlled.Some? {
        HandleKeyInput(controlled.value);
      } else if isMetaKeyPressed && !isControlKeyPressed && metaPrefixed.Some? {
        HandleKeyInput(metaPrefixed.value);
      } else {
        HandleKeyInput(text);
      }
    }

    method HandleKeyCommand(keyCommand: Spec.KeyCommand)
      modifies this, htermWebView, htermWebView.delegate
      ensures State() == Spec.HandleKeyCommand(old(State()), keyCommand)
    {
      if keyCommand.input.None? {
        return;
      }
      var i := keyCommand.input.value;
      var flags := keyCommand.flags;
      var controlled := ControlKey.CombineStringWithControlKey(i);
      var metaPrefixed := MetaKey.CombineWithMetaKey(i);
      if flags == {Spec.Command} && i == "k" {
        htermWebView.HtermClear(HtermFunctions.Reset);
      } else if flags == {Spec.Shift} && i == SpecialKeys.Tab {
        HandleKeyInput(SpecialKeys.BackTab);
      } else if flags == {Spec.Control} && controlled.Some? {
        HandleKeyInput(controlled.value);
      } else if useOptionKeyAsMetaKey && flags == {Spec.Alternate} && metaPrefixed.Some? {
        HandleKeyInput(metaPrefixed.value);
      } else {
        HandleKeyInput(Spec.SpecialKeyFor(i));
      }
    }

    method Press(event: KeyDownEvent.TerminalKeyDownEvent)
      modifies this, htermWebView, htermWebView.delegate
      ensures State() == Spec.Press(old(State()), event)
    {
      HandleKeyInput(KeyDownEvent.EventString(event));
    }

    method DeleteBackward()
      modifies htermWebView.delegate
      ensures State() == Spec.DeleteBackward(old(State()))
    {
      htermWebView.delegate.Notify(DidHandleDeleteBackward);
    }

    /** `paste`; `pasteboard` is `UIPasteboard.general.string`. */
    method Paste(pasteboard: Option<string>)
      modifies this, htermWebView, htermWebView.delegate
      ensures State() == Spec.Paste(old(State()), pasteboard)
    {
      if pasteboard.Some? {
        HandleKeyInput(pasteboard.value);
      }
    }

    method TerminalScroll(event: ScrollEvent.TerminalScrollEvent)
      modifies htermWebView
      ensures State() == Spec.TerminalScroll(old(State()), event)
    {
      htermWebView.HtermScroll(ScrollEvent.HtermFunction(event));
    }

    method TerminalClear(event: ClearEvent.TerminalClearEvent)
      modifies htermWebView
      ensures State() == Spec.TerminalClear(old(State()), event)
    {
      htermWebView.HtermClear(ClearEvent.HtermFunction(event));
    }

    method TerminalErase(event: EraseEvent.TerminalEraseEvent)
      modifies htermWebView
      ensures State() == Spec.TerminalErase(old(State()), event)
    {
      htermWebView.HtermErase(EraseEvent.HtermFunction(event));
    }

    method ReloadTerminal()
      modifies htermWebView, htermWebView.delegate
      ensures State() == Spec.ReloadTerminal(old(State()))
    {
      htermWebView.ReloadHterm();
    }

    method SetUseOptionKeyAsMetaKey(value: bool)
      modifies this
      ensures State() == Spec.SetUseOptionKeyAsMetaKey(old(State()), value)
    {
      useOptionKeyAsMetaKey := value;
      RegisterKeyCommands();
    }

    method SetControlKeyPressed(value: bool)
      modifies this
      ensures State() == old(State()).(controlPressed := value)
    {
      isControlKeyPressed := value;
    }

    method SetMetaKeyPressed(value: bool)
      modifies this
      ensures State() == old(State()).(metaPressed := value)
    {
      isMetaKeyPressed := value;
    }

    /** A message from the page, with the web view's call back into `enterInputMode` carried out. */
    method Receive(message: Message, urlParses: bool, granted: bool)
      modifies this, htermWebView, htermWebView.delegate
      ensures State() == Spec.Receive(old(State()), message, urlParses, granted)
    {
      var enterInputMode := htermWebView.Receive(message, urlParses);
      if enterInputMode {
        EnterInputMode(granted);
      }
    }

    method HasText() returns (b: bool)
      ensures b == Spec.HasText(State())
    {
      b := htermWebView.isHtermLoaded;
    }

    method GetVisibleText() returns (immediate: Option<string>)
      modifies htermWebView
      ensures W.GetVisibleText(old(State()).web) == W.TextQuery(State().web, immediate)
      ensures State() == old(State()).(web := State().web)
    {
      immediate := htermWebView.GetVisibleText();
    }

    method GetAllText() returns (immediate: Option<string>)
      modifies htermWebView
      ensures W.GetAllText(old(State()).web) == W.TextQuery(State().web, immediate)
      ensures State() == old(State()).(web := State().web)
    {
      immediate := htermWebView.GetAllText();
    }
  }
}
