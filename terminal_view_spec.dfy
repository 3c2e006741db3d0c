/**
 * `TerminalView` (Sources/Public/TerminalView.swift) as transitions on a value
 * snapshot. The view owns an `HtermWebView`, whose state is the `web` field; the
 * delegate both objects notify is the `notes` log inside it.
 *
 * What UIKit decides is a parameter: `granted` is UIKit's answer to a
 * first-responder request, beyond the view's own `canBecomeFirstResponder` /
 * `canResignFirstResponder`, which hold only in input mode.
 */
module TerminalViewSpec {
  import opened Wrappers
  import opened Values
  import Utf8
  import SpecialKeys
  import ControlKey
  import MetaKey
  import KeyDownEvent
  import ScrollEvent
  import ClearEvent
  import EraseEvent
  import HtermFunctions
  import W = HtermWebViewSpec

  // ---------------------------------------------------------------- key commands

  datatype Modifier = Shift | Control | Alternate | Command

  /** A `UIKeyCommand`: its input (optional in UIKit) and its exact modifier flags. */
  datatype KeyCommand = KeyCommand(input: Option<string>, flags: set<Modifier>)

  /** UIKit's `UIKeyCommand.input*` constants. */
  const InputEscape: string := "\U{1B}"
  const InputPageUp: string := "UIKeyInputPageUp"
  const InputPageDown: string := "UIKeyInputPageDown"
  const InputLeftArrow: string := "UIKeyInputLeftArrow"
  const InputUpArrow: string := "UIKeyInputUpArrow"
  const InputDownArrow: string := "UIKeyInputDownArrow"
  const InputRightArrow: string := "UIKeyInputRightArrow"

  /** The inputs registered without modifiers, in the order `registerKeyCommands` lists them. */
  const NormalInputs: seq<string> :=
    [InputEscape, InputPageUp, InputPageDown, InputLeftArrow, InputDownArrow, InputUpArrow, InputRightArrow]

  /** A one-character input other than escape is none of the special inputs, so it is sent as typed. */
  lemma OneCharacterInputIsPlain(c: char)
    requires c != 27 as char
    ensures [c] !in NormalInputs
  {
    assert |InputPageUp| > 1 && |InputPageDown| > 1 && |InputLeftArrow| > 1 && |InputUpArrow| > 1;
    assert |InputDownArrow| > 1 && |InputRightArrow| > 1;
  }

  /** One command per input, all with the same flags, in order. */
  function Commands(inputs: seq<string>, flags: set<Modifier>): (r: seq<KeyCommand>)
    ensures |r| == |inputs|
    ensures forall j :: 0 <= j < |inputs| ==> r[j] == KeyCommand(Some(inputs[j]), flags)
    decreases |inputs|
  {
    if inputs == [] then []
    else Commands(inputs[..|inputs| - 1], flags) + [KeyCommand(Some(inputs[|inputs| - 1]), flags)]
  }

  /** `String($0)` for every character of a key table, in order. */
  function CharacterStrings(keys: string): (r: seq<string>)
    ensures |r| == |keys|
    ensures forall j :: 0 <= j < |keys| ==> r[j] == [keys[j]]
    decreases |keys|
  {
    if keys == [] then []
    else CharacterStrings(keys[..|keys| - 1]) + [[keys[|keys| - 1]]]
  }

  /** Registering one more input appends one command. */
  lemma CommandsSnoc(inputs: seq<string>, x: string, flags: set<Modifier>)
    ensures Commands(inputs + [x], flags) == Commands(inputs, flags) + [KeyCommand(Some(x), flags)]
  {
    assert (inputs + [x])[..|inputs|] == inputs;
  }

  /** Registering the inputs up to and including `i` appends input `i`'s command to the earlier ones. */
  lemma CommandsPrefixSnoc(inputs: seq<string>, i: int, flags: set<Modifier>)
    requires 0 <= i < |inputs|
    ensures Commands(inputs[..i + 1], flags) == Commands(inputs[..i], flags) + [KeyCommand(Some(inputs[i]), flags)]
  {
    assert inputs[..i + 1] == inputs[..i] + [inputs[i]];
    CommandsSnoc(inputs[..i], inputs[i], flags);
  }

  /** One more character of a key table gives one more string. */
  lemma CharacterStringsSnoc(keys: string, j: int)
    requires 0 <= j < |keys|
    ensures CharacterStrings(keys[..j + 1]) == CharacterStrings(keys[..j]) + [[keys[j]]]
  {
    assert keys[..j + 1][..j] == keys[..j];
  }

  /** The commands for the seven plain inputs. */
  function PlainCommands(): seq<KeyCommand> {
    Commands(NormalInputs, {})
  }

  /** Control with each control key. */
  function ControlCommands(): seq<KeyCommand> {
    Commands(CharacterStrings(ControlKey.ControlKeys), {Control})
  }

  /** Option with each meta key, when option acts as meta. */
  function MetaCommands(useOptionKeyAsMetaKey: bool): seq<KeyCommand> {
    if useOptionKeyAsMetaKey then Commands(CharacterStrings(MetaKey.MetaKeys), {Alternate}) else []
  }

  /** cmd+k, then shift+tab. */
  const ClosingCommands: seq<KeyCommand> := [KeyCommand(Some("k"), {Command}), KeyCommand(Some(SpecialKeys.Tab), {Shift})]

  /**
   * `registerKeyCommands`: the seven plain inputs, control with each control key,
   * option with each meta key when option acts as meta, then cmd+k and shift+tab.
   */
  function RegisteredKeyCommands(useOptionKeyAsMetaKey: bool): (r: seq<KeyCommand>)
    ensures |r| == 7 + 33 + (if useOptionKeyAsMetaKey then 46 else 0) + 2
  {
    PlainCommands() + ControlCommands() + MetaCommands(useOptionKeyAsMetaKey) + ClosingCommands
  }

  /** What `handleKeyCommand` does with a command. */
  datatype KeyAction = ClearReset | Send(text: string) | Ignore

  /** The `switch i` at the end of `handleKeyCommand`: UIKit inputs become terminal sequences. */
  function SpecialKeyFor(i: string): (r: string)
    ensures i !in NormalInputs ==> r == i
  {
    if i == InputEscape then SpecialKeys.Escape
    else if i == InputPageUp then SpecialKeys.PageUp
    else if i == InputPageDown then SpecialKeys.PageDown
    else if i == InputLeftArrow then SpecialKeys.LeftArrow
    else if i == InputUpArrow then SpecialKeys.UpArrow
    else if i == InputDownArrow then SpecialKeys.DownArrow
    else if i == InputRightArrow then SpecialKeys.RightArrow
    else i
  }

  /** `handleKeyCommand`'s if-chain: the first rule that applies wins. */
  function KeyCommandAction(useOptionKeyAsMetaKey: bool, kc: KeyCommand): KeyAction {
    match kc.input
    case None => Ignore
    case Some(i) =>
      if kc.flags == {Command} && i == "k" then ClearReset
      else if kc.flags == {Shift} && i == SpecialKeys.Tab then Send(SpecialKeys.BackTab)
      else if kc.flags == {Control} && ControlKey.CombineStringWithControlKey(i).Some? then
        Send(ControlKey.CombineStringWithControlKey(i).value)
      else if useOptionKeyAsMetaKey && kc.flags == {Alternate} && MetaKey.CombineWithMetaKey(i).Some? then
        Send(MetaKey.CombineWithMetaKey(i).value)
      else Send(SpecialKeyFor(i))
  }

  /** `insertText`'s if-chain: the string it hands to `handleKeyInput`. */
  function InsertTextInput(controlPressed: bool, metaPressed: bool, text: string): string {
    if controlPressed && !metaPressed && ControlKey.CombineStringWithControlKey(text).Some? then
      ControlKey.CombineStringWithControlKey(text).value
    else if metaPressed && !controlPressed && MetaKey.CombineWithMetaKey(text).Some? then
      MetaKey.CombineWithMetaKey(text).value
    else text
  }

  // ---------------------------------------------------------------- the view

  datatype View = View(
    mode: Mode,
    buffer: seq<Utf8.byte>,
    needsScrollEnd: bool,
    controlPressed: bool,
    metaPressed: bool,
    optionAsMeta: bool,
    keyCommands: seq<KeyCommand>,
    web: W.Web)

  /** After `commonInit`: commands registered, then `reloadHterm` on a fresh web view. */
  const Initial: View :=
    View(Input, [], false, false, false, false, RegisteredKeyCommands(false), W.ReloadHterm(W.Initial))

  /** `mode` with its `didSet`: the delegate hears of a change, never of a repeated value. */
  function SetMode(v: View, m: Mode): (r: View)
    ensures r.mode == m
    ensures r.web.notes == v.web.notes + (if m != v.mode then [DidChangeMode] else [])
    ensures r == v.(mode := m, web := v.web.(notes := r.web.notes))
  {
    v.(mode := m, web := if m != v.mode then W.Notify(v.web, DidChangeMode) else v.web)
  }

  /** `canBecomeFirstResponder` and `canResignFirstResponder`. */
  predicate CanChangeFirstResponder(v: View) {
    v.mode == Input
  }

  /** `becomeFirstResponder`: focuses the emulator when the request is accepted. */
  function BecomeFirstResponder(v: View, granted: bool): View {
    if granted && CanChangeFirstResponder(v) then v.(web := W.HtermFocus(v.web)) else v
  }

  /** `resignFirstResponder`: blurs the emulator when the request is accepted. */
  function ResignFirstResponder(v: View, granted: bool): View {
    if granted && CanChangeFirstResponder(v) then v.(web := W.HtermBlur(v.web)) else v
  }

  function TerminalScroll(v: View, e: ScrollEvent.TerminalScrollEvent): View {
    v.(web := W.HtermScroll(v.web, ScrollEvent.HtermFunction(e)))
  }

  function TerminalClear(v: View, e: ClearEvent.TerminalClearEvent): View {
    v.(web := W.HtermClear(v.web, ClearEvent.HtermFunction(e)))
  }

  function TerminalErase(v: View, e: EraseEvent.TerminalEraseEvent): View {
    v.(web := W.HtermErase(v.web, EraseEvent.HtermFunction(e)))
  }

  /** `enterInputMode`: scroll to the end, switch mode, then ask for first responder. */
  function EnterInputMode(v: View, granted: bool): View {
    if v.mode == Input then v
    else BecomeFirstResponder(SetMode(TerminalScroll(v, ScrollEvent.End), Input), granted)
  }

  /** `enterScrollMode`: give up first responder while still in input mode, then switch mode. */
  function EnterScrollMode(v: View, granted: bool): View {
    if v.mode == Scroll then v
    else SetMode(ResignFirstResponder(v, granted), Scroll)
  }

  /** `handlePanGestureRecognizer`: a pan that begins outside scroll mode enters it. */
  function HandlePan(v: View, began: bool, granted: bool): View {
    if began && v.mode != Scroll then EnterScrollMode(v, granted) else v
  }

  function AppendBuffer(v: View, data: seq<Utf8.byte>): View {
    v.(buffer := v.buffer + data)
  }

  function ClearBuffer(v: View): View {
    v.(buffer := [])
  }

  /**
   * `layoutSubviews`: nothing while the emulator is unloaded; otherwise write and
   * empty the whole buffer, sync the size, and scroll to the end if that was asked for.
   */
  function LayoutSubviews(v: View): View {
    if !v.web.loaded then v
    else
      var drained := v.(buffer := [], web := W.SyncTerminalSize(W.Write(v.web, v.buffer)));
      if v.needsScrollEnd then TerminalScroll(drained.(needsScrollEnd := false), ScrollEvent.End)
      else drained
  }

  /** Assigning one of the forwarded presentation properties (`terminalFontSize` and friends). */
  function SetTerminalProperty(v: View, u: W.PropUpdate): View {
    v.(web := W.SetProperty(v.web, u))
  }

  /** `increaseSize`; `None` is the trap of `UInt` overflow in `terminalFontSize + 1`. */
  function IncreaseSize(v: View): Option<View> {
    var f := v.web.props.fontSize;
    if f + 1 > UIntMax then None
    else Some(SetTerminalProperty(v, W.FontSize(if f + 1 < 30 then f + 1 else 30)))
  }

  /** `decreaseSize`; `None` is the trap of `UInt` underflow in `terminalFontSize - 1`. */
  function DecreaseSize(v: View): Option<View> {
    var f := v.web.props.fontSize;
    if f - 1 < 0 then None
    else Some(SetTerminalProperty(v, W.FontSize(if f - 1 > 2 then f - 1 else 2)))
  }

  /** `handleKeyInput`: ask for a scroll to the end, tell the delegate, flag a user gesture. */
  function HandleKeyInput(v: View, s: string): View {
    v.(needsScrollEnd := true, web := W.SetUserGesture(W.Notify(v.web, DidHandleKeyInput(s))))
  }

  function InsertText(v: View, text: string): View {
    HandleKeyInput(v, InsertTextInput(v.controlPressed, v.metaPressed, text))
  }

  function HandleKeyCommand(v: View, kc: KeyCommand): View {
    match KeyCommandAction(v.optionAsMeta, kc)
    case ClearReset => v.(web := W.HtermClear(v.web, HtermFunctions.Reset))
    case Send(s) => HandleKeyInput(v, s)
    case Ignore => v
  }

  /** `press`. */
  function Press(v: View, e: KeyDownEvent.TerminalKeyDownEvent): View {
    HandleKeyInput(v, KeyDownEvent.EventString(e))
  }

  function DeleteBackward(v: View): View {
    v.(web := W.Notify(v.web, DidHandleDeleteBackward))
  }

  /** `paste`: the pasteboard's string, if it has one, is typed. */
  function Paste(v: View, pasteboard: Option<string>): View {
    if pasteboard.Some? then HandleKeyInput(v, pasteboard.value) else v
  }

  function SetNeedsTerminalScrollEnd(v: View): View {
    v.(needsScrollEnd := true)
  }

  /** `reloadTerminal`: reloads the emulator and leaves the buffer alone. */
  function ReloadTerminal(v: View): View {
    v.(web := W.ReloadHterm(v.web))
  }

  /** `useOptionKeyAsMetaKey` with its `didSet`, which rebuilds the key commands. */
  function SetUseOptionKeyAsMetaKey(v: View, value: bool): View {
    v.(optionAsMeta := value, keyCommands := RegisteredKeyCommands(value))
  }

  /** A message from the page; a touch end that asks for input mode is carried out by the view. */
  function Receive(v: View, m: Message, urlParses: bool, granted: bool): View {
    var r := W.Receive(v.web, m, urlParses);
    if r.enterInputMode then EnterInputMode(v.(web := r.web), granted) else v.(web := r.web)
  }

  function HasText(v: View): bool {
    v.web.loaded
  }
}
