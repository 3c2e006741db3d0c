# Terminal: the native side of the hterm bridge, in Dafny

Terminal is an iOS view (`TerminalView`) that embeds the hterm emulator in a web view (`HtermWebView`).

Native code talks to the page by evaluating JavaScript. The page talks back by posting script messages, shaped by `hterm_bridge.js`. Keys are encoded by the tables behind `insertText` and `handleKeyCommand`: the Control and Meta combinations, and the escape sequences of the special keys. Output bytes queue in a buffer that `layoutSubviews` hands to the emulator.

This project models that core and proves its contracts.

- **Tables as pure functions.** The Control and Meta combinations, the special-key constants, `TerminalKeyDownEvent.string`, and the scroll, clear and erase maps are functions with lemmas. Those lemmas cover exact values, domain and rejection, injectivity, and the bijections and expression shapes.
- **Two classes.** `HtermWebView` and `TerminalView` are classes whose fields are the fields of the Swift classes.
  - Each method is proved to move the object's `State()` exactly as a transition function of `HtermWebViewSpec` or `TerminalViewSpec` says.
  - The properties the code promises are lemmas about those transitions, in `HtermWebViewProperties` and `TerminalViewProperties`.
- **Effects as logs.** Every outbound `evaluateJavaScript` is appended to a call log (`calls`). Every delegate callback is appended to a note log (`notes`). This makes "exactly one call", "nothing emitted" and call order statable.
- **The page script.** `HtermBridgeScript` models the message shaping of `hterm_bridge.js`. `BridgeProtocol` proves the two ends agree:
  - every message the page posts has a native handler;
  - resizes and size syncs arrive as `(cols, rows)`;
  - a tap in the page brings a scrolling view back to input mode, while a drag does not.
- **Bytes.** `String(data:encoding: .utf8)` is modelled by a strict UTF-8 decoder (RFC 3629, section 3). It is proved to be the exact inverse of encoding.

Modules:

| module | models |
|---|---|
| `Wrappers`, `Values` | `Option`, Swift `Int`/`UInt` bounds, `TerminalSize`, `TerminalMode`, cursor shape, JSON-like message bodies, the JS call and delegate note logs |
| `Utf8` | the byte-to-string conversion used by `write` |
| `SpecialKeys`, `ControlKey`, `MetaKey`, `KeyDownEvent` | the key tables |
| `HtermFunctions`, `ScrollEvent`, `ClearEvent`, `EraseEvent` | `HtermScrollFunction`/`HtermClearFunction`/`HtermEraseFunction` and the public event maps |
| `HtermWebViewSpec`, `HtermWebViewModel`, `HtermWebViewProperties` | `HtermWebView` |
| `TerminalViewSpec`, `TerminalViewModel`, `TerminalViewProperties` | `TerminalView` |
| `HtermBridgeScript`, `BridgeProtocol` | `hterm_bridge.js` and its agreement with the native handler |

### How the model follows the code

In several places the code behaves differently from what its names suggest. The model follows the code:

- **A load re-pushes only part of the presentation state.** Loading calls `reloadHtermColors`, which pushes only the background, foreground and cursor colours and the font size. It does not push font family, cursor shape, blink, bold or bold-as-bright. It pushes the font size without the 2..100 range check that the `fontSize` observer applies.
- **`reloadHterm` has narrow effects.**
  - It does not clear the focus flag; only the blur completion does.
  - `reloadTerminal` does not clear the output buffer.
  - `layoutSubviews` keeps the buffer untouched while the emulator is unloaded, so nothing is lost before the page loads.
- **Control is case-sensitive.** `combineWithControlKey` accepts only the 33 characters of `controlKeys`, so upper-case letters are rejected rather than mapped to control codes. `-` and `=` map to `m` and `}`: upper-casing leaves them alone and the XOR sets bit 6.
- **`layoutSubviews` always writes.** When loaded, it hands the whole buffer to `write` even when the buffer is empty. It does not coalesce or split writes. A chunk that ends in the middle of a UTF-8 sequence makes that whole write fail to decode, and the bytes are dropped: see `TerminalViewProperties.LayoutDropsSplitCharacter`.

### Parameters standing in for the platform

- **UIKit's answer to a first-responder request** is the parameter `granted`. The view's own `canBecomeFirstResponder` and `canResignFirstResponder` (input mode only) are modelled.
- **Whether `URL(string:)` accepts a string** is the parameter `urlParses`.
- **The pasteboard's string** is a parameter of `Paste`.
- **A colour-appearance change** is the parameter `appearanceChanged` of `TraitCollectionDidChange`.
- **Asynchronous completions** are separate operations taking success or the result value:
  - `FocusDidComplete` and `BlurDidComplete`;
  - `SyncTerminalSizeDidComplete`;
  - `TextReply`, for the text queries.
- **Integer traps.** The `UInt` traps of `increaseSize`/`decreaseSize` are `None` results: a trapped method leaves the state unchanged and says so.

## Model

| member | source | states |
|---|---|---|
| Utf8.EncodeScalar | Sources/Internal/HtermWebView.swift:420 | a scalar encodes to 1 to 4 bytes; a single byte exactly for ASCII; every byte after the first is a continuation byte |
| Utf8.DecodeScalarEncoding | Sources/Internal/HtermWebView.swift:420 | the encoding of one scalar starts a well-formed sequence whose announced length is the encoding's length, and which stands for that scalar |
| Utf8.DecodeEncode | Sources/Internal/HtermWebView.swift:420 | every string survives encoding then decoding |
| Utf8.EncodeScalarAt2 | Sources/Internal/HtermWebView.swift:420 | a well-formed two-byte sequence is the shortest encoding of the value it decodes to |
| Utf8.EncodeScalarAt3 | Sources/Internal/HtermWebView.swift:420 | the same for three-byte sequences |
| Utf8.EncodeScalarAt4 | Sources/Internal/HtermWebView.swift:420 | the same for four-byte sequences |
| Utf8.EncodeScalarAt | Sources/Internal/HtermWebView.swift:420 | any well-formed leading sequence is the encoding of its value |
| Utf8.EncodeCons | Sources/Internal/HtermWebView.swift:420 | the encoding of a string is its first scalar's encoding followed by the encoding of the rest |
| Utf8.EncodeDecode | Sources/Internal/HtermWebView.swift:420 | decoding is strict: bytes that decode are exactly the encoding of the result |
| Utf8.EncodeAppend | Sources/Internal/HtermWebView.swift:420 | encoding distributes over concatenation, so text may be appended to the buffer chunk by chunk |
| Utf8.TruncatedSequence | Sources/Internal/HtermWebView.swift:420-422 | a character cut after two of its three bytes does not decode, while the whole character does |
| SpecialKeys.SingleCharacterKeys | Sources/Internal/String+SpecialKeys.swift:4-7 | escape is U+001B, backspace U+007F and tab U+0009, each one character |
| SpecialKeys.EscapeSequences | Sources/Internal/String+SpecialKeys.swift:8-16 | back-tab is ESC `[Z`, page up/down ESC `[5~`/`[6~`, arrows ESC `[D`/`[A`/`[B`/`[C` |
| SpecialKeys.PairwiseDistinct | Sources/Internal/String+SpecialKeys.swift:4-16 | no two of the ten constants are equal |
| SpecialKeys.LongKeysStartWithEscape | Sources/Internal/String+SpecialKeys.swift:4-16 | every constant longer than one character begins with ESC |
| ControlKey.ControlKeysCharacterized | Terminal/Internal/Character+Control.swift:3 | a character is in `controlKeys` iff it is a lower-case ASCII letter or one of `@ ^ - = [ ] \` |
| ControlKey.ControlKeyIndex | Terminal/Internal/Character+Control.swift:3 | every accepted character has a position in the sorted `controlKeys` |
| ControlKey.ControlKeyAt | Terminal/Internal/Character+Control.swift:3 | every entry of the sorted `controlKeys` is an accepted character |
| ControlKey.ControlKeyAsWrittenAt | Terminal/Internal/Character+Control.swift:3 | every entry of the literal before sorting is an accepted character |
| ControlKey.ControlKeysAreSorted | Terminal/Internal/Character+Control.swift:3 | `controlKeys` is strictly increasing, so it has no duplicates |
| ControlKey.ControlKeysAreTheListedCharacters | Terminal/Internal/Character+Control.swift:3 | sorting only reorders: the literal and `controlKeys` hold the same 33 characters |
| ControlKey.FlipControlBit | Terminal/Internal/Character+Control.swift:20-21 | XOR with `controlMask` on a UInt8: the result is a byte that differs from the code in bit 6 only |
| ControlKey.FlipControlBitTwice | Terminal/Internal/Character+Control.swift:20 | flipping bit 6 twice gives the code back |
| ControlKey.ControlCharacter | Terminal/Internal/Character+Control.swift:20-21 | for a 7-bit code the XOR subtracts 64 when bit 6 is set and adds 64 otherwise; the result is 7-bit and XORs back to the input |
| ControlKey.CombineWithControlKey | Terminal/Internal/Character+Control.swift:13-22 | `Character.combineWithControlKey` is defined exactly on `controlKeys`; the result is 7-bit and XORs back to the upper-cased input |
| ControlKey.CombineStringWithControlKey | Terminal/Internal/Character+Control.swift:27-35 | the string version is defined iff the string is one accepted character, and then is that character combined |
| ControlKey.LowercaseLetter | Terminal/Internal/Character+Control.swift:17-21 | a lower-case letter c gives code c - 'a' + 1, so 'a' is 0x01 and 'z' is 0x1A |
| ControlKey.Punctuation | Terminal/Internal/Character+Control.swift:17-21 | `@` gives 0x00, `[` 0x1B, `\` 0x1C, `]` 0x1D, `^` 0x1E |
| ControlKey.MinusAndEquals | Terminal/Internal/Character+Control.swift:17-21 | `-` gives `m` and `=` gives `}` |
| ControlKey.RejectsUppercaseAndDigits | Terminal/Internal/Character+Control.swift:9-35 | upper-case letters and digits are rejected by both versions |
| MetaKey.MetaKeyAt | Terminal/Internal/Character+Meta.swift:3 | every entry of the sorted `metaKeys` is an accepted character |
| MetaKey.MetaKeyAsWrittenAt | Terminal/Internal/Character+Meta.swift:3 | every entry of the literal before sorting is an accepted character |
| MetaKey.MetaKeyIndex | Terminal/Internal/Character+Meta.swift:3 | every accepted character has a position in `metaKeys` |
| MetaKey.MetaKeyAsWrittenIndex | Terminal/Internal/Character+Meta.swift:3 | every accepted character has a position in the literal |
| MetaKey.MetaKeysCharacterized | Terminal/Internal/Character+Meta.swift:3 | a character is in `metaKeys` iff it is a lower-case letter, a digit or one of `- = [ ] \ ; ' , . /` |
| MetaKey.MetaKeysAreTheListedCharacters | Terminal/Internal/Character+Meta.swift:3 | the literal and `metaKeys` hold the same 46 characters |
| MetaKey.MetaKeysAreSorted | Terminal/Internal/Character+Meta.swift:3 | `metaKeys` is strictly increasing |
| MetaKey.CombineWithMetaKey | Terminal/Internal/Character+Meta.swift:12-20 | defined iff the string is one character of `metaKeys`; the result is ESC followed by the input, length 2 |
| MetaKey.Injective | Terminal/Internal/Character+Meta.swift:19 | two inputs with the same combination are equal |
| MetaKey.Rejects | Terminal/Internal/Character+Meta.swift:6-18 | upper-case letters and the back quote are rejected |
| MetaKey.LowercaseA | Terminal/Internal/Character+Meta.swift:19 | `a` gives ESC `a` |
| KeyDownEvent.EventString | Terminal/Public/TerminalKeyDownEvent.swift:14-26 | every string is non-empty; it is longer than one character exactly for the page and arrow events, and those begin with ESC |
| KeyDownEvent.ExactStrings | Terminal/Public/TerminalKeyDownEvent.swift:16-24 | escape U+001B, backspace U+007F, tab `\t`, arrows ESC `[D`/`[A`/`[B`/`[C` |
| KeyDownEvent.Slot | Terminal/Public/TerminalKeyDownEvent.swift:14-26 | every event's string is one of the ten special-key constants |
| KeyDownEvent.Injective | Terminal/Public/TerminalKeyDownEvent.swift:14-26 | distinct events give distinct strings |
| HtermFunctions.Capitalized | Sources/Internal/HtermWebView.swift:359-382 | upper-casing the first letter keeps the length and the rest of the name |
| HtermFunctions.ScrollExpressionShape | Sources/Internal/HtermWebView.swift:359-366 | every scroll expression is `term.scroll` + capitalised case name + `()` |
| HtermFunctions.ClearExpressionShape | Sources/Internal/HtermWebView.swift:368-374 | every clear expression is `term.` + case name + `()` |
| HtermFunctions.EraseExpressionShape | Sources/Internal/HtermWebView.swift:376-382 | every erase expression is `term.erase` + capitalised case name + `()` |
| HtermFunctions.RawValuesInjective | Sources/Internal/HtermWebView.swift:359-382 | within each enum, distinct cases have distinct expressions |
| ScrollEvent.HtermFunction | Sources/Public/TerminalScrollEvent.swift:11-19 | each event maps to the function of the same name |
| ScrollEvent.EventFor | Sources/Public/TerminalScrollEvent.swift:11-19 | every scroll function is reached by some event |
| ScrollEvent.Bijection | Sources/Public/TerminalScrollEvent.swift:11-19 | the map is injective, with `EventFor` as its inverse |
| ScrollEvent.Expressions | Sources/Internal/HtermWebView.swift:359-366 | `.end` evaluates `term.scrollEnd()`; every event evaluates `term.scroll` + name + `()` |
| ClearEvent.HtermFunction | Terminal/Public/TerminalClearEvent.swift:10-18 | each event maps to the function of the same name |
| ClearEvent.EventFor | Terminal/Public/TerminalClearEvent.swift:10-18 | every clear function is reached |
| ClearEvent.Bijection | Terminal/Public/TerminalClearEvent.swift:10-18 | the map is a bijection |
| ClearEvent.Expressions | Sources/Internal/HtermWebView.swift:368-374 | `.reset` evaluates `term.reset()`; every expression starts `term.` and ends `()` |
| EraseEvent.HtermFunction | Terminal/Public/TerminalEraseEvent.swift:10-18 | each event maps to the function of the same name |
| EraseEvent.EventFor | Terminal/Public/TerminalEraseEvent.swift:10-18 | every erase function is reached |
| EraseEvent.Bijection | Terminal/Public/TerminalEraseEvent.swift:10-18 | the map is a bijection |
| EraseEvent.Expressions | Sources/Internal/HtermWebView.swift:376-382 | `.toLeft` evaluates `term.eraseToLeft()`, `.line` `term.eraseLine()`; every one is `term.erase` + name + `()` |
| HtermWebViewSpec.SetLoaded | Sources/Internal/HtermWebView.swift:14-23 | the four colour and size calls are emitted only on a false-to-true edge; the did-load note on every `true`; nothing else changes |
| HtermWebViewSpec.SetSize | Sources/Internal/HtermWebView.swift:25-31 | the delegate hears the old size iff the size changes; nothing else changes |
| HtermWebViewSpec.ChangesIffDiffers | Sources/Internal/HtermWebView.swift:35-113 | each observer's `oldValue != newValue` holds iff the assignment changes the stored properties |
| HtermWebViewSpec.SetProperty | Sources/Internal/HtermWebView.swift:35-113 | the value is stored; exactly one call is emitted iff loaded, the value changes and, for the font size, it lies in 2..100 |
| HtermWebViewSpec.FromRawValue | Sources/Internal/HtermWebView.swift:278-302 | a found handler has the message's name |
| HtermWebViewSpec.FromRawValueOfRawValue | Sources/Internal/HtermWebView.swift:278-296 | every handler is found from its own name |
| HtermWebViewSpec.TextReply | Sources/Internal/HtermWebView.swift:484-526 | a text query's callback gets the result when it is a String, and "" on error or any other result |
| HtermWebViewModel.TerminalViewDelegate.constructor | Sources/Public/TerminalView.swift:15-31 | a delegate starts with no notes |
| HtermWebViewModel.TerminalViewDelegate.Notify | Sources/Public/TerminalView.swift:15-31 | a callback appends one note |
| HtermWebViewModel.HtermWebView.constructor | Sources/Internal/HtermWebView.swift:148-166 | a new web view is unloaded, unfocused, size zero, with the declared property defaults and no calls |
| HtermWebViewModel.HtermWebView.EvaluateJavaScript | Sources/Internal/HtermWebView.swift:390 | appends one raw-expression call |
| HtermWebViewModel.HtermWebView.EvaluateOneArgumentJavaScript | Sources/Internal/WKWebViewExtension.swift:22-31 | appends one function call carrying its argument |
| HtermWebViewModel.HtermWebView.ReloadHtermColors | Sources/Internal/HtermWebView.swift:254-262 | follows `HtermWebViewSpec.ReloadColors` |
| HtermWebViewModel.HtermWebView.SetHtermLoaded | Sources/Internal/HtermWebView.swift:14-23 | follows `HtermWebViewSpec.SetLoaded` |
| HtermWebViewModel.HtermWebView.SetTerminalSize | Sources/Internal/HtermWebView.swift:25-31 | follows `HtermWebViewSpec.SetSize` |
| HtermWebViewModel.HtermWebView.SetContentEditable | Sources/Internal/HtermWebView.swift:35-41 | follows `SetProperty` with the content-editable update |
| HtermWebViewModel.HtermWebView.SetBackgroundColor | Sources/Internal/HtermWebView.swift:43-49 | follows `SetProperty` with the background update |
| HtermWebViewModel.HtermWebView.SetForegroundColor | Sources/Internal/HtermWebView.swift:51-57 | follows `SetProperty` with the foreground update |
| HtermWebViewModel.HtermWebView.SetCursorColor | Sources/Internal/HtermWebView.swift:59-65 | follows `SetProperty` with the cursor-colour update |
| HtermWebViewModel.HtermWebView.SetCursorBlink | Sources/Internal/HtermWebView.swift:67-73 | follows `SetProperty` with the blink update |
| HtermWebViewModel.HtermWebView.SetCursorShape | Sources/Internal/HtermWebView.swift:75-81 | follows `SetProperty` with the cursor-shape update |
| HtermWebViewModel.HtermWebView.SetFontFamily | Sources/Internal/HtermWebView.swift:83-89 | follows `SetProperty` with the font-family update |
| HtermWebViewModel.HtermWebView.SetFontSize | Sources/Internal/HtermWebView.swift:91-97 | follows `SetProperty` with the font-size update, range check included |
| HtermWebViewModel.HtermWebView.SetEnableBold | Sources/Internal/HtermWebView.swift:99-105 | follows `SetProperty` with the optional bold update |
| HtermWebViewModel.HtermWebView.SetEnableBoldAsBright | Sources/Internal/HtermWebView.swift:107-113 | follows `SetProperty` with the bold-as-bright update |
| HtermWebViewModel.HtermWebView.TraitCollectionDidChange | Sources/Internal/HtermWebView.swift:237-244 | colours are re-pushed only when the colour appearance changed |
| HtermWebViewModel.HtermWebView.ReloadHterm | Sources/Internal/HtermWebView.swift:264-271 | follows `HtermWebViewSpec.ReloadHterm` |
| HtermWebViewModel.HtermWebView.Receive | Sources/Internal/HtermWebView.swift:298-355 | the message handler moves the state as `HtermWebViewSpec.Receive` says and reports whether it called back into the view |
| HtermWebViewModel.HtermWebView.HtermFocus | Sources/Internal/HtermWebView.swift:386-389 | follows `HtermWebViewSpec.HtermFocus` |
| HtermWebViewModel.HtermWebView.FocusDidComplete | Sources/Internal/HtermWebView.swift:390-398 | follows `HtermWebViewSpec.FocusDidComplete` |
| HtermWebViewModel.HtermWebView.HtermBlur | Sources/Internal/HtermWebView.swift:401-404 | follows `HtermWebViewSpec.HtermBlur` |
| HtermWebViewModel.HtermWebView.BlurDidComplete | Sources/Internal/HtermWebView.swift:405-413 | follows `HtermWebViewSpec.BlurDidComplete` |
| HtermWebViewModel.HtermWebView.Write | Sources/Internal/HtermWebView.swift:416-426 | follows `HtermWebViewSpec.Write` |
| HtermWebViewModel.HtermWebView.SyncTerminalSize | Sources/Internal/HtermWebView.swift:428-432 | follows `HtermWebViewSpec.SyncTerminalSize` |
| HtermWebViewModel.HtermWebView.SyncTerminalSizeDidComplete | Sources/Internal/HtermWebView.swift:432-446 | follows `HtermWebViewSpec.SyncTerminalSizeDidComplete`, given an indexable result |
| HtermWebViewModel.HtermWebView.ClearSelection | Sources/Internal/HtermWebView.swift:449-454 | `exports.clearSelection()` only when loaded |
| HtermWebViewModel.HtermWebView.HtermScroll | Sources/Internal/HtermWebView.swift:456-461 | the scroll expression only when loaded |
| HtermWebViewModel.HtermWebView.HtermClear | Sources/Internal/HtermWebView.swift:463-468 | the clear expression only when loaded |
| HtermWebViewModel.HtermWebView.HtermErase | Sources/Internal/HtermWebView.swift:470-475 | the erase expression only when loaded |
| HtermWebViewModel.HtermWebView.SetUserGesture | Sources/Internal/HtermWebView.swift:477-482 | `exports.setUserGesture()` only when loaded |
| HtermWebViewModel.HtermWebView.Copy | Sources/Internal/HtermWebView.swift:204-208 | asks for the selection text only when loaded |
| HtermWebViewModel.HtermWebView.GetVisibleText | Sources/Internal/HtermWebView.swift:484-489 | answers "" at once when unloaded, otherwise asks the page |
| HtermWebViewModel.HtermWebView.GetAllText | Sources/Internal/HtermWebView.swift:506-511 | answers "" at once when unloaded, otherwise asks the page |
| HtermWebViewProperties.LoadTwice | Sources/Internal/HtermWebView.swift:14-23 | a first load pushes background, foreground, cursor colour and font size in that order; a second `true` pushes nothing but notifies did-load again |
| HtermWebViewProperties.ColorCallFunctions | Sources/Internal/HtermWebView.swift:254-262 | a load pushes nothing but the three colours and the font size |
| HtermWebViewProperties.LatchedFontSizeSkipsRangeCheck | Sources/Internal/HtermWebView.swift:254-262 | a size above 100 set while unloaded is pushed by the next load, but would not be pushed if set while loaded |
| HtermWebViewProperties.LatchedFontFamilyNotPushed | Sources/Internal/HtermWebView.swift:254-262 | a font family set while unloaded is stored but never pushed by the load |
| HtermWebViewProperties.SetPropertyTwice | Sources/Internal/HtermWebView.swift:35-113 | assigning the same value twice emits at most one call |
| HtermWebViewProperties.SetSizeTwice | Sources/Internal/HtermWebView.swift:25-31 | assigning a size twice notifies at most once; assigning the current size changes nothing |
| HtermWebViewProperties.TouchEndEntersInputModeIffArmed | Sources/Internal/HtermWebView.swift:318-322 | touch end calls `enterInputMode` iff the flag was set, and always leaves it clear |
| HtermWebViewProperties.TouchSequences | Sources/Internal/HtermWebView.swift:314-324 | start then end enters input mode; a start interrupted by move or cancel does not |
| HtermWebViewProperties.OnlyArmedTouchEndEntersInputMode | Sources/Internal/HtermWebView.swift:298-355 | no message other than an armed touch end calls back into the view |
| HtermWebViewProperties.UnknownNameIgnored | Sources/Internal/HtermWebView.swift:300-302 | a message with an unknown name changes nothing |
| HtermWebViewProperties.ResizeMessage | Sources/Internal/HtermWebView.swift:341-351 | a resize sets `(cols, rows)` only for a two-element array of `Int`; any other body changes nothing |
| HtermWebViewProperties.SendStringMessage | Sources/Internal/HtermWebView.swift:329-334 | a String body is forwarded, then the user gesture is flagged if loaded; any other body changes nothing |
| HtermWebViewProperties.VTKeyStrokeMessage | Sources/Internal/HtermWebView.swift:335-340 | the same for key strokes |
| HtermWebViewProperties.UrlMessage | Sources/Internal/HtermWebView.swift:325-328 | the delegate hears a URL only for a String body that parses |
| HtermWebViewProperties.UnloadedEmitsNothing | Sources/Internal/HtermWebView.swift:386-526 | while unloaded no outbound operation emits anything, and both text queries answer "" at once |
| HtermWebViewProperties.WriteEncodedText | Sources/Internal/HtermWebView.swift:416-426 | when loaded, writing the UTF-8 of a string sends exactly that string |
| HtermWebViewProperties.WriteIsFaithful | Sources/Internal/HtermWebView.swift:416-426 | malformed bytes emit nothing; otherwise exactly one write, whose string re-encodes to the given bytes |
| HtermWebViewProperties.FocusLifecycle | Sources/Internal/HtermWebView.swift:386-414 | `term.focus()` only when loaded and unfocused, `term.blur()` only when loaded and focused; the flag changes only in a successful completion |
| HtermWebViewProperties.SyncCompletion | Sources/Internal/HtermWebView.swift:432-446 | an error or a non-`[Int]` result changes nothing; an `[Int]` result sets `(result[0], result[1])` |
| HtermWebViewProperties.Reload | Sources/Internal/HtermWebView.swift:264-271 | the size becomes zero (notified only if it was not), blur is emitted if loaded and focused, the view is unloaded, and the focus flag is left alone |
| HtermBridgeScript.NormalizedArgs | Terminal/Resources/hterm_bridge.js:7-12 | a lone argument is posted bare and two or more as an array; knowing the arity, the native side recovers exactly the arguments (`ArgsOf`) |
| HtermBridgeScript.Post | Terminal/Resources/hterm_bridge.js:6-16 | a message is posted iff `window.webkit` exists and a native handler is registered under the property's name, to that handler, with a body from which the arguments are recovered |
| HtermBridgeScript.OnTerminalResize | Terminal/Resources/hterm_bridge.js:43-48 | selects the native resize handler, whose body check passes exactly when both numbers fit in `Int`, and then reads `(cols, rows)` |
| HtermBridgeScript.SyncTerminalSize | Terminal/Resources/hterm_bridge.js:50-61 | the result always meets the native completion's indexing need, passes `as? [Int]` exactly when both numbers fit in `Int`, and has the width at index 0 although the height is realised first |
| HtermBridgeScript.OnTouch | Terminal/Resources/hterm_bridge.js:73-83 | touchstart, touchmove, touchend and touchcancel each select their own native touch handler with a null body; any other type posts nothing |
| HtermBridgeScript.TerminalReady | Terminal/Resources/hterm_bridge.js:119 | readiness selects the native did-load handler, with a null body |
| HtermBridgeScript.NativeLog | Terminal/Resources/hterm_bridge.js:20-22 | the text goes to the native `log` handler as a String |
| HtermBridgeScript.SendString | Terminal/Resources/hterm_bridge.js:35-37 | selects the native send-string handler with the String body it accepts, holding the string sent |
| HtermBridgeScript.OnVTKeyStroke | Terminal/Resources/hterm_bridge.js:39-41 | selects the native key-stroke handler with the String body it accepts |
| HtermBridgeScript.OnFocus | Terminal/Resources/hterm_bridge.js:65-67 | the focus listener selects the native focus handler, with a null body |
| HtermBridgeScript.OnBlur | Terminal/Resources/hterm_bridge.js:69-71 | the blur listener selects the native blur handler, with a null body |
| HtermBridgeScript.OpenUrl | Terminal/Resources/hterm_bridge.js:113-115 | selects the native URL handler with the String body it accepts, holding the URL |
| BridgeProtocol.ScriptMessagesAreHandled | Terminal/Resources/hterm_bridge.js:20-119 | every message the page can post names a native handler |
| BridgeProtocol.NoWebkitPostsNothing | Terminal/Resources/hterm_bridge.js:13-15 | without `window.webkit` nothing is posted |
| BridgeProtocol.ResizeRoundTrip | Terminal/Resources/hterm_bridge.js:43-48 | a resize whose numbers fit `Int` sets the native size to `(cols, rows)` |
| BridgeProtocol.OversizedResizeDropped | Sources/Internal/HtermWebView.swift:348-350 | a resize whose columns exceed `Int` changes nothing |
| BridgeProtocol.SyncRoundTrip | Terminal/Resources/hterm_bridge.js:50-61 | the sync result is indexable and is read natively as `(width, height)` = `(cols, rows)` |
| BridgeProtocol.StringsRoundTrip | Terminal/Resources/hterm_bridge.js:35-41 | strings and URLs from the page reach the delegate unchanged |
| BridgeProtocol.ReadyLoads | Terminal/Resources/hterm_bridge.js:119 | readiness marks the native side loaded |
| BridgeProtocol.FocusListeners | Terminal/Resources/hterm_bridge.js:65-71 | the focus and blur listeners set the native focus flag and nothing else |
| BridgeProtocol.TapReturnsToInputMode | Terminal/Resources/hterm_bridge.js:73-83 | touchstart then touchend from the page returns a scrolling view to input mode |
| BridgeProtocol.DragStaysInScrollMode | Terminal/Resources/hterm_bridge.js:73-83 | touchstart, touchmove, touchend leaves it scrolling |
| TerminalViewSpec.Commands | Sources/Public/TerminalView.swift:351-353 | one command per input, in order, each with the given flags |
| TerminalViewSpec.CharacterStrings | Sources/Public/TerminalView.swift:354-357 | each key becomes the one-character string of that key |
| TerminalViewSpec.CommandsSnoc | Sources/Public/TerminalView.swift:351-353 | appending one input appends one command |
| TerminalViewSpec.CharacterStringsSnoc | Sources/Public/TerminalView.swift:354-357 | appending one key appends its string |
| TerminalViewSpec.RegisteredKeyCommands | Sources/Public/TerminalView.swift:337-370 | 7 plain + 33 control + 46 option (only with option as meta) + 2 commands |
| TerminalViewSpec.SpecialKeyFor | Sources/Public/TerminalView.swift:387-404 | an input outside the seven UIKit inputs is passed through unchanged |
| TerminalViewSpec.SetMode | Sources/Public/TerminalView.swift:43-49 | the mode is set and the delegate hears of it iff it changed; nothing else changes |
| TerminalViewModel.TerminalView.constructor | Sources/Public/TerminalView.swift:163-194 | a new view is in input mode with an empty buffer, 42 commands and a reloaded, unloaded web view |
| TerminalViewModel.TerminalView.RegisterKeyCommands | Sources/Public/TerminalView.swift:337-370 | the commands become `RegisteredKeyCommands` for the current option setting |
| TerminalViewModel.TerminalView.AppendCommands | Sources/Public/TerminalView.swift:351-353 | the loop appends one command per input |
| TerminalViewModel.TerminalView.AppendCharacterCommands | Sources/Public/TerminalView.swift:354-362 | the loop appends one command per key |
| TerminalViewModel.TerminalView.SetMode | Sources/Public/TerminalView.swift:43-49 | follows `TerminalViewSpec.SetMode` |
| TerminalViewModel.TerminalView.BecomeFirstResponder | Sources/Public/TerminalView.swift:220-232 | accepted iff granted and in input mode; focuses the emulator when accepted |
| TerminalViewModel.TerminalView.ResignFirstResponder | Sources/Public/TerminalView.swift:234-243 | accepted iff granted and in input mode; blurs the emulator when accepted |
| TerminalViewModel.TerminalView.EnterInputMode | Sources/Public/TerminalView.swift:468-476 | follows `TerminalViewSpec.EnterInputMode` |
| TerminalViewModel.TerminalView.EnterScrollMode | Sources/Public/TerminalView.swift:478-485 | follows `TerminalViewSpec.EnterScrollMode` |
| TerminalViewModel.TerminalView.HandlePanGestureRecognizer | Sources/Public/TerminalView.swift:444-454 | follows `TerminalViewSpec.HandlePan` |
| TerminalViewModel.TerminalView.Select | Sources/Public/TerminalView.swift:299-308 | enters scroll mode |
| TerminalViewModel.TerminalView.SelectAll | Sources/Public/TerminalView.swift:310-319 | enters scroll mode |
| TerminalViewModel.TerminalView.ClearBuffer | Sources/Public/TerminalView.swift:489-496 | the buffer becomes empty |
| TerminalViewModel.TerminalView.AppendBuffer | Sources/Public/TerminalView.swift:498-505 | the chunk is appended at the end |
| TerminalViewModel.TerminalView.LayoutSubviews | Sources/Public/TerminalView.swift:198-216 | follows `TerminalViewSpec.LayoutSubviews` |
| TerminalViewModel.TerminalView.SetTerminalContentEditable | Sources/Public/TerminalView.swift:52-55 | forwards to the web view's content-editable property |
| TerminalViewModel.TerminalView.SetTerminalCursorBlink | Sources/Public/TerminalView.swift:57-60 | forwards the cursor blink |
| TerminalViewModel.TerminalView.SetTerminalCursorShape | Sources/Public/TerminalView.swift:61-64 | forwards the cursor shape |
| TerminalViewModel.TerminalView.SetTerminalBackgroundColor | Sources/Public/TerminalView.swift:75-78 | forwards the optional background colour |
| TerminalViewModel.TerminalView.SetTerminalForegroundColor | Sources/Public/TerminalView.swift:80-83 | forwards the colour, `nil` becoming clear |
| TerminalViewModel.TerminalView.SetTerminalCursorColor | Sources/Public/TerminalView.swift:85-88 | forwards the colour, `nil` becoming clear |
| TerminalViewModel.TerminalView.SetTerminalFontFamily | Sources/Public/TerminalView.swift:90-93 | forwards the family, `nil` becoming "Menlo" |
| TerminalViewModel.TerminalView.SetTerminalFontSize | Sources/Public/TerminalView.swift:95-98 | forwards the font size |
| TerminalViewModel.TerminalView.SetTerminalIsEnableBold | Sources/Public/TerminalView.swift:102-105 | forwards the optional bold setting |
| TerminalViewModel.TerminalView.SetTerminalIsEnableBoldAsBright | Sources/Public/TerminalView.swift:107-110 | forwards bold-as-bright |
| TerminalViewModel.TerminalView.IncreaseSize | Sources/Public/TerminalView.swift:321-324 | traps iff `TerminalViewSpec.IncreaseSize` does, leaving the state unchanged when it traps and following the spec otherwise |
| TerminalViewModel.TerminalView.DecreaseSize | Sources/Public/TerminalView.swift:326-329 | traps iff `TerminalViewSpec.DecreaseSize` does, leaving the state unchanged when it traps and following the spec otherwise |
| TerminalViewModel.TerminalView.SetNeedsTerminalScrollEnd | Sources/Public/TerminalView.swift:515-518 | sets the pending scroll to the end |
| TerminalViewModel.TerminalView.HandleKeyInput | Sources/Public/TerminalView.swift:458-464 | follows `TerminalViewSpec.HandleKeyInput` |
| TerminalViewModel.TerminalView.InsertText | Sources/Public/TerminalView.swift:574-582 | follows `TerminalViewSpec.InsertText` |
| TerminalViewModel.TerminalView.HandleKeyCommand | Sources/Public/TerminalView.swift:372-406 | follows `TerminalViewSpec.HandleKeyCommand` |
| TerminalViewModel.TerminalView.Press | Sources/Public/TerminalView.swift:509-511 | types the event's string |
| TerminalViewModel.TerminalView.DeleteBackward | Sources/Public/TerminalView.swift:584-586 | notifies the delegate of a backspace |
| TerminalViewModel.TerminalView.Paste | Sources/Public/TerminalView.swift:293-297 | types the pasteboard's string, if any |
| TerminalViewModel.TerminalView.TerminalScroll | Sources/Public/TerminalView.swift:520-522 | evaluates the event's scroll function |
| TerminalViewModel.TerminalView.TerminalClear | Sources/Public/TerminalView.swift:526-528 | evaluates the event's clear function |
| TerminalViewModel.TerminalView.TerminalErase | Sources/Public/TerminalView.swift:533-535 | evaluates the event's erase function |
| TerminalViewModel.TerminalView.ReloadTerminal | Sources/Public/TerminalView.swift:539-541 | reloads the emulator and keeps the buffer |
| TerminalViewModel.TerminalView.SetUseOptionKeyAsMetaKey | Sources/Public/TerminalView.swift:69-73 | stores the setting and rebuilds the key commands |
| TerminalViewModel.TerminalView.SetControlKeyPressed | Sources/Public/TerminalView.swift:66 | stores the control flag and nothing else |
| TerminalViewModel.TerminalView.SetMetaKeyPressed | Sources/Public/TerminalView.swift:67 | stores the meta flag and nothing else |
| TerminalViewModel.TerminalView.Receive | Sources/Internal/HtermWebView.swift:298-355 | a message from the page, with an armed touch end carried out as `enterInputMode` |
| TerminalViewModel.TerminalView.HasText | Sources/Public/TerminalView.swift:567-572 | true iff the emulator is loaded |
| TerminalViewModel.TerminalView.GetVisibleText | Sources/Public/TerminalView.swift:545-551 | the web view's query; nothing else changes |
| TerminalViewModel.TerminalView.GetAllText | Sources/Public/TerminalView.swift:553-559 | the web view's query; nothing else changes |
| TerminalViewProperties.InitialView | Sources/Public/TerminalView.swift:163-194 | the view starts in input mode with an empty buffer and 42 commands, and the initial reload leaves the web view as created |
| TerminalViewProperties.SetModeTwice | Sources/Public/TerminalView.swift:43-49 | the mode-change note fires once for a repeated assignment, and never for the current mode |
| TerminalViewProperties.FirstResponderOnlyInInputMode | Sources/Public/TerminalView.swift:220-243 | in scroll mode neither responder request reaches the emulator |
| TerminalViewProperties.EnterInputModeEffects | Sources/Public/TerminalView.swift:468-476 | from scroll mode: scroll to the end if loaded, then the mode note, then `term.focus()` if granted, loaded and unfocused |
| TerminalViewProperties.EnterInputModeIdempotent | Sources/Public/TerminalView.swift:469 | a no-op in input mode, so calling it twice is calling it once |
| TerminalViewProperties.EnterScrollModeEffects | Sources/Public/TerminalView.swift:478-485 | from input mode: blur if granted, loaded and focused, then the mode note |
| TerminalViewProperties.ResignBeforeModeChange | Sources/Public/TerminalView.swift:483 | resigning before the mode change blurs; resigning after it would not |
| TerminalViewProperties.EnterScrollModeIdempotent | Sources/Public/TerminalView.swift:479 | a no-op in scroll mode |
| TerminalViewProperties.PanEntersScrollMode | Sources/Public/TerminalView.swift:444-454 | a pan that begins in input mode enters scroll mode; any other pan event changes nothing |
| TerminalViewProperties.TapInScrollModeEntersInputMode | Sources/Internal/HtermWebView.swift:314-322 | a page tap brings a scrolling view to input mode |
| TerminalViewProperties.BufferOrder | Sources/Public/TerminalView.swift:489-505 | chunks are kept in arrival order and a clear empties the buffer; nothing else changes |
| TerminalViewProperties.LayoutWhileUnloaded | Sources/Public/TerminalView.swift:198-202 | while unloaded, layout changes nothing and keeps the buffer |
| TerminalViewProperties.LayoutWhenLoaded | Sources/Public/TerminalView.swift:198-216 | when loaded: the prior buffer is written, the buffer empties, the size is synced, and the end scroll is emitted iff it was pending, clearing the flag |
| TerminalViewProperties.LayoutWritesBufferedText | Sources/Public/TerminalView.swift:203-210 | a buffer holding the UTF-8 of some text sends exactly that text |
| TerminalViewProperties.LayoutDeliversAppendedText | Sources/Public/TerminalView.swift:198-216 | text appended chunk by chunk reaches the page concatenated, in order |
| TerminalViewProperties.LayoutDropsSplitCharacter | Sources/Public/TerminalView.swift:203-210 | a three-byte character split across two layouts is never written: neither half decodes, and both layouts empty the buffer |
| TerminalViewProperties.ReloadKeepsBuffer | Sources/Public/TerminalView.swift:539-541 | reload keeps the buffer; the next layout keeps it too |
| TerminalViewProperties.ReloadThenLoadDelivers | Sources/Public/TerminalView.swift:198-216 | text buffered across a reload is written once the page loads again |
| TerminalViewProperties.IncreaseSizeClamp | Sources/Public/TerminalView.swift:321-324 | min(f + 1, 30), lowering sizes above 30; traps only at `UInt.max` |
| TerminalViewProperties.DecreaseSizeClamp | Sources/Public/TerminalView.swift:326-329 | max(f - 1, 2); traps on 0 |
| TerminalViewProperties.IncreaseFromZeroNotPushed | Sources/Public/TerminalView.swift:321-324 | 0 grows to 1, which is stored but not pushed (outside 2..100) |
| TerminalViewProperties.SizeChangesPushAtMostOnce | Sources/Public/TerminalView.swift:321-329 | the size buttons change only the font size and push it at most once |
| TerminalViewProperties.HandleKeyInputEffects | Sources/Public/TerminalView.swift:458-464 | one string to the delegate, a pending scroll to the end, and a user gesture if loaded |
| TerminalViewProperties.InsertTextWithControl | Sources/Public/TerminalView.swift:575-576 | control alone with a control key sends its control character |
| TerminalViewProperties.InsertTextWithMeta | Sources/Public/TerminalView.swift:577-578 | meta alone with a meta key sends ESC and the key |
| TerminalViewProperties.InsertTextOtherwiseRaw | Sources/Public/TerminalView.swift:574-582 | with both modifiers or neither pressed, or a key the pressed modifier's table rejects, the text is sent as typed |
| TerminalViewProperties.InsertTextExamples | Sources/Public/TerminalView.swift:574-582 | control+c sends ETX, meta+x sends ESC x, and both pressed leaves c |
| TerminalViewProperties.CommandKResets | Sources/Public/TerminalView.swift:378-379 | cmd+k emits `term.reset()` when loaded and types nothing |
| TerminalViewProperties.ShiftTabSendsBackTab | Sources/Public/TerminalView.swift:380-381 | shift+tab sends back-tab |
| TerminalViewProperties.AlternateNeedsOption | Sources/Public/TerminalView.swift:384-405 | option+key sends ESC and the key only with option as meta, and the key as typed otherwise |
| TerminalViewProperties.ExtraModifierFallsThrough | Sources/Public/TerminalView.swift:382-405 | control with a second modifier is not a control key: the input is sent as typed |
| TerminalViewProperties.NoInputIgnored | Sources/Public/TerminalView.swift:375-377 | a command without input does nothing |
| TerminalViewProperties.SpecialKeyTable | Sources/Public/TerminalView.swift:387-401 | the seven UIKit inputs map to escape, page and arrow sequences |
| TerminalViewProperties.PlainCommandsDispatch | Sources/Public/TerminalView.swift:340-401 | each registered plain command sends its terminal sequence |
| TerminalViewProperties.ControlCommandsDispatch | Sources/Public/TerminalView.swift:354-383 | each registered control command sends its control character |
| TerminalViewProperties.MetaCommandsDispatch | Sources/Public/TerminalView.swift:358-385 | with option as meta, each registered option command sends ESC and its key |
| TerminalViewProperties.ClosingCommandsDispatch | Sources/Public/TerminalView.swift:365-381 | the last two commands are cmd+k (reset) and shift+tab (back-tab) |
| TerminalViewProperties.MetaCommandsIffOption | Sources/Public/TerminalView.swift:358-363 | option commands are registered iff option acts as meta |
| TerminalViewProperties.OptionRebuildsCommands | Sources/Public/TerminalView.swift:69-73 | changing the option setting rebuilds 88 or 42 commands |
| TerminalViewProperties.PressSendsEventString | Sources/Public/TerminalView.swift:509-511 | `press` types the event's string |
| TerminalViewProperties.PasteTypes | Sources/Public/TerminalView.swift:293-297 | paste types the pasteboard string, and does nothing without one |

## Left out

- UIKit responder machinery is abstracted.
  - UIKit's own decision on a first-responder request is the parameter `granted`.
  - `isFirstResponder` is not tracked.
  - The tap, long-press and menu handlers are not modelled; the menu is UI only.
  - `canPerformAction`, `inputAccessoryView` and the `UITextInputTraits` values are UIKit queries with no state.
- The `UITextInput` IME support is not modelled: `setMarkedText`/`unmarkText` and the constant stubs are keyboard-framework glue.
- `isUserInteractionEnabled`, `setNeedsLayout`, `panGestureRecognizer.cancel()`, `stopLoading`/`loadBundleHTML` and the message-handler registration are platform calls with no observable effect in the model.
- `select`/`selectAll` on the web view, 0.2 s after entering scroll mode, are WebKit's own selection, so only the mode change is modelled.
- Concurrency is flattened. `bufferQueue`, `onMain` and the main-queue hops are taken as running to completion in the order called, so the model has no interleavings.
- Colours are opaque values compared for equality; `cssString` is floating point and is not modelled.
- `evaluateOneArgumentJavaScript`'s `JSONEncoder` is not modelled: a one-argument call is the function name with the unencoded argument, and an encoding failure is not modelled.
- The weak `parent` and `delegate` references are always present: the view creates its delegate log and its web view when constructed. A `nil` delegate, which would drop notes, is not modelled.
- `Utf8.Decode`: the conversion is strict RFC 3629. Foundation's handling of a byte-order mark is not modelled.
- Swift's `String.count` counts grapheme clusters. The model's one-character checks count Unicode scalars, so a multi-scalar grapheme is treated as several characters.
- `x as? Int` is modelled as "an integral number within `Int`". Foundation's bridging of JSON booleans to numbers is not modelled.
- The string values of UIKit's page and arrow `UIKeyCommand.input*` constants are platform constants. `InputEscape` has its real one-character value, U+001B. The six page and arrow inputs are stand-in strings that differ from each other and from every one-character key.
- The `log` message's console print and the error prints are output only and are not modelled.
- The hterm emulator itself, its preference store and `htermSetup` are not modelled. The page is the call log plus the message shapes of `hterm_bridge.js`.
- `HtermBridgeScript.Post`: a call under a name with no registered native handler throws a `TypeError` in the page, because `webkit.messageHandlers[prop]` is `undefined`. The model posts nothing in that case; the exception and how it propagates through the emulator's callback are not modelled.
- `HtermWebViewModel.HtermWebView.SyncTerminalSizeDidComplete`: an `[Int]` result with fewer than two elements would crash the app. This is a precondition (`SyncResultIndexable`), not a modelled crash.
- The example application, `UIColor+CSSString`, `UIView+EdgeConstraints`, `UIGestureRecognizer+Cancel`, `debugLog` and `Package.swift` are not part of this model.
