/**
 * Values shared by the bridge model: Swift's fixed-width integers, the terminal
 * size record (Sources/Terminal/Public/TerminalSize.swift), the mode and cursor
 * shape enums of TerminalView.swift, the payloads that cross the JavaScript
 * bridge, the outbound JavaScript calls and the delegate notifications.
 */
module Values {
  import opened Wrappers

  const IntMin: int := -0x8000_0000_0000_0000
  const IntMax: int := 0x7FFF_FFFF_FFFF_FFFF
  const UIntMax: int := 0xFFFF_FFFF_FFFF_FFFF

  /** Swift `Int` on a 64-bit device. */
  type Int = x: int | IntMin <= x <= IntMax
  /** Swift `UInt` on a 64-bit device. */
  type UInt = x: int | 0 <= x <= UIntMax

  /** `TerminalSize`: columns and rows as reported by the emulator. */
  datatype TerminalSize = TerminalSize(cols: Int, rows: Int)

  /** `TerminalSize.zero`. */
  const ZeroSize: TerminalSize := TerminalSize(0, 0)

  /** `TerminalMode`. */
  datatype Mode = Input | Scroll

  /** `TerminalCursorShape` and its raw values. */
  datatype CursorShape = Block | Beam | Underline
  {
    function RawValue(): string {
      match this
      case Block => "BLOCK"
      case Beam => "BEAM"
      case Underline => "UNDERLINE"
    }
  }

  /** Colours are opaque and compared for equality only; `Clear` is `UIColor.clear`. */
  datatype Color = Clear | Custom(id: nat)

  /**
   * A JavaScript value as WebKit hands it to native code. `JNumber` is an
   * integral number; every other value (objects, fractions, undefined) is `JOther`.
   */
  datatype Json = JNull | JBool(b: bool) | JNumber(n: int) | JString(s: string) | JArray(items: seq<Json>) | JOther

  /** A `WKScriptMessage`: the handler name and the posted body. */
  datatype Message = Message(name: string, body: Json)

  /** `body as? String`. */
  predicate IsString(j: Json) {
    j.JString?
  }

  /** `x as? Int`: an integral number that fits Swift's `Int`. */
  predicate IsSwiftInt(j: Json) {
    j.JNumber? && IntMin <= j.n <= IntMax
  }

  /** `result as? [Int]`: an array whose every element is an `Int`. */
  predicate IsIntArray(j: Json) {
    j.JArray? && forall k :: 0 <= k < |j.items| ==> IsSwiftInt(j.items[k])
  }

  /** The argument of a one-argument call, before JSON encoding. */
  datatype Arg =
    | CssColor(color: Color)
    | BoolArg(b: bool)
    | UIntArg(u: UInt)
    | StringArg(s: string)
    | OptionalBoolArg(ob: Option<bool>)

  /** One outbound call: a raw expression, or a function applied to one argument. */
  datatype JsCall = Evaluate(expression: string) | Invoke(functionName: string, arg: Arg)

  /** The `TerminalViewDelegate` callbacks that carry information. */
  datatype Note =
    | DidLoad
    | DidChangeTerminalSize(oldSize: TerminalSize)
    | DidHandleURL(url: string)
    | DidHandleKeyInput(input: string)
    | DidHandleDeleteBackward
    | DidHandleSendString(sent: string)
    | DidHandleOnVTKeyStroke(stroke: string)
    | DidChangeMode

  /** What an `evaluateJavaScript` completion handler receives. */
  datatype EvalResult = Failed | Returned(value: Json)
}
