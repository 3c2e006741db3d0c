/** `TerminalEraseEvent` (Terminal/Public/TerminalEraseEvent.swift) and its emulator function. */
module EraseEvent {
  import HtermFunctions

  datatype TerminalEraseEvent = ToLeft | ToRight | Line | Above | Below
  {
    /** The Swift case name. */
    function Name(): string {
      match this
      case ToLeft => "toLeft"
      case ToRight => "toRight"
      case Line => "line"
      case Above => "above"
      case Below => "below"
    }
  }

  /** `htermFunction`: each event maps to the emulator function of the same name. */
  function HtermFunction(e: TerminalEraseEvent): (f: HtermFunctions.HtermEraseFunction)
    ensures f.Name() == e.Name()
  {
    match e
    case ToLeft => HtermFunctions.HtermEraseFunction.ToLeft
    case ToRight => HtermFunctions.HtermEraseFunction.ToRight
    case Line => HtermFunctions.HtermEraseFunction.Line
    case Above => HtermFunctions.HtermEraseFunction.Above
    case Below => HtermFunctions.HtermEraseFunction.Below
  }

  /** The event that maps to a given function: every function is reached. */
  function EventFor(f: HtermFunctions.HtermEraseFunction): (e: TerminalEraseEvent)
    ensures HtermFunction(e) == f
  {
    match f
    case ToLeft => ToLeft
    case ToRight => ToRight
    case Line => Line
    case Above => Above
    case Below => Below
  }

  /** The map is a bijection: `EventFor` undoes it. */
  lemma Bijection(e: TerminalEraseEvent)
    ensures EventFor(HtermFunction(e)) == e
  {
  }

  /** Erasing to the left and the line evaluate the named expressions; each is `term.erase` + name + `()`. */
  lemma Expressions(e: TerminalEraseEvent)
    ensures HtermFunction(ToLeft).RawValue() == "term.eraseToLeft()"
    ensures HtermFunction(Line).RawValue() == "term.eraseLine()"
    ensures HtermFunction(e).RawValue() == "term.erase" + HtermFunctions.Capitalized(e.Name()) + "()"
  {
    HtermFunctions.EraseExpressionShape(HtermFunction(e));
  }
}
