/** `TerminalScrollEvent` (Sources/Public/TerminalScrollEvent.swift) and its emulator function. */
module ScrollEvent {
  import HtermFunctions

  datatype TerminalScrollEvent = Home | End | PageUp | PageDown | LineUp | LineDown
  {
    /** The Swift case name. */
    function Name(): string {
      match this
      case Home => "home"
      case End => "end"
      case PageUp => "pageUp"
      case PageDown => "pageDown"
      case LineUp => "lineUp"
      case LineDown => "lineDown"
    }
  }

  /** `htermFunction`: each event maps to the emulator function of the same name. */
  function HtermFunction(e: TerminalScrollEvent): (f: HtermFunctions.HtermScrollFunction)
    ensures f.Name() == e.Name()
  {
    match e
    case Home => HtermFunctions.HtermScrollFunction.Home
    case End => HtermFunctions.HtermScrollFunction.End
    case PageUp => HtermFunctions.HtermScrollFunction.PageUp
    case PageDown => HtermFunctions.HtermScrollFunction.PageDown
    case LineUp => HtermFunctions.HtermScrollFunction.LineUp
    case LineDown => HtermFunctions.HtermScrollFunction.LineDown
  }

  /** The event that maps to a given function: every function is reached. */
  function EventFor(f: HtermFunctions.HtermScrollFunction): (e: TerminalScrollEvent)
    ensures HtermFunction(e) == f
  {
    match f
    case Home => Home
    case End => End
    case PageUp => PageUp
    case PageDown => PageDown
    case LineUp => LineUp
    case LineDown => LineDown
  }

  /** The map is a bijection: `EventFor` undoes it. */
  lemma Bijection(e: TerminalScrollEvent)
    ensures EventFor(HtermFunction(e)) == e
  {
  }

  /** Scrolling to the end evaluates `term.scrollEnd()`; every event's expression is `term.scroll` + name + `()`. */
  lemma Expressions(e: TerminalScrollEvent)
    ensures HtermFunction(End).RawValue() == "term.scrollEnd()"
    ensures HtermFunction(e).RawValue() == "term.scroll" + HtermFunctions.Capitalized(e.Name()) + "()"
  {
    HtermFunctions.ScrollExpressionShape(HtermFunction(e));
  }
}
