/** `TerminalClearEvent` (Terminal/Public/TerminalClearEvent.swift) and its emulator function. */
module ClearEvent {
  import HtermFunctions

  datatype TerminalClearEvent = ClearScrollback | Reset | SoftReset | ClearHome | Clear
  {
    /** The Swift case name. */
    function Name(): string {
      match this
      case ClearScrollback => "clearScrollback"
      case Reset => "reset"
      case SoftReset => "softReset"
      case ClearHome => "clearHome"
      case Clear => "clear"
    }
  }

  /** `htermFunction`: each event maps to the emulator function of the same name. */
  function HtermFunction(e: TerminalClearEvent): (f: HtermFunctions.HtermClearFunction)
    ensures f.Name() == e.Name()
  {
    match e
    case ClearScrollback => HtermFunctions.HtermClearFunction.ClearScrollback
    case Reset => HtermFunctions.HtermClearFunction.Reset
    case SoftReset => HtermFunctions.HtermClearFunction.SoftReset
    case ClearHome => HtermFunctions.HtermClearFunction.ClearHome
    case Clear => HtermFunctions.HtermClearFunction.Clear
  }

  /** The event that maps to a given function: every function is reached. */
  function EventFor(f: HtermFunctions.HtermClearFunction): (e: TerminalClearEvent)
    ensures HtermFunction(e) == f
  {
    match f
    case ClearScrollback => ClearScrollback
    case Reset => Reset
    case SoftReset => SoftReset
    case ClearHome => ClearHome
    case Clear => Clear
  }

  /** The map is a bijection: `EventFor` undoes it. */
  lemma Bijection(e: TerminalClearEvent)
    ensures EventFor(HtermFunction(e)) == e
  {
  }

  /** A reset evaluates `term.reset()`; every clear expression is `term.` + name + `()`. */
  lemma Expressions(e: TerminalClearEvent)
    ensures HtermFunction(Reset).RawValue() == "term.reset()"
    ensures HtermFunction(e).RawValue() == "term." + e.Name() + "()"
  {
    HtermFunctions.ClearExpressionShape(HtermFunction(e));
  }
}
