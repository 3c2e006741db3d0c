/**
 * The emulator functions the native side evaluates by raw expression
 * (`HtermScrollFunction`, `HtermClearFunction`, `HtermEraseFunction` in
 * Sources/Internal/HtermWebView.swift). Each case also carries its Swift case
 * name, so that the raw values can be related to the names.
 */
module HtermFunctions {

  /** ASCII upper-casing of the first character, as in `pageUp` to `PageUp`. */
  function Capitalized(s: string): (r: string)
    ensures |r| == |s| && (|s| > 0 ==> r[1..] == s[1..])
  {
    if s == [] then []
    else if 'a' <= s[0] <= 'z' then [(s[0] as int - 32) as char] + s[1..]
    else s
  }

  datatype HtermScrollFunction = Home | End | PageUp | PageDown | LineUp | LineDown
  {
    /** The Swift case name. */
    function Name(): string {
      match this
      case Home => "home"
      case End => "end"
      case PageUp => "pageUp"
      case PageDown => "pageDown"
      case LineUp => "lineUp"
      case LineDown => "lineDown"
    }

    /** The raw value: the expression evaluated in the page. */
    function RawValue(): string {
      match this
      case Home => "term.scrollHome()"
      case End => "term.scrollEnd()"
      case PageUp => "term.scrollPageUp()"
      case PageDown => "term.scrollPageDown()"
      case LineUp => "term.scrollLineUp()"
      case LineDown => "term.scrollLineDown()"
    }
  }

  datatype HtermClearFunction = ClearScrollback | Reset | SoftReset | ClearHome | Clear
  {
    function Name(): string {
      match this
      case ClearScrollback => "clearScrollback"
      case Reset => "reset"
      case SoftReset => "softReset"
      case ClearHome => "clearHome"
      case Clear => "clear"
    }

    function RawValue(): string {
      match this
      case ClearScrollback => "term.clearScrollback()"
      case Reset => "term.reset()"
      case SoftReset => "term.softReset()"
      case ClearHome => "term.clearHome()"
      case Clear => "term.clear()"
    }
  }

  datatype HtermEraseFunction = ToLeft | ToRight | Line | Above | Below
  {
    function Name(): string {
      match this
      case ToLeft => "toLeft"
      case ToRight => "toRight"
      case Line => "line"
      case Above => "above"
      case Below => "below"
    }

    function RawValue(): string {
      match this
      case ToLeft => "term.eraseToLeft()"
      case ToRight => "term.eraseToRight()"
      case Line => "term.eraseLine()"
      case Above => "term.eraseAbove()"
      case Below => "term.eraseBelow()"
    }
  }

  /** The scroll case names with their first letter upper-cased. */
  lemma ScrollNamesCapitalized()
    ensures Capitalized("home") == "Home"
    ensures Capitalized("end") == "End"
    ensures Capitalized("pageUp") == "PageUp"
    ensures Capitalized("pageDown") == "PageDown"
    ensures Capitalized("lineUp") == "LineUp"
    ensures Capitalized("lineDown") == "LineDown"
  {
  }

  /** The erase case names with their first letter upper-cased. */
  lemma EraseNamesCapitalized()
    ensures Capitalized("toLeft") == "ToLeft"
    ensures Capitalized("toRight") == "ToRight"
    ensures Capitalized("line") == "Line"
    ensures Capitalized("above") == "Above"
    ensures Capitalized("below") == "Below"
  {
  }

  /** Every scroll expression is `term.scroll` followed by the capitalized case name and `()`. */
  lemma ScrollExpressionShape(f: HtermScrollFunction)
    ensures f.RawValue() == "term.scroll" + Capitalized(f.Name()) + "()"
  {
    ScrollNamesCapitalized();
    match f
    case Home =>
      assert "term.scroll" + "Home" + "()" == "term.scrollHome()";
    case End =>
      assert "term.scroll" + "End" + "()" == "term.scrollEnd()";
    case PageUp =>
      assert "term.scroll" + "PageUp" + "()" == "term.scrollPageUp()";
    case PageDown =>
      assert "term.scroll" + "PageDown" + "()" == "term.scrollPageDown()";
    case LineUp =>
      assert "term.scroll" + "LineUp" + "()" == "term.scrollLineUp()";
    case LineDown =>
      assert "term.scroll" + "LineDown" + "()" == "term.scrollLineDown()";
  }

  /** Every clear expression is `term.` followed by the case name and `()`. */
  lemma ClearExpressionShape(f: HtermClearFunction)
    ensures f.RawValue() == "term." + f.Name() + "()"
  {
    match f
    case ClearScrollback =>
      assert "term." + "clearScrollback" + "()" == "term.clearScrollback()";
    case Reset =>
      assert "term." + "reset" + "()" == "term.reset()";
    case SoftReset =>
      assert "term." + "softReset" + "()" == "term.softReset()";
    case ClearHome =>
      assert "term." + "clearHome" + "()" == "term.clearHome()";
    case Clear =>
      assert "term." + "clear" + "()" == "term.clear()";
  }

  /** Every erase expression is `term.erase` followed by the capitalized case name and `()`. */
  lemma EraseExpressionShape(f: HtermEraseFunction)
    ensures f.RawValue() == "term.erase" + Capitalized(f.Name()) + "()"
  {
    EraseNamesCapitalized();
    match f
    case ToLeft =>
      assert "term.erase" + "ToLeft" + "()" == "term.eraseToLeft()";
    case ToRight =>
      assert "term.erase" + "ToRight" + "()" == "term.eraseToRight()";
    case Line =>
      assert "term.erase" + "Line" + "()" == "term.eraseLine()";
    case Above =>
      assert "term.erase" + "Above" + "()" == "term.eraseAbove()";
    case Below =>
      assert "term.erase" + "Below" + "()" == "term.eraseBelow()";
  }

  /** Distinct cases evaluate distinct expressions (true of each of the three enums). */
  lemma RawValuesInjective()
    ensures forall f: HtermScrollFunction, g: HtermScrollFunction :: f.RawValue() == g.RawValue() ==> f == g
    ensures forall f: HtermClearFunction, g: HtermClearFunction :: f.RawValue() == g.RawValue() ==> f == g
    ensures forall f: HtermEraseFunction, g: HtermEraseFunction :: f.RawValue() == g.RawValue() ==> f == g
  {
  }
}
