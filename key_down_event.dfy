/** `TerminalKeyDownEvent` (Terminal/Public/TerminalKeyDownEvent.swift) and the string each key sends. */
module KeyDownEvent {
  import SpecialKeys

  datatype TerminalKeyDownEvent =
    | Escape | Backspace | Tab | PageUp | PageDown
    | LeftArrow | UpArrow | DownArrow | RightArrow

  /** The page and arrow keys: the events that send an escape sequence. */
  predicate IsNavigation(e: TerminalKeyDownEvent) {
    !(e.Escape? || e.Backspace? || e.Tab?)
  }

  /** `TerminalKeyDownEvent.string`. */
  function EventString(e: TerminalKeyDownEvent): (r: string)
    ensures |r| > 0
    ensures |r| > 1 <==> IsNavigation(e)
    ensures |r| > 1 ==> r[0] == 27 as char
  {
    match e
    case Escape => SpecialKeys.Escape
    case Backspace => SpecialKeys.Backspace
    case Tab => SpecialKeys.Tab
    case PageUp => SpecialKeys.PageUp
    case PageDown => SpecialKeys.PageDown
    case LeftArrow => SpecialKeys.LeftArrow
    case UpArrow => SpecialKeys.UpArrow
    case DownArrow => SpecialKeys.DownArrow
    case RightArrow => SpecialKeys.RightArrow
  }

  /** The control characters and arrow sequences each key sends. */
  lemma ExactStrings()
    ensures EventString(Escape) == [0x1B as char]
    ensures EventString(Backspace) == [0x7F as char]
    ensures EventString(Tab) == "\t"
    ensures EventString(LeftArrow) == [0x1B as char, '[', 'D']
    ensures EventString(UpArrow) == [0x1B as char, '[', 'A']
    ensures EventString(DownArrow) == [0x1B as char, '[', 'B']
    ensures EventString(RightArrow) == [0x1B as char, '[', 'C']
  {
    SpecialKeys.SingleCharacterKeys();
    SpecialKeys.EscapeSequences();
  }

  /** Where the event's string sits among the ten special-key constants. */
  function Slot(e: TerminalKeyDownEvent): (i: nat)
    ensures i < |SpecialKeys.All()| && SpecialKeys.All()[i] == EventString(e)
  {
    match e
    case Escape => 0
    case Backspace => 1
    case Tab => 2
    case PageUp => 4
    case PageDown => 5
    case LeftArrow => 6
    case UpArrow => 7
    case DownArrow => 8
    case RightArrow => 9
  }

  /** Distinct keys send distinct strings. */
  lemma Injective(e1: TerminalKeyDownEvent, e2: TerminalKeyDownEvent)
    requires EventString(e1) == EventString(e2)
    ensures e1 == e2
  {
    SpecialKeys.PairwiseDistinct();
    assert Slot(e1) == Slot(e2);
  }
}
