/**
 * The byte sequences the terminal expects for the special keys
 * (Sources/Internal/String+SpecialKeys.swift).
 */
module SpecialKeys {

  const Escape: string := "\U{1B}"
  const Backspace: string := "\U{7F}"

  const Tab: string := "\t"
  /** ESC [ Z, the back-tab sequence. */
  const BackTab: string := Escape + "[Z"

  const PageUp: string := Escape + "[5~"
  const PageDown: string := Escape + "[6~"

  const LeftArrow: string := Escape + "[D"
  const UpArrow: string := Escape + "[A"
  const DownArrow: string := Escape + "[B"
  const RightArrow: string := Escape + "[C"

  /** All ten constants, in declaration order. */
  function All(): seq<string> {
    [Escape, Backspace, Tab, BackTab, PageUp, PageDown, LeftArrow, UpArrow, DownArrow, RightArrow]
  }

  lemma SingleCharacterKeys()
    ensures Escape == [27 as char] && Backspace == [127 as char] && Tab == [9 as char]
  {
  }

  lemma EscapeSequences()
    ensures BackTab == [27 as char, '[', 'Z']
    ensures PageUp == [27 as char, '[', '5', '~'] && PageDown == [27 as char, '[', '6', '~']
    ensures LeftArrow == [27 as char, '[', 'D'] && UpArrow == [27 as char, '[', 'A']
    ensures DownArrow == [27 as char, '[', 'B'] && RightArrow == [27 as char, '[', 'C']
  {
  }

  /** A character that tells the ten constants apart: the third of a four-character one, else the last. */
  function Tag(s: string): char
    requires |s| > 0
  {
    if |s| == 4 then s[2] else s[|s| - 1]
  }

  /** No two special keys send the same bytes. */
  lemma PairwiseDistinct()
    ensures forall i, j :: 0 <= i < j < |All()| ==> All()[i] != All()[j]
  {
    var tags := [27 as char, 127 as char, 9 as char, 'Z', '5', '6', 'D', 'A', 'B', 'C'];
    forall k | 0 <= k < |All()|
      ensures |All()[k]| > 0 && Tag(All()[k]) == tags[k]
    {
    }
  }

  /** Every constant longer than one character is an escape sequence. */
  lemma LongKeysStartWithEscape()
    ensures forall k :: k in All() && |k| > 1 ==> k[0] == Escape[0]
  {
  }
}
