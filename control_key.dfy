/**
 * Combining a key with Control (Terminal/Internal/Character+Control.swift):
 * for the 33 accepted characters, upper-case the character and flip bit 6 of
 * its 7-bit code.
 */
module ControlKey {
  import opened Wrappers

  /** The characters as the source lists them, before `sorted()`. */
  const ControlKeysAsWritten: string := "abcdefghijklm" + "nopqrstuvwxyz" + "@^-=[]\\"

  /** `controlKeys`: the same characters in code-point order, as `sorted()` leaves them. */
  const ControlKeys: string := "-=@[\\]^" + "abcdefghijklm" + "nopqrstuvwxyz"

  /** `controlMask`: bit 6 of the UInt8 code. */
  const ControlMask := 0x40

  /** The accepted characters described by ranges: the lower-case letters and `@ ^ - = [ ] \`. */
  predicate IsLetterOrControlPunctuation(c: char) {
    'a' <= c <= 'z' || c == '@' || c == '^' || c == '-' || c == '=' || c == '[' || c == ']' || c == '\\'
  }

  /** Membership in `controlKeys` is exactly the range description above. */
  lemma ControlKeysCharacterized(c: char)
    ensures c in ControlKeys <==> IsLetterOrControlPunctuation(c)
  {
    if c in ControlKeys {
      var i :| 0 <= i < |ControlKeys| && ControlKeys[i] == c;
      ControlKeyAt(i);
    }
    if IsLetterOrControlPunctuation(c) {
      var i := ControlKeyIndex(c);
    }
  }

  /** Where an accepted character sits in `controlKeys`. */
  lemma ControlKeyIndex(c: char) returns (i: int)
    requires IsLetterOrControlPunctuation(c)
    ensures 0 <= i < |ControlKeys| && ControlKeys[i] == c
  {
    i := if 'a' <= c <= 'z' then c as int - 'a' as int + 7
      else if c == '-' then 0 else if c == '=' then 1 else if c == '@' then 2
      else if c == '[' then 3 else if c == '\\' then 4 else if c == ']' then 5 else 6;
  }

  lemma ControlKeyAt(i: int)
    requires 0 <= i < |ControlKeys|
    ensures IsLetterOrControlPunctuation(ControlKeys[i])
  {
  }

  lemma ControlKeyAsWrittenAt(i: int)
    requires 0 <= i < |ControlKeysAsWritten|
    ensures IsLetterOrControlPunctuation(ControlKeysAsWritten[i])
  {
  }

  /** After `sorted()` the characters are in strictly increasing order, so none repeats. */
  lemma ControlKeysAreSorted()
    ensures forall i :: 0 <= i < |ControlKeys| - 1 ==> ControlKeys[i] < ControlKeys[i + 1]
  {
  }

  /** Where an accepted character sits in the unsorted spelling. */
  lemma ControlKeyAsWrittenIndex(c: char) returns (i: int)
    requires IsLetterOrControlPunctuation(c)
    ensures 0 <= i < |ControlKeysAsWritten| && ControlKeysAsWritten[i] == c
  {
    i := if 'a' <= c <= 'z' then c as int - 'a' as int
      else if c == '@' then 26 else if c == '^' then 27 else if c == '-' then 28
      else if c == '=' then 29 else if c == '[' then 30 else if c == ']' then 31 else 32;
  }

  /** `sorted()` only reorders: both spellings hold the same 33 characters. */
  lemma ControlKeysAreTheListedCharacters()
    ensures |ControlKeys| == |ControlKeysAsWritten| == 33
    ensures forall c :: c in ControlKeys <==> c in ControlKeysAsWritten
  {
    forall c
      ensures c in ControlKeys <==> c in ControlKeysAsWritten
    {
      ControlKeysCharacterized(c);
      if c in ControlKeysAsWritten {
        var i :| 0 <= i < |ControlKeysAsWritten| && ControlKeysAsWritten[i] == c;
        ControlKeyAsWrittenAt(i);
      }
      if IsLetterOrControlPunctuation(c) {
        var i := ControlKeyAsWrittenIndex(c);
      }
    }
  }

  /** Upper-casing of the accepted characters: ASCII letters move down by 32, punctuation stays. */
  function AsciiUppercased(c: char): char {
    if 'a' <= c <= 'z' then (c as int - 32) as char else c
  }

  /** `canCombineWithControl`. */
  predicate CanCombineWithControl(c: char) {
    c in ControlKeys
  }

  /**
   * `asciiCode ^ controlMask` on a UInt8 code: XOR with the single bit 6 clears
   * that bit when it is set and sets it when it is clear.
   */
  function FlipControlBit(code: int): (r: int)
    requires 0 <= code < 256
    ensures 0 <= r < 256 && r % ControlMask == code % ControlMask
    ensures r / ControlMask / 2 == code / ControlMask / 2
    ensures r / ControlMask % 2 != code / ControlMask % 2
  {
    if code / ControlMask % 2 == 1 then code - ControlMask else code + ControlMask
  }

  /** Flipping the bit twice gives the code back. */
  lemma FlipControlBitTwice(code: int)
    requires 0 <= code < 256
    ensures FlipControlBit(FlipControlBit(code)) == code
  {
  }

  /**
   * The masked character for a 7-bit code: the XOR either clears bit 6 or sets it,
   * stays below 128, and undoes itself.
   */
  function ControlCharacter(upper: char): (r: char)
    requires (upper as int) < 128
    ensures (r as int) == if (upper as int) >= 64 then upper as int - 64 else upper as int + 64
    ensures (r as int) < 128 && FlipControlBit(r as int) == upper as int
  {
    FlipControlBit(upper as int) as char
  }

  /** `Character.combineWithControlKey`. */
  function CombineWithControlKey(c: char): (r: Option<char>)
    ensures r.Some? <==> c in ControlKeys
    ensures r.Some? ==> (r.value as int) < 128
    ensures r.Some? ==> FlipControlBit(r.value as int) == AsciiUppercased(c) as int
  {
    if !CanCombineWithControl(c) then None
    else
      ControlKeysCharacterized(c);
      var upper := AsciiUppercased(c);
      if (upper as int) >= 128 then None  // `asciiValue` is nil
      else Some(ControlCharacter(upper))
  }

  /** `String.combineWithControlKey`: only a one-character string is combined. */
  function CombineStringWithControlKey(s: string): (r: Option<string>)
    ensures r.Some? <==> |s| == 1 && s[0] in ControlKeys
    ensures r.Some? ==> r.value == [CombineWithControlKey(s[0]).value]
  {
    if |s| != 1 then None
    else match CombineWithControlKey(s[0])
      case None => None
      case Some(controlled) => Some([controlled])
  }

  /** A lower-case letter becomes its position in the alphabet: 'a' is 0x01, 'z' is 0x1A. */
  lemma LowercaseLetter(c: char)
    requires 'a' <= c <= 'z'
    ensures CombineWithControlKey(c) == Some((c as int - 'a' as int + 1) as char)
  {
    ControlKeysCharacterized(c);
  }

  lemma Punctuation()
    ensures CombineWithControlKey('@') == Some(0 as char)
    ensures CombineWithControlKey('[') == Some(0x1B as char)
    ensures CombineWithControlKey('\\') == Some(0x1C as char)
    ensures CombineWithControlKey(']') == Some(0x1D as char)
    ensures CombineWithControlKey('^') == Some(0x1E as char)
  {
    ControlKeysCharacterized('@');
    ControlKeysCharacterized('[');
    ControlKeysCharacterized('\\');
    ControlKeysCharacterized(']');
    ControlKeysCharacterized('^');
  }

  /** Upper-casing leaves '-' and '=' alone, so the XOR sets bit 6 instead of clearing it. */
  lemma MinusAndEquals()
    ensures CombineWithControlKey('-') == Some('m')
    ensures CombineWithControlKey('=') == Some('}')
  {
    ControlKeysCharacterized('-');
    ControlKeysCharacterized('=');
  }

  /** Upper-case letters and digits are not combined (the set is case-sensitive). */
  lemma RejectsUppercaseAndDigits(c: char)
    requires 'A' <= c <= 'Z' || '0' <= c <= '9'
    ensures CombineWithControlKey(c) == None
    ensures CombineStringWithControlKey([c]) == None
  {
    ControlKeysCharacterized(c);
  }
}
