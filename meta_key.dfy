/**
 * Combining a key with Meta (Terminal/Internal/Character+Meta.swift): an accepted
 * one-character string is prefixed with ESC.
 */
module MetaKey {
  import opened Wrappers
  import SpecialKeys

  /** The characters as the source lists them, before `sorted()`. */
  const MetaKeysAsWritten: string := "abcdefghijklm" + "nopqrstuvwxyz" + "0123456789" + "-=[]\\;',./"

  /** `metaKeys`: the same characters in code-point order. */
  const MetaKeys: string := "',-./" + "0123456789;=[\\]" + "abcdefghijklm" + "nopqrstuvwxyz"

  /** The accepted characters described by ranges: letters, digits and `- = [ ] \ ; ' , . /`. */
  predicate IsLetterDigitOrMetaPunctuation(c: char) {
    || 'a' <= c <= 'z' || '0' <= c <= '9'
    || c == '-' || c == '=' || c == '[' || c == ']' || c == '\\'
    || c == ';' || c == '\'' || c == ',' || c == '.' || c == '/'
  }

  lemma MetaKeyAt(i: int)
    requires 0 <= i < |MetaKeys|
    ensures IsLetterDigitOrMetaPunctuation(MetaKeys[i])
  {
  }

  lemma MetaKeyAsWrittenAt(i: int)
    requires 0 <= i < |MetaKeysAsWritten|
    ensures IsLetterDigitOrMetaPunctuation(MetaKeysAsWritten[i])
  {
  }

  /** Where an accepted character sits in `metaKeys`. */
  lemma MetaKeyIndex(c: char) returns (i: int)
    requires IsLetterDigitOrMetaPunctuation(c)
    ensures 0 <= i < |MetaKeys| && MetaKeys[i] == c
  {
    i := if 'a' <= c <= 'z' then c as int - 'a' as int + 20
      else if '0' <= c <= '9' then c as int - '0' as int + 5
      else if c == '\'' then 0 else if c == ',' then 1 else if c == '-' then 2
      else if c == '.' then 3 else if c == '/' then 4 else if c == ';' then 15
      else if c == '=' then 16 else if c == '[' then 17 else if c == '\\' then 18 else 19;
  }

  /** Where an accepted character sits in the unsorted spelling. */
  lemma MetaKeyAsWrittenIndex(c: char) returns (i: int)
    requires IsLetterDigitOrMetaPunctuation(c)
    ensures 0 <= i < |MetaKeysAsWritten| && MetaKeysAsWritten[i] == c
  {
    i := if 'a' <= c <= 'z' then c as int - 'a' as int
      else if '0' <= c <= '9' then c as int - '0' as int + 26
      else if c == '-' then 36 else if c == '=' then 37 else if c == '[' then 38
      else if c == ']' then 39 else if c == '\\' then 40 else if c == ';' then 41
      else if c == '\'' then 42 else if c == ',' then 43 else if c == '.' then 44 else 45;
  }

  /** Membership in `metaKeys` is exactly the range description above. */
  lemma MetaKeysCharacterized(c: char)
    ensures c in MetaKeys <==> IsLetterDigitOrMetaPunctuation(c)
  {
    if c in MetaKeys {
      var i :| 0 <= i < |MetaKeys| && MetaKeys[i] == c;
      MetaKeyAt(i);
    }
    if IsLetterDigitOrMetaPunctuation(c) {
      var i := MetaKeyIndex(c);
    }
  }

  /** `sorted()` only reorders: both spellings hold the same 46 characters. */
  lemma MetaKeysAreTheListedCharacters()
    ensures |MetaKeys| == |MetaKeysAsWritten| == 46
    ensures forall c :: c in MetaKeys <==> c in MetaKeysAsWritten
  {
    forall c
      ensures c in MetaKeys <==> c in MetaKeysAsWritten
    {
      MetaKeysCharacterized(c);
      if c in MetaKeysAsWritten {
        var i :| 0 <= i < |MetaKeysAsWritten| && MetaKeysAsWritten[i] == c;
        MetaKeyAsWrittenAt(i);
      }
      if IsLetterDigitOrMetaPunctuation(c) {
        var i := MetaKeyAsWrittenIndex(c);
      }
    }
  }

  /** After `sorted()` the characters are in strictly increasing order, so none repeats. */
  lemma MetaKeysAreSorted()
    ensures forall i :: 0 <= i < |MetaKeys| - 1 ==> MetaKeys[i] < MetaKeys[i + 1]
  {
  }

  /** `canCombineWithMeta`. */
  predicate CanCombineWithMeta(c: char) {
    c in MetaKeys
  }

  /** `String.combineWithMetaKey`. */
  function CombineWithMetaKey(s: string): (r: Option<string>)
    ensures r.Some? <==> |s| == 1 && s[0] in MetaKeys
    ensures r.Some? ==> |r.value| == 2 && r.value[0] == 27 as char && r.value[1..] == s
  {
    if |s| != 1 then None
    else if !CanCombineWithMeta(s[0]) then None
    else Some(SpecialKeys.Escape + s)
  }

  /** Different inputs never give the same escape sequence. */
  lemma Injective(s: string, t: string)
    requires CombineWithMetaKey(s).Some?
    requires CombineWithMetaKey(s) == CombineWithMetaKey(t)
    ensures s == t
  {
  }

  /** Upper-case letters and the back quote are not combined. */
  lemma Rejects(c: char)
    requires 'A' <= c <= 'Z' || c == '`'
    ensures CombineWithMetaKey([c]) == None
  {
    MetaKeysCharacterized(c);
  }

  lemma LowercaseA()
    ensures CombineWithMetaKey("a") == Some([27 as char, 'a'])
  {
    MetaKeysCharacterized('a');
    assert SpecialKeys.Escape + "a" == [27 as char, 'a'];
  }
}
