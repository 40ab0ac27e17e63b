/** Search for a phrase that stands alone between letters and digits. */
module PhraseSearch {
  import opened Common
  import opened Utf16

  predicate OccursAt(text: Text, phrase: Text, i: int) {
    0 <= i <= |text| - |phrase| && text[i..i + |phrase|] == phrase
  }

  /** No letter or number touches `text[i..j]`; `word` is the character class. */
  predicate StandsAlone(text: Text, i: nat, j: nat, word: int -> bool)
    requires i <= j <= |text|
  {
    (i > 0 ==> !word(CodePointBefore(text, i))) && (j < |text| ==> !word(CodePointAt(text, j)))
  }

  predicate AloneAt(text: Text, phrase: Text, i: int, word: int -> bool) {
    OccursAt(text, phrase, i) && StandsAlone(text, i, i + |phrase|, word)
  }

  /** Some occurrence of the phrase stands alone. */
  ghost predicate Includes(text: Text, phrase: Text, word: int -> bool) {
    phrase != [] && exists i :: AloneAt(text, phrase, i, word)
  }

  /** The first occurrence at or after `offset`, or -1. */
  method IndexOf(text: Text, phrase: Text, offset: nat) returns (index: int)
    ensures index == -1 || (offset <= index && OccursAt(text, phrase, index))
    ensures forall i :: offset <= i && (index == -1 || i < index) ==> !OccursAt(text, phrase, i)
  {
    index := offset;
    while index <= |text| - |phrase|
      invariant offset <= index
      invariant forall i :: offset <= i < index ==> !OccursAt(text, phrase, i)
    {
      if text[index..index + |phrase|] == phrase { return; }
      index := index + 1;
    }
    index := -1;
  }

  /** The last code point of the two units before `index`, if any. */
  method Preceding(text: Text, index: nat) returns (c: Option<int>)
    requires index <= |text|
    ensures c == if index == 0 then None else Some(CodePointBefore(text, index))
  {
    if index == 0 { return None; }
    var window := text[if index < 2 then 0 else index - 2..index];
    if |window| == 2 && High(window[0]) && Low(window[1]) { return Some(Paired(window[0], window[1])); }
    return Some(window[|window| - 1]);
  }

  /** The first code point of the two units from `index` on, if any. */
  method Following(text: Text, index: nat) returns (c: Option<int>)
    requires index <= |text|
    ensures c == if index == |text| then None else Some(CodePointAt(text, index))
  {
    if index >= |text| { return None; }
    var window := text[index..if index + 2 <= |text| then index + 2 else |text|];
    if |window| == 2 && High(window[0]) && Low(window[1]) { return Some(Paired(window[0], window[1])); }
    return Some(window[0]);
  }

  /** `boundedNormalizedPhraseIncludes`. */
  method BoundedPhraseIncludes(text: Text, phrase: Text, word: int -> bool) returns (found: bool)
    ensures found <==> Includes(text, phrase, word)
  {
    if |phrase| == 0 { return false; }
    var offset := 0;
    while offset <= |text| - |phrase|
      invariant 0 <= offset
      invariant forall i :: 0 <= i < offset ==> !AloneAt(text, phrase, i, word)
    {
      var index := IndexOf(text, phrase, offset);
      if index < 0 { return false; }
      var before := Preceding(text, index);
      var after := Following(text, index + |phrase|);
      if (before.None? || !word(before.value)) && (after.None? || !word(after.value)) {
        assert AloneAt(text, phrase, index, word);
        return true;
      }
      offset := index + 1;
    }
    return false;
  }
}
