/** JavaScript strings: sequences of 16-bit code units. */
module Utf16 {
  import opened Lexical
  import opened Sorting

  type Unit = u: int | 0 <= u < 0x1_0000

  type Text = seq<Unit>

  predicate High(u: Unit) { 0xD800 <= u < 0xDC00 }

  predicate Low(u: Unit) { 0xDC00 <= u < 0xE000 }

  /** The code point of a surrogate pair. */
  function Paired(high: Unit, low: Unit): int { 0x1_0000 + (high - 0xD800) * 0x400 + (low - 0xDC00) }

  /** The code point at `i`, or the lone unit there. */
  function CodePointAt(t: Text, i: nat): int
    requires i < |t|
  {
    if High(t[i]) && i + 1 < |t| && Low(t[i + 1]) then Paired(t[i], t[i + 1]) else t[i]
  }

  /** The code point that ends just before `i`. */
  function CodePointBefore(t: Text, i: nat): int
    requires 0 < i <= |t|
  {
    if i >= 2 && Low(t[i - 1]) && High(t[i - 2]) then Paired(t[i - 2], t[i - 1]) else t[i - 1]
  }

  /** A literal of the program, all of which are ASCII. */
  function Literal(s: string): (t: Text)
    ensures |t| == |s|
    ensures forall i :: 0 <= i < |s| ==> t[i] == if s[i] as int < 0x80 then s[i] as int else 0xFFFD
  {
    seq(|s|, i requires 0 <= i < |s| => if s[i] as int < 0x80 then s[i] as int else 0xFFFD)
  }

  /** The default order of strings, by code unit. */
  predicate TextBelow(a: Text, b: Text) { Below(a, b) }

  lemma TextOrders()
    ensures Orders(TextBelow)
  {
    forall a: Text, b: Text, c: Text
      ensures !TextBelow(a, a)
      ensures TextBelow(a, b) && TextBelow(b, c) ==> TextBelow(a, c)
      ensures TextBelow(a, c) ==> TextBelow(a, b) || TextBelow(b, c)
    {
      NotBelowItself(a);
      BelowTransitive(a, b, c);
    }
  }
}
