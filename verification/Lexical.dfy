/** The lexicographic order of strings and byte strings. */
module Lexical {
  predicate Below(a: seq<int>, b: seq<int>)
    decreases |a|
  {
    b != [] && (a == [] || a[0] < b[0] || (a[0] == b[0] && Below(a[1..], b[1..])))
  }

  lemma {:induction false} NotBelowItself(a: seq<int>)
    ensures !Below(a, a)
  {
    if a != [] { NotBelowItself(a[1..]); }
  }

  lemma {:induction false} BelowTransitive(a: seq<int>, b: seq<int>, c: seq<int>)
    ensures Below(a, b) && Below(b, c) ==> Below(a, c)
    ensures Below(a, c) ==> Below(a, b) || Below(b, c)
    decreases |a|
  {
    if a != [] && b != [] && c != [] {
      BelowTransitive(a[1..], b[1..], c[1..]);
    }
  }

  /** Of two different strings one is below the other. */
  lemma {:induction false} BelowTotal(a: seq<int>, b: seq<int>)
    ensures a == b || Below(a, b) || Below(b, a)
    ensures !(Below(a, b) && Below(b, a))
  {
    BelowTransitive(a, b, a);
    NotBelowItself(a);
    if a != [] && b != [] {
      BelowTotal(a[1..], b[1..]);
      if a[0] == b[0] && a[1..] == b[1..] { assert a == [a[0]] + a[1..] && b == [b[0]] + b[1..]; }
    }
  }

  lemma SameStart(a: seq<int>, b: seq<int>, k: nat)
    ensures 0 < k <= |a| && k <= |b| && a[..k] == b[..k] ==> a[0] == b[0]
  {
    assert 0 < k <= |a| && k <= |b| ==> a[0] == a[..k][0] && b[0] == b[..k][0];
  }

  /** The first difference decides, and a proper prefix is below what it begins. */
  lemma {:induction false} BelowIff(a: seq<int>, b: seq<int>)
    ensures Below(a, b) <==> a < b || exists k :: 0 <= k < |a| && k < |b| && a[..k] == b[..k] && a[k] < b[k]
  {
    if a != [] && b != [] && a[0] == b[0] {
      BelowIff(a[1..], b[1..]);
      assert a == [a[0]] + a[1..] && b == [b[0]] + b[1..];
      if k :| 0 <= k < |a[1..]| && k < |b[1..]| && a[1..][..k] == b[1..][..k] && a[1..][k] < b[1..][k] {
        assert a[..k + 1] == [a[0]] + a[1..][..k] && b[..k + 1] == [b[0]] + b[1..][..k] && a[k + 1] < b[k + 1];
      }
      if k :| 0 <= k < |a| && k < |b| && a[..k] == b[..k] && a[k] < b[k] {
        assert a[1..][..k - 1] == a[..k][1..] && b[1..][..k - 1] == b[..k][1..] && a[1..][k - 1] < b[1..][k - 1];
      }
    } else if a != [] && b != [] && a[0] < b[0] {
      assert a[..0] == b[..0];
    } else if a != [] && b != [] {
      forall k | 0 <= k < |a| && k < |b| && a[..k] == b[..k] ensures a[k] >= b[k] {
        SameStart(a, b, k);
      }
    }
  }
}
