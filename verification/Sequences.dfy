/** Filtering and taking from the front, with their multisets. */
module Sequences {

  function Take<T>(s: seq<T>, n: nat): (t: seq<T>)
    ensures |t| == if |s| <= n then |s| else n
    ensures t <= s
  {
    if |s| <= n then s else s[..n]
  }

  lemma Associate<T>(a: seq<T>, b: seq<T>, c: seq<T>)
    ensures a + b + c == a + (b + c)
  {
  }

  lemma TakeDrop<T>(s: seq<T>, n: nat)
    requires n <= |s|
    ensures s == s[..n] + s[n..]
  {
  }

  lemma Around<T>(s: seq<T>, i: nat)
    requires i < |s|
    ensures s == s[..i] + ([s[i]] + s[i + 1..])
  {
  }

  /** A list is its first element before the rest. */
  lemma Uncons<T>(s: seq<T>)
    requires s != []
    ensures s == [s[0]] + s[1..]
  {
  }

  lemma ConsTail<T>(x: T, rest: seq<T>)
    ensures ([x] + rest)[0] == x && ([x] + rest)[1..] == rest
  {
  }

  lemma TailOneMore<T>(s: seq<T>, x: T)
    requires s != []
    ensures (s + [x])[1..] == s[1..] + [x]
  {
  }

  lemma Cancel<T>(a: seq<T>, b: seq<T>, c: seq<T>)
    requires a + b == a + c
    ensures b == c
  {
    assert (a + b)[|a|..] == b && (a + c)[|a|..] == c;
  }

  lemma PutBack<T>(a: multiset<T>, b: multiset<T>, x: T)
    requires x in a && x in b && a - multiset{x} == b - multiset{x}
    ensures a == b
  {
    assert a == a - multiset{x} + multiset{x} && b == b - multiset{x} + multiset{x};
  }

  lemma AddRemove<T>(a: multiset<T>, x: T)
    ensures a + multiset{x} - multiset{x} == a
  {
  }

  lemma HeadAndTail<T>(s: seq<T>)
    requires s != []
    ensures s == [s[0]] + s[1..] && multiset(s[1..]) == multiset(s) - multiset{s[0]}
  {
    RemoveAt(s, 0);
    assert s[..0] + s[1..] == s[1..];
  }

  function Filter<T>(s: seq<T>, keep: T -> bool): seq<T> {
    if s == [] then [] else (if keep(s[0]) then [s[0]] else []) + Filter(s[1..], keep)
  }

  lemma {:induction false} FilterAppend<T>(a: seq<T>, b: seq<T>, keep: T -> bool)
    ensures Filter(a + b, keep) == Filter(a, keep) + Filter(b, keep)
  {
    if a == [] {
      assert a + b == b;
    } else {
      var head := if keep(a[0]) then [a[0]] else [];
      assert (a + b)[1..] == a[1..] + b && (a + b)[0] == a[0];
      FilterAppend(a[1..], b, keep);
      Associate(head, Filter(a[1..], keep), Filter(b, keep));
    }
  }

  lemma FilterOne<T>(s: seq<T>, x: T, keep: T -> bool)
    ensures Filter(s + [x], keep) == Filter(s, keep) + if keep(x) then [x] else []
  {
    FilterAppend(s, [x], keep);
    assert [x][1..] == [] && Filter([x][1..], keep) == [];
  }

  lemma {:induction false} FilterCounts<T>(s: seq<T>, keep: T -> bool, x: T)
    ensures multiset(Filter(s, keep))[x] == if keep(x) then multiset(s)[x] else 0
  {
    if s != [] {
      assert s == [s[0]] + s[1..];
      FilterCounts(s[1..], keep, x);
    }
  }

  lemma FilterMembers<T>(s: seq<T>, keep: T -> bool, x: T)
    ensures x in Filter(s, keep) <==> x in s && keep(x)
  {
    FilterCounts(s, keep, x);
    assert x in multiset(s) <==> x in s;
    assert x in multiset(Filter(s, keep)) <==> x in Filter(s, keep);
  }

  lemma SameCounts<T>(a: multiset<T>, b: multiset<T>)
    requires forall x: T :: a[x] == b[x]
    ensures a == b
  {
    assert a <= b && b <= a;
  }

  /** Filters of permutations are permutations. */
  lemma FilterPermutes<T>(a: seq<T>, b: seq<T>, keep: T -> bool)
    requires multiset(a) == multiset(b)
    ensures multiset(Filter(a, keep)) == multiset(Filter(b, keep))
  {
    forall x: T ensures multiset(Filter(a, keep))[x] == multiset(Filter(b, keep))[x] {
      FilterCounts(a, keep, x);
      FilterCounts(b, keep, x);
    }
    SameCounts(multiset(Filter(a, keep)), multiset(Filter(b, keep)));
  }

  /** Predicates that agree on the members select the same list. */
  lemma {:induction false} FilterAgrees<T>(s: seq<T>, p: T -> bool, q: T -> bool)
    requires forall x :: x in s ==> p(x) == q(x)
    ensures Filter(s, p) == Filter(s, q)
  {
    if s != [] { FilterAgrees(s[1..], p, q); }
  }

  lemma InsertAt<T>(s: seq<T>, i: nat, x: T)
    requires i <= |s|
    ensures multiset(s[..i] + [x] + s[i..]) == multiset(s) + multiset{x}
  {
    assert s == s[..i] + s[i..];
  }

  lemma RemoveAt<T>(s: seq<T>, i: nat)
    requires i < |s|
    ensures multiset(s[..i] + s[i + 1..]) == multiset(s) - multiset{s[i]}
  {
    assert s == s[..i] + [s[i]] + s[i + 1..];
  }

  lemma MembersOf<T>(a: seq<T>, b: seq<T>)
    requires multiset(a) == multiset(b)
    ensures forall x :: x in a <==> x in b
  {
    forall x ensures x in a <==> x in b {
      assert x in a <==> x in multiset(a);
      assert x in b <==> x in multiset(b);
    }
  }

  function Map<T, U>(s: seq<T>, f: T -> U): (r: seq<U>)
    ensures |r| == |s|
    ensures forall i :: 0 <= i < |s| ==> r[i] == f(s[i])
  {
    if s == [] then [] else [f(s[0])] + Map(s[1..], f)
  }

  lemma {:induction false} MapAppend<T, U>(a: seq<T>, b: seq<T>, f: T -> U)
    ensures Map(a + b, f) == Map(a, f) + Map(b, f)
  {
  }

  /** Maps of permutations are permutations. */
  lemma {:induction false} MapPermutes<T, U>(a: seq<T>, b: seq<T>, f: T -> U)
    requires multiset(a) == multiset(b)
    ensures multiset(Map(a, f)) == multiset(Map(b, f))
    decreases |a|
  {
    if a == [] {
      assert |multiset(b)| == 0;
    } else {
      assert a[0] in multiset(b);
      var i :| 0 <= i < |b| && b[i] == a[0];
      HeadAndTail(a);
      RemoveAt(b, i);
      MapPermutes(a[1..], b[..i] + b[i + 1..], f);
      MapWithout(b, i, f);
      HeadAndTail(Map(a, f));
      assert Map(b, f)[i] == f(a[0]);
      PutBack(multiset(Map(a, f)), multiset(Map(b, f)), f(a[0]));
    }
  }

  lemma MapAround<T, U>(x: seq<T>, v: T, y: seq<T>, f: T -> U)
    ensures Map(x + ([v] + y), f) == Map(x, f) + ([f(v)] + Map(y, f))
    ensures multiset(Map(x + ([v] + y), f)) == multiset(Map(x, f) + Map(y, f)) + multiset{f(v)}
  {
    MapAppend(x, [v] + y, f);
    assert ([v] + y)[1..] == y;
    assert Map([v] + y, f) == [f(v)] + Map(y, f);
  }

  lemma MapWithout<T, U>(b: seq<T>, i: nat, f: T -> U)
    requires i < |b|
    ensures multiset(Map(b[..i] + b[i + 1..], f)) == multiset(Map(b, f)) - multiset{f(b[i])}
  {
    var x, y := b[..i], b[i + 1..];
    MapAppend(x, y, f);
    MapAround(x, b[i], y, f);
    Around(b, i);
    AddRemove(multiset(Map(x, f) + Map(y, f)), f(b[i]));
  }

  ghost predicate DistinctBy<T, K>(s: seq<T>, key: T -> K) {
    forall i, j :: 0 <= i < j < |s| ==> key(s[i]) != key(s[j])
  }

  lemma OnceIn<T, K>(s: seq<T>, key: T -> K, k: nat)
    requires DistinctBy(s, key) && k < |s|
    ensures multiset(s)[s[k]] == 1
  {
    assert s == s[..k] + [s[k]] + s[k + 1..];
    assert s[k] !in s[..k] && s[k] !in s[k + 1..];
  }

  lemma TwiceIn<T>(s: seq<T>, i: nat, j: nat)
    requires i < j < |s|
    ensures s[i] == s[j] ==> multiset(s)[s[i]] >= 2
  {
    assert s == s[..i] + [s[i]] + s[i + 1..j] + [s[j]] + s[j + 1..];
  }

  /** Different keys stay different in any order. */
  lemma DistinctPermutes<T, K>(a: seq<T>, b: seq<T>, key: T -> K)
    requires multiset(a) == multiset(b) && DistinctBy(a, key)
    ensures DistinctBy(b, key)
  {
    MembersOf(a, b);
    forall i, j | 0 <= i < j < |b| ensures key(b[i]) != key(b[j]) {
      assert b[i] in a && b[j] in a;
      var k :| 0 <= k < |a| && a[k] == b[i];
      var l :| 0 <= l < |a| && a[l] == b[j];
      OnceIn(a, key, k);
      TwiceIn(b, i, j);
      assert k != l;
    }
  }

  /** Every order of the mapped values comes from an order of the values. */
  lemma {:induction false} UnmapPermutes<T, U>(s: seq<T>, f: T -> U, b: seq<U>) returns (t: seq<T>)
    requires multiset(b) == multiset(Map(s, f))
    ensures multiset(t) == multiset(s) && Map(t, f) == b
    decreases |b|
  {
    assert |multiset(b)| == |b| && |multiset(Map(s, f))| == |s|;
    if b == [] {
      t := [];
    } else {
      assert b[0] in multiset(Map(s, f));
      var i :| 0 <= i < |s| && Map(s, f)[i] == b[0];
      RestPermutes(s, f, b, i);
      var rest := UnmapPermutes(s[..i] + s[i + 1..], f, b[1..]);
      t := [s[i]] + rest;
      FrontBack(s, i, rest);
      assert t[1..] == rest;
      Uncons(b);
    }
  }

  lemma RestPermutes<T, U>(s: seq<T>, f: T -> U, b: seq<U>, i: nat)
    requires multiset(b) == multiset(Map(s, f)) && i < |s| && b != [] && f(s[i]) == b[0]
    ensures multiset(b[1..]) == multiset(Map(s[..i] + s[i + 1..], f))
  {
    MapWithout(s, i, f);
    HeadAndTail(b);
  }

  lemma FrontBack<T>(s: seq<T>, i: nat, rest: seq<T>)
    requires i < |s| && multiset(rest) == multiset(s[..i] + s[i + 1..])
    ensures multiset([s[i]] + rest) == multiset(s)
  {
    RemoveAt(s, i);
  }
}
