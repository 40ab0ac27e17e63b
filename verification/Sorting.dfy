/** The stable insertion sort, for any strict weak order. */
module Sorting {
  import opened Sequences

  /** A strict weak order: elements neither of which is less stand at one rank. */
  ghost predicate Orders<T(!new)>(less: (T, T) -> bool) {
    && (forall a :: !less(a, a))
    && (forall a, b, c :: less(a, b) && less(b, c) ==> less(a, c))
    && (forall a, b, c :: less(a, c) ==> less(a, b) || less(b, c))
  }

  ghost predicate Ascending<T(!new)>(s: seq<T>, less: (T, T) -> bool) {
    forall i, j :: 0 <= i < j < |s| ==> !less(s[j], s[i])
  }

  ghost predicate StrictlyAscending<T(!new)>(s: seq<T>, less: (T, T) -> bool) {
    forall i, j :: 0 <= i < j < |s| ==> less(s[i], s[j])
  }

  /** Members of one rank are equal. */
  ghost predicate Separates<T(!new)>(less: (T, T) -> bool, s: seq<T>) {
    forall x, y :: x in s && y in s && !less(x, y) && !less(y, x) ==> x == y
  }

  /** Behind everything that is not above it. */
  function InsertBy<T>(x: T, s: seq<T>, less: (T, T) -> bool): seq<T> {
    if s == [] || less(x, s[0]) then [x] + s else [s[0]] + InsertBy(x, s[1..], less)
  }

  function SortBy<T>(s: seq<T>, less: (T, T) -> bool): seq<T> {
    if s == [] then [] else InsertBy(s[|s| - 1], SortBy(s[..|s| - 1], less), less)
  }

  lemma {:induction false} InsertPermutes<T>(x: T, s: seq<T>, less: (T, T) -> bool)
    ensures multiset(InsertBy(x, s, less)) == multiset(s) + multiset{x}
  {
    if s != [] && !less(x, s[0]) {
      InsertPermutes(x, s[1..], less);
      HeadAndTail(s);
    }
  }

  lemma {:induction false} InsertAscends<T(!new)>(x: T, s: seq<T>, less: (T, T) -> bool)
    requires Orders(less) && Ascending(s, less)
    ensures Ascending(InsertBy(x, s, less), less)
  {
    if s == [] {
    } else if less(x, s[0]) {
      forall j | 0 <= j < |s| ensures !less(s[j], x) {
        var y, first := s[j], s[0];
        assert less(y, x) ==> less(y, first);
      }
    } else {
      InsertAscends(x, s[1..], less);
      InsertPermutes(x, s[1..], less);
      var t := InsertBy(x, s[1..], less);
      forall j | 0 <= j < |t| ensures !less(t[j], s[0]) {
        assert t[j] in multiset(t);
        if t[j] != x {
          assert t[j] in multiset(s[1..]);
          var k :| 0 <= k < |s[1..]| && s[1..][k] == t[j];
          assert s[k + 1] == t[j];
        }
      }
    }
  }

  lemma {:induction false} SortPermutes<T>(s: seq<T>, less: (T, T) -> bool)
    ensures multiset(SortBy(s, less)) == multiset(s) && |SortBy(s, less)| == |s|
  {
    if s != [] {
      var before, last := s[..|s| - 1], s[|s| - 1];
      SortPermutes(before, less);
      InsertPermutes(last, SortBy(before, less), less);
      assert s == before + [last];
    }
    assert |multiset(s)| == |s| && |multiset(SortBy(s, less))| == |SortBy(s, less)|;
  }

  lemma {:induction false} SortAscends<T(!new)>(s: seq<T>, less: (T, T) -> bool)
    requires Orders(less)
    ensures Ascending(SortBy(s, less), less)
  {
    if s != [] {
      SortAscends(s[..|s| - 1], less);
      InsertAscends(s[|s| - 1], SortBy(s[..|s| - 1], less), less);
    }
  }

  lemma FirstsEqual<T(!new)>(t: seq<T>, u: seq<T>, less: (T, T) -> bool)
    requires Ascending(t, less) && Ascending(u, less) && multiset(t) == multiset(u) && Separates(less, t)
    requires Orders(less) && t != [] && u != []
    ensures t[0] == u[0]
  {
    MembersOf(t, u);
    assert t[0] in u && u[0] in t;
    var i :| 0 <= i < |u| && u[i] == t[0];
    var j :| 0 <= j < |t| && t[j] == u[0];
  }

  /** Two ascending orders of the same elements are the same. */
  lemma {:induction false} OneAscendingOrder<T(!new)>(t: seq<T>, u: seq<T>, less: (T, T) -> bool)
    requires Ascending(t, less) && Ascending(u, less) && multiset(t) == multiset(u) && Separates(less, t) && Orders(less)
    ensures t == u
    decreases |t|
  {
    assert |multiset(t)| == |t| && |multiset(u)| == |u|;
    if t != [] {
      FirstsEqual(t, u, less);
      HeadAndTail(t);
      HeadAndTail(u);
      SeparatesPart(less, t, t[1..]);
      OneAscendingOrder(t[1..], u[1..], less);
    }
  }

  lemma SeparatesPart<T(!new)>(less: (T, T) -> bool, s: seq<T>, part: seq<T>)
    requires Separates(less, s) && forall x :: x in part ==> x in s
    ensures Separates(less, part)
  {
    forall x, y | x in part && y in part && !less(x, y) && !less(y, x) ensures x == y { assert x in s && y in s; }
  }

  /** When the ranks tell the members apart, sorting forgets the order they came in. */
  lemma SortForgetsOrder<T(!new)>(a: seq<T>, b: seq<T>, less: (T, T) -> bool)
    requires multiset(a) == multiset(b) && Separates(less, a) && Orders(less)
    ensures SortBy(a, less) == SortBy(b, less)
  {
    SortPermutes(a, less);
    SortPermutes(b, less);
    SortAscends(a, less);
    SortAscends(b, less);
    MembersOf(SortBy(a, less), a);
    SeparatesPart(less, a, SortBy(a, less));
    OneAscendingOrder(SortBy(a, less), SortBy(b, less), less);
  }

  /** Sorting something ascending changes nothing. */
  lemma {:induction false} SortKeepsAscending<T(!new)>(s: seq<T>, less: (T, T) -> bool)
    requires Ascending(s, less)
    ensures SortBy(s, less) == s
  {
    if s != [] {
      var before, last := s[..|s| - 1], s[|s| - 1];
      SortKeepsAscending(before, less);
      InsertLast(last, before, less);
      assert s == before + [last];
    }
  }

  lemma {:induction false} InsertLast<T(!new)>(x: T, s: seq<T>, less: (T, T) -> bool)
    requires forall i :: 0 <= i < |s| ==> !less(x, s[i])
    ensures InsertBy(x, s, less) == s + [x]
  {
    if s != [] {
      InsertLast(x, s[1..], less);
      assert s == [s[0]] + s[1..];
    }
  }

  predicate Level<T>(a: T, b: T, less: (T, T) -> bool) { !less(a, b) && !less(b, a) }

  function Swap<T>(t: seq<T>, i: nat, j: nat): seq<T>
    requires i < j < |t|
  {
    t[i := t[j]][j := t[i]]
  }

  lemma SwapPermutes<T>(t: seq<T>, i: nat, j: nat)
    requires i < j < |t|
    ensures multiset(Swap(t, i, j)) == multiset(t)
  {
  }

  /** Members of one rank can change places in a sorted list, and sorting leaves them so. */
  lemma SwapStays<T(!new)>(t: seq<T>, i: nat, j: nat, less: (T, T) -> bool)
    requires Orders(less) && Ascending(t, less) && i < j < |t| && Level(t[i], t[j], less)
    ensures SortBy(Swap(t, i, j), less) == Swap(t, i, j)
  {
    var u := Swap(t, i, j);
    forall a, b | 0 <= a < b < |u| ensures !less(u[b], u[a]) {
      LevelWith(t, u, a, i, j, less);
      LevelWith(t, u, b, i, j, less);
      AsLevel(u[b], t[b], t[a], u[a], less);
    }
    SortKeepsAscending(u, less);
  }

  lemma LevelWith<T(!new)>(t: seq<T>, u: seq<T>, k: nat, i: nat, j: nat, less: (T, T) -> bool)
    requires Orders(less) && i < j < |t| && Level(t[i], t[j], less) && u == Swap(t, i, j) && k < |t|
    ensures Level(u[k], t[k], less)
  {
  }

  lemma AsLevel<T(!new)>(w: T, x: T, y: T, z: T, less: (T, T) -> bool)
    requires Orders(less) && Level(w, x, less) && Level(y, z, less) && !less(x, y)
    ensures !less(w, z)
  {
    assert less(w, z) ==> less(w, x) || less(x, z);
    assert less(x, z) ==> less(x, y) || less(y, z);
  }
}
