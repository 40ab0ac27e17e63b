/** Paths split at their slashes. */
module PathParts {

  const SLASH: int := 0x2F

  function Split(s: seq<int>): (parts: seq<seq<int>>)
    ensures parts != []
  {
    if s == [] then [[]]
    else
      var rest := Split(s[1..]);
      if s[0] == SLASH then [[]] + rest else [[s[0]] + rest[0]] + rest[1..]
  }

  function Join(parts: seq<seq<int>>): seq<int>
    requires parts != []
  {
    if |parts| == 1 then parts[0] else parts[0] + [SLASH] + Join(parts[1..])
  }

  lemma {:induction false} JoinSplit(s: seq<int>)
    ensures Join(Split(s)) == s
  {
    if s != [] {
      JoinSplit(s[1..]);
      var rest := Split(s[1..]);
      assert s == [s[0]] + s[1..];
      if s[0] == SLASH {
        assert Split(s)[1..] == rest;
      } else {
        assert Split(s)[1..] == rest[1..];
      }
    }
  }

  lemma {:induction false} SplitPlain(p: seq<int>)
    requires SLASH !in p
    ensures Split(p) == [p]
  {
    if p != [] {
      SplitPlain(p[1..]);
      assert p == [p[0]] + p[1..];
    }
  }

  lemma {:induction false} SplitAfter(p: seq<int>, rest: seq<int>)
    requires SLASH !in p
    ensures Split(p + [SLASH] + rest) == [p] + Split(rest)
  {
    var s := p + [SLASH] + rest;
    if p == [] {
      assert s[1..] == rest;
    } else {
      assert s[1..] == p[1..] + [SLASH] + rest;
      SplitAfter(p[1..], rest);
      assert p == [p[0]] + p[1..];
    }
  }

  /** Joining parts without slashes and splitting again gives the parts. */
  lemma {:induction false} SplitJoin(parts: seq<seq<int>>)
    requires parts != [] && forall i :: 0 <= i < |parts| ==> SLASH !in parts[i]
    ensures Split(Join(parts)) == parts
  {
    if |parts| == 1 {
      SplitPlain(parts[0]);
      assert parts == [parts[0]];
    } else {
      SplitJoin(parts[1..]);
      SplitAfter(parts[0], Join(parts[1..]));
      assert parts == [parts[0]] + parts[1..];
    }
  }

  /** No part of a split contains a slash. */
  lemma {:induction false} PartsPlain(s: seq<int>)
    ensures forall i :: 0 <= i < |Split(s)| ==> SLASH !in Split(s)[i]
  {
    if s != [] {
      PartsPlain(s[1..]);
      var rest := Split(s[1..]);
      if s[0] != SLASH { assert SLASH !in rest[0]; }
    }
  }

  /** What a joined path consists of. */
  lemma {:induction false} JoinMembers(parts: seq<seq<int>>, x: int)
    requires parts != [] && x != SLASH && forall i :: 0 <= i < |parts| ==> x !in parts[i]
    ensures x !in Join(parts)
  {
    if |parts| > 1 { JoinMembers(parts[1..], x); }
  }

  lemma JoinStarts(parts: seq<seq<int>>)
    requires parts != [] && parts[0] != []
    ensures Join(parts) != [] && Join(parts)[0] == parts[0][0]
  {
  }

  lemma {:induction false} SplitMembers(s: seq<int>, x: int)
    requires x !in s
    ensures forall i :: 0 <= i < |Split(s)| ==> x !in Split(s)[i]
  {
    if s != [] { SplitMembers(s[1..], x); }
  }
}
