/** JavaScript strings as UTF-8: a lone surrogate is written as U+FFFD. */
module TextEncoding {
  import opened Bytes
  import opened Sequences
  import opened Utf16
  import Utf8

  /** No surrogate stands alone. */
  predicate WellFormed(t: Text)
    decreases |t|
  {
    if t == [] then true
    else if High(t[0]) then |t| >= 2 && Low(t[1]) && WellFormed(t[2..])
    else !Low(t[0]) && WellFormed(t[1..])
  }

  function Scalars(t: Text): Utf8.Text
    decreases |t|
  {
    if t == [] then []
    else if High(t[0]) && |t| >= 2 && Low(t[1]) then [Paired(t[0], t[1])] + Scalars(t[2..])
    else if High(t[0]) || Low(t[0]) then [0xFFFD] + Scalars(t[1..])
    else [t[0]] + Scalars(t[1..])
  }

  function UnitsOf(c: Utf8.Scalar): Text {
    if c < 0x1_0000 then [c] else [0xD800 + (c - 0x1_0000) / 0x400, 0xDC00 + (c - 0x1_0000) % 0x400]
  }

  function FromScalars(u: Utf8.Text): Text {
    if u == [] then [] else UnitsOf(u[0]) + FromScalars(u[1..])
  }

  /** `Buffer.from(t, 'utf8')`. */
  function Utf8Of(t: Text): seq<byte> { Utf8.Encode(Scalars(t)) }

  lemma {:induction false} ScalarsReturn(u: Utf8.Text)
    ensures WellFormed(FromScalars(u)) && Scalars(FromScalars(u)) == u
  {
    if u != [] {
      ScalarsReturn(u[1..]);
      var t, rest := FromScalars(u), FromScalars(u[1..]);
      if u[0] < 0x1_0000 {
        assert t[1..] == rest;
      } else {
        assert t[2..] == rest;
        assert Paired(t[0], t[1]) == u[0];
      }
      assert u == [u[0]] + u[1..];
    }
  }

  lemma {:induction false} UnitsReturn(t: Text)
    requires WellFormed(t)
    ensures FromScalars(Scalars(t)) == t
    decreases |t|
  {
    if t != [] {
      if High(t[0]) {
        UnitsReturn(t[2..]);
        assert Scalars(t)[1..] == Scalars(t[2..]);
        assert UnitsOf(Paired(t[0], t[1])) == [t[0], t[1]];
        assert t == [t[0], t[1]] + t[2..];
      } else {
        UnitsReturn(t[1..]);
        assert Scalars(t)[1..] == Scalars(t[1..]);
        assert t == [t[0]] + t[1..];
      }
    }
  }

  /** The bytes decode to the string itself exactly when the string is well formed. */
  lemma SurvivesIff(t: Text)
    ensures FromScalars(Scalars(t)) == t <==> WellFormed(t)
  {
    ScalarsReturn(Scalars(t));
    if WellFormed(t) { UnitsReturn(t); }
  }

  /** Well-formed strings with equal bytes are equal. */
  lemma BytesTellApart(a: Text, b: Text)
    requires WellFormed(a) && WellFormed(b) && Utf8Of(a) == Utf8Of(b)
    ensures a == b
  {
    Utf8.EncodeInjective(Scalars(a), Scalars(b));
    UnitsReturn(a);
    UnitsReturn(b);
  }

  /** A lone surrogate and U+FFFD have the same bytes. */
  lemma LoneSurrogatesCollapse(lone: Unit)
    requires High(lone) || Low(lone)
    ensures Utf8Of([lone]) == Utf8Of([0xFFFD]) && [lone] != [0xFFFD]
  {
    assert [lone][1..] == [] && [0xFFFD as Unit][1..] == [];
  }

  /** Splitting next to a unit that is no surrogate splits the scalars as well. */
  lemma {:induction false} ScalarsAppend(a: Text, b: Text)
    requires a == [] || b == [] || !High(a[|a| - 1]) || !Low(b[0])
    ensures Scalars(a + b) == Scalars(a) + Scalars(b)
    decreases |a|
  {
    if a == [] {
      assert a + b == b;
    } else if High(a[0]) && |a| >= 2 && Low(a[1]) {
      assert (a + b)[2..] == a[2..] + b;
      ScalarsAppend(a[2..], b);
      Associate([Paired(a[0], a[1])], Scalars(a[2..]), Scalars(b));
    } else {
      assert (a + b)[1..] == a[1..] + b;
      ScalarsAppend(a[1..], b);
      Associate([if High(a[0]) || Low(a[0]) then 0xFFFD else a[0]], Scalars(a[1..]), Scalars(b));
    }
  }
}
