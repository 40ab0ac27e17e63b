/** Canonical JSON text: how it is written, and an independent reader for it
    (section 7 of RFC 8259 for the strings). */
module CanonicalJson {
  import opened Common
  import opened Bytes
  import opened Decimals
  import opened Sequences
  import Utf8

  datatype Doc =
    | Bool(b: bool)
    | Num(n: nat)
    | Str(t: Utf8.Text)
    | Arr(items: seq<Doc>)
    | Obj(members: seq<(Utf8.Text, Doc)>)

  const TRUE: seq<byte> := [0x74, 0x72, 0x75, 0x65]
  const FALSE: seq<byte> := [0x66, 0x61, 0x6C, 0x73, 0x65]

  // ---- writing ----

  function Hex(d: int): (h: byte)
    requires 0 <= d < 16
  {
    if d < 10 then 0x30 + d else 0x57 + d
  }

  /** One code point between the quotes. */
  function WriteScalar(c: Utf8.Scalar): (s: seq<byte>)
    ensures |s| >= 1
  {
    if c == 0x08 then [0x5C, 0x62]
    else if c == 0x09 then [0x5C, 0x74]
    else if c == 0x0A then [0x5C, 0x6E]
    else if c == 0x0C then [0x5C, 0x66]
    else if c == 0x0D then [0x5C, 0x72]
    else if c < 0x20 then [0x5C, 0x75, 0x30, 0x30, Hex(c / 16), Hex(c % 16)]
    else if c == 0x22 || c == 0x5C then [0x5C, c]
    else Utf8.EncodeScalar(c)
  }

  function WriteScalars(t: Utf8.Text): seq<byte> {
    if t == [] then [] else WriteScalar(t[0]) + WriteScalars(t[1..])
  }

  function Quote(t: Utf8.Text): seq<byte> { [0x22] + WriteScalars(t) + [0x22] }

  function Write(d: Doc): (s: seq<byte>)
    decreases d, 1
  {
    match d
    case Bool(b) => if b then TRUE else FALSE
    case Num(n) => Decimal(n)
    case Str(t) => Quote(t)
    case Arr(items) => [0x5B] + WriteItems(items) + [0x5D]
    case Obj(members) => [0x7B] + WriteMembers(members) + [0x7D]
  }

  function WriteItems(items: seq<Doc>): seq<byte>
    decreases items, 0
  {
    if items == [] then []
    else if |items| == 1 then Write(items[0])
    else Write(items[0]) + [0x2C] + WriteItems(items[1..])
  }

  function WriteMember(m: (Utf8.Text, Doc)): seq<byte>
    decreases m, 2
  {
    Quote(m.0) + [0x3A] + Write(m.1)
  }

  function WriteMembers(members: seq<(Utf8.Text, Doc)>): seq<byte>
    decreases members, 0
  {
    if members == [] then []
    else if |members| == 1 then WriteMember(members[0])
    else WriteMember(members[0]) + [0x2C] + WriteMembers(members[1..])
  }

  // ---- reading ----

  function Unhex(h: byte): Option<int> {
    if 0x30 <= h < 0x3A then Some(h - 0x30) else if 0x61 <= h < 0x67 then Some(h - 0x57) else None
  }

  /** The code point of a short escape. */
  function ShortEscape(e: byte): Option<Utf8.Scalar> {
    if e == 0x62 then Some(0x08)
    else if e == 0x74 then Some(0x09)
    else if e == 0x6E then Some(0x0A)
    else if e == 0x66 then Some(0x0C)
    else if e == 0x72 then Some(0x0D)
    else if e == 0x22 || e == 0x5C then Some(e)
    else None
  }

  /** One code point of a string, and its length in bytes. */
  function ReadScalar(s: seq<byte>): (r: Option<(Utf8.Scalar, nat)>)
    ensures r.Some? ==> 1 <= r.value.1 <= |s|
  {
    if s == [] || s[0] == 0x22 || s[0] < 0x20 then None
    else if s[0] != 0x5C then Utf8.DecodeFirst(s)
    else if |s| >= 2 && ShortEscape(s[1]).Some? then Some((ShortEscape(s[1]).value, 2))
    else if |s| >= 6 && s[1] == 0x75 && s[2] == 0x30 && s[3] == 0x30 then
      match (Unhex(s[4]), Unhex(s[5])) case (Some(a), Some(b)) => Some((16 * a + b, 6)) case _ => None
    else None
  }

  /** A string after its opening quote. */
  function ReadString(s: seq<byte>): (r: Option<(Utf8.Text, seq<byte>)>)
    ensures r.Some? ==> |r.value.1| < |s|
    decreases |s|
  {
    if s != [] && s[0] == 0x22 then Some(([], s[1..]))
    else match ReadScalar(s)
      case None => None
      case Some((c, n)) =>
        match ReadString(s[n..]) case None => None case Some((t, rest)) => Some(([c] + t, rest))
  }

  function Digits(s: seq<byte>): (n: nat)
    ensures n <= |s|
  {
    if s == [] || !(0x30 <= s[0] < 0x3A) then 0 else 1 + Digits(s[1..])
  }

  function ReadDoc(s: seq<byte>): (r: Option<(Doc, seq<byte>)>)
    ensures r.Some? ==> |r.value.1| < |s|
    decreases |s|, 0
  {
    if s == [] then None
    else if TRUE <= s then Some((Bool(true), s[4..]))
    else if FALSE <= s then Some((Bool(false), s[5..]))
    else if 0x30 <= s[0] < 0x3A then
      var value := DecimalValue(s[..Digits(s)]);
      if value < 0 then None else Some((Num(value), s[Digits(s)..]))
    else if s[0] == 0x22 then
      match ReadString(s[1..]) case None => None case Some((t, rest)) => Some((Str(t), rest))
    else if s[0] == 0x5B then
      if |s| >= 2 && s[1] == 0x5D then Some((Arr([]), s[2..]))
      else match ReadItems(s[1..]) case None => None case Some((items, rest)) => Some((Arr(items), rest))
    else if s[0] == 0x7B then
      if |s| >= 2 && s[1] == 0x7D then Some((Obj([]), s[2..]))
      else match ReadMembers(s[1..]) case None => None case Some((members, rest)) => Some((Obj(members), rest))
    else None
  }

  /** Items up to the closing bracket. */
  function ReadItems(s: seq<byte>): (r: Option<(seq<Doc>, seq<byte>)>)
    ensures r.Some? ==> |r.value.1| < |s|
    decreases |s|, 1
  {
    match ReadDoc(s)
    case None => None
    case Some((d, rest)) =>
      if rest == [] then None
      else if rest[0] == 0x5D then Some(([d], rest[1..]))
      else if rest[0] != 0x2C then None
      else match ReadItems(rest[1..]) case None => None case Some((more, end)) => Some(([d] + more, end))
  }

  function ReadMember(s: seq<byte>): (r: Option<((Utf8.Text, Doc), seq<byte>)>)
    ensures r.Some? ==> |r.value.1| < |s|
    decreases |s|, 1
  {
    if s == [] || s[0] != 0x22 then None
    else match ReadString(s[1..])
      case None => None
      case Some((key, rest)) =>
        if rest == [] || rest[0] != 0x3A then None
        else match ReadDoc(rest[1..]) case None => None case Some((d, end)) => Some(((key, d), end))
  }

  function ReadMembers(s: seq<byte>): (r: Option<(seq<(Utf8.Text, Doc)>, seq<byte>)>)
    ensures r.Some? ==> |r.value.1| < |s|
    decreases |s|, 2
  {
    match ReadMember(s)
    case None => None
    case Some((m, rest)) =>
      if rest == [] then None
      else if rest[0] == 0x7D then Some(([m], rest[1..]))
      else if rest[0] != 0x2C then None
      else match ReadMembers(rest[1..]) case None => None case Some((more, end)) => Some(([m] + more, end))
  }

  // ---- reading what was written ----

  lemma FirstBytes(c: Utf8.Scalar)
    requires c >= 0x20 && c != 0x22 && c != 0x5C
    ensures var e := Utf8.EncodeScalar(c); e[0] >= 0x20 && e[0] != 0x22 && e[0] != 0x5C
  {
  }

  lemma ScalarReturns(c: Utf8.Scalar, rest: seq<byte>)
    ensures ReadScalar(WriteScalar(c) + rest) == Some((c, |WriteScalar(c)|))
    ensures WriteScalar(c)[0] != 0x22
  {
    var w := WriteScalar(c);
    var s := w + rest;
    assert forall i :: 0 <= i < |w| ==> s[i] == w[i];
    if c >= 0x20 && c != 0x22 && c != 0x5C {
      FirstBytes(c);
      Utf8.DecodesFirst(c, rest);
    } else if c < 0x20 {
      assert Unhex(Hex(c / 16)) == Some(c / 16) && Unhex(Hex(c % 16)) == Some(c % 16);
    }
  }

  lemma {:induction false} StringReturns(t: Utf8.Text, rest: seq<byte>)
    ensures ReadString(WriteScalars(t) + [0x22] + rest) == Some((t, rest))
  {
    var s := WriteScalars(t) + [0x22] + rest;
    if t == [] {
      assert s == [0x22] + rest;
    } else {
      var tail := WriteScalars(t[1..]) + [0x22] + rest;
      ScalarReturns(t[0], tail);
      assert s == WriteScalar(t[0]) + tail;
      assert s[0] == WriteScalar(t[0])[0];
      assert s[|WriteScalar(t[0])|..] == tail;
      StringReturns(t[1..], rest);
      assert t == [t[0]] + t[1..];
    }
  }

  /** What may follow a number. */
  predicate Stops(rest: seq<byte>) { rest == [] || !(0x30 <= rest[0] < 0x3A) }

  lemma {:induction false} DigitsEnd(t: seq<byte>, rest: seq<byte>)
    requires (forall i :: 0 <= i < |t| ==> 0x30 <= t[i] < 0x3A) && Stops(rest)
    ensures Digits(t + rest) == |t|
  {
    if t == [] {
      assert t + rest == rest;
    } else {
      assert (t + rest)[1..] == t[1..] + rest;
      DigitsEnd(t[1..], rest);
    }
  }

  lemma NumberReturns(n: nat, rest: seq<byte>)
    requires Stops(rest)
    ensures ReadDoc(Write(Num(n)) + rest) == Some((Num(n), rest))
  {
    var t: seq<byte> := Decimal(n);
    var s := t + rest;
    DigitsEnd(t, rest);
    DecimalReads(n);
    assert s[..|t|] == t && s[|t|..] == rest && s[0] == t[0];
  }

  lemma TextReturns(t: Utf8.Text, rest: seq<byte>)
    ensures ReadDoc(Write(Str(t)) + rest) == Some((Str(t), rest))
  {
    var s := Quote(t) + rest;
    assert s[0] == 0x22 && s[1..] == WriteScalars(t) + [0x22] + rest;
    StringReturns(t, rest);
  }

  lemma BoolReturns(b: bool, rest: seq<byte>)
    ensures ReadDoc(Write(Bool(b)) + rest) == Some((Bool(b), rest))
  {
    var s := Write(Bool(b)) + rest;
    if b {
      assert s[..4] == TRUE && s[4..] == rest;
    } else {
      assert s[..5] == FALSE && s[5..] == rest && s[0] == 0x66;
    }
  }

  /** No text starts like the end of a list. */
  lemma StartsItself(d: Doc)
    ensures Write(d) != [] && Write(d)[0] != 0x5D && Write(d)[0] != 0x7D
  {
    match d
    case Num(n) => assert 0x30 <= Decimal(n)[0] < 0x3A;
    case _ =>
  }

  /** Written text is read back, whatever follows it. */
  lemma {:induction false} DocReturns(d: Doc, rest: seq<byte>)
    requires Stops(rest)
    ensures ReadDoc(Write(d) + rest) == Some((d, rest))
    decreases d, 1
  {
    match d
    case Bool(b) => BoolReturns(b, rest);
    case Num(n) => NumberReturns(n, rest);
    case Str(t) => TextReturns(t, rest);
    case Arr(items) =>
      if items != [] { ItemsReturn(items, rest); }
      ArrayReturns(items, rest);
    case Obj(members) =>
      if members != [] { MembersReturn(members, rest); }
      ObjectReturns(members, rest);
  }

  lemma ArrayReturns(items: seq<Doc>, rest: seq<byte>)
    requires items == [] || ReadItems(WriteItems(items) + [0x5D] + rest) == Some((items, rest))
    ensures ReadDoc(Write(Arr(items)) + rest) == Some((Arr(items), rest))
  {
    if items == [] {
      assert WriteItems(items) == [];
      assert Write(Arr(items)) + rest == [0x5B, 0x5D] + rest;
    } else {
      ArrayOpens(items, rest);
    }
  }

  lemma ObjectReturns(members: seq<(Utf8.Text, Doc)>, rest: seq<byte>)
    requires members == [] || ReadMembers(WriteMembers(members) + [0x7D] + rest) == Some((members, rest))
    ensures ReadDoc(Write(Obj(members)) + rest) == Some((Obj(members), rest))
  {
    if members == [] {
      assert WriteMembers(members) == [];
      assert Write(Obj(members)) + rest == [0x7B, 0x7D] + rest;
    } else {
      ObjectOpens(members, rest);
    }
  }

  lemma ArrayOpens(items: seq<Doc>, rest: seq<byte>)
    requires items != []
    ensures var s := Write(Arr(items)) + rest;
            |s| >= 2 && s[0] == 0x5B && s[1] != 0x5D && s[1..] == WriteItems(items) + [0x5D] + rest
  {
    StartsItself(items[0]);
    var s := Write(Arr(items)) + rest;
    assert s[1..] == WriteItems(items) + [0x5D] + rest;
    assert s[1] == WriteItems(items)[0] == Write(items[0])[0];
  }

  lemma ObjectOpens(members: seq<(Utf8.Text, Doc)>, rest: seq<byte>)
    requires members != []
    ensures var s := Write(Obj(members)) + rest;
            |s| >= 2 && s[0] == 0x7B && s[1] != 0x7D && s[1..] == WriteMembers(members) + [0x7D] + rest
  {
    var s := Write(Obj(members)) + rest;
    assert s[1..] == WriteMembers(members) + [0x7D] + rest;
    assert s[1] == WriteMembers(members)[0] == WriteMember(members[0])[0] == Quote(members[0].0)[0] == 0x22;
  }

  lemma LastItem(s: seq<byte>, d: Doc, rest: seq<byte>)
    requires ReadDoc(s) == Some((d, [0x5D] + rest))
    ensures ReadItems(s) == Some(([d], rest))
  {
    assert ([0x5D] + rest)[1..] == rest;
  }

  lemma NextItem(s: seq<byte>, d: Doc, tail: seq<byte>, more: seq<Doc>, end: seq<byte>)
    requires ReadDoc(s) == Some((d, [0x2C] + tail)) && ReadItems(tail) == Some((more, end))
    ensures ReadItems(s) == Some(([d] + more, end))
  {
    assert ([0x2C] + tail)[1..] == tail;
  }

  lemma ItemsSplit(first: seq<byte>, more: seq<byte>, rest: seq<byte>)
    ensures first + [0x2C] + more + [0x5D] + rest == first + ([0x2C] + (more + [0x5D] + rest))
    ensures first + [0x5D] + rest == first + ([0x5D] + rest)
  {
  }

  lemma {:induction false} ItemsReturn(items: seq<Doc>, rest: seq<byte>)
    requires items != []
    ensures ReadItems(WriteItems(items) + [0x5D] + rest) == Some((items, rest))
    decreases items, 0
  {
    var s := WriteItems(items) + [0x5D] + rest;
    ItemsSplit(Write(items[0]), WriteItems(items[1..]), rest);
    if |items| == 1 {
      DocReturns(items[0], [0x5D] + rest);
      LastItem(s, items[0], rest);
      assert items == [items[0]];
    } else {
      var tail := WriteItems(items[1..]) + [0x5D] + rest;
      DocReturns(items[0], [0x2C] + tail);
      ItemsReturn(items[1..], rest);
      NextItem(s, items[0], tail, items[1..], rest);
      Uncons(items);
    }
  }

  lemma {:induction false} MemberReturns(m: (Utf8.Text, Doc), rest: seq<byte>)
    requires Stops(rest)
    ensures ReadMember(WriteMember(m) + rest) == Some((m, rest))
    decreases m, 2
  {
    var tail := [0x3A] + (Write(m.1) + rest);
    MemberSplit(m, rest);
    StringReturns(m.0, tail);
    DocReturns(m.1, rest);
    ValueRead(WriteMember(m) + rest, m, tail, rest);
  }

  lemma MemberSplit(m: (Utf8.Text, Doc), rest: seq<byte>)
    ensures WriteMember(m) + rest == [0x22] + (WriteScalars(m.0) + [0x22] + ([0x3A] + (Write(m.1) + rest)))
  {
  }

  lemma ValueRead(s: seq<byte>, m: (Utf8.Text, Doc), tail: seq<byte>, rest: seq<byte>)
    requires s == [0x22] + (WriteScalars(m.0) + [0x22] + tail) && tail == [0x3A] + (Write(m.1) + rest)
    requires ReadString(WriteScalars(m.0) + [0x22] + tail) == Some((m.0, tail))
    requires ReadDoc(Write(m.1) + rest) == Some((m.1, rest))
    ensures ReadMember(s) == Some((m, rest))
  {
    assert s[1..] == WriteScalars(m.0) + [0x22] + tail;
    assert tail[1..] == Write(m.1) + rest;
  }

  lemma LastMember(s: seq<byte>, m: (Utf8.Text, Doc), rest: seq<byte>)
    requires ReadMember(s) == Some((m, [0x7D] + rest))
    ensures ReadMembers(s) == Some(([m], rest))
  {
    assert ([0x7D] + rest)[1..] == rest;
  }

  lemma NextMember(s: seq<byte>, m: (Utf8.Text, Doc), tail: seq<byte>, more: seq<(Utf8.Text, Doc)>, end: seq<byte>)
    requires ReadMember(s) == Some((m, [0x2C] + tail)) && ReadMembers(tail) == Some((more, end))
    ensures ReadMembers(s) == Some(([m] + more, end))
  {
    assert ([0x2C] + tail)[1..] == tail;
  }

  lemma MembersSplit(first: seq<byte>, more: seq<byte>, rest: seq<byte>)
    ensures first + [0x2C] + more + [0x7D] + rest == first + ([0x2C] + (more + [0x7D] + rest))
  {
  }

  lemma {:induction false} MembersReturn(members: seq<(Utf8.Text, Doc)>, rest: seq<byte>)
    requires members != []
    ensures ReadMembers(WriteMembers(members) + [0x7D] + rest) == Some((members, rest))
    decreases members, 0
  {
    var s := WriteMembers(members) + [0x7D] + rest;
    if |members| == 1 {
      assert s == WriteMember(members[0]) + ([0x7D] + rest);
      MemberReturns(members[0], [0x7D] + rest);
      LastMember(s, members[0], rest);
      assert members == [members[0]];
    } else {
      var tail := WriteMembers(members[1..]) + [0x7D] + rest;
      MembersSplit(WriteMember(members[0]), WriteMembers(members[1..]), rest);
      MemberReturns(members[0], [0x2C] + tail);
      MembersReturn(members[1..], rest);
      NextMember(s, members[0], tail, members[1..], rest);
      Uncons(members);
    }
  }

  /** Different documents are written differently. */
  lemma WriteInjective(d: Doc, e: Doc)
    requires Write(d) == Write(e)
    ensures d == e
  {
    DocReturns(d, []);
    DocReturns(e, []);
    assert Write(d) + [] == Write(d);
  }

  /** `serializeString`, code point by code point. */
  method SerializeString(t: Utf8.Text) returns (bytes: seq<byte>)
    ensures bytes == Quote(t)
  {
    var chunks: seq<byte> := [0x22];
    for i := 0 to |t|
      invariant chunks == [0x22] + WriteScalars(t[..i])
    {
      WriteOneMore(t[..i], t[i]);
      assert t[..i + 1] == t[..i] + [t[i]];
      chunks := chunks + WriteScalar(t[i]);
    }
    assert t[..|t|] == t;
    return chunks + [0x22];
  }

  lemma {:induction false} WriteOneMore(t: Utf8.Text, c: Utf8.Scalar)
    ensures WriteScalars(t + [c]) == WriteScalars(t) + WriteScalar(c)
  {
    if t == [] {
      assert [c][1..] == [] && t + [c] == [c];
    } else {
      TailOneMore(t, c);
      WriteOneMore(t[1..], c);
    }
  }

  lemma {:induction false} ItemsOneMore(items: seq<Doc>, d: Doc)
    ensures WriteItems(items + [d]) == WriteItems(items) + (if items == [] then [] else [0x2C]) + Write(d)
  {
    if items == [] {
      assert items + [d] == [d];
    } else {
      TailOneMore(items, d);
      ItemsOneMore(items[1..], d);
      if |items| == 1 { assert items[1..] == [] && WriteItems([d]) == Write(d); }
    }
  }

  lemma {:induction false} MembersOneMore(members: seq<(Utf8.Text, Doc)>, m: (Utf8.Text, Doc))
    ensures WriteMembers(members + [m]) == WriteMembers(members) + (if members == [] then [] else [0x2C]) + WriteMember(m)
  {
    if members == [] {
      assert members + [m] == [m];
    } else {
      TailOneMore(members, m);
      MembersOneMore(members[1..], m);
      if |members| == 1 { assert members[1..] == [] && WriteMembers([m]) == WriteMember(m); }
    }
  }

  /** The parts of `serializeCanonicalJson`, pushed one after the other. */
  method SerializeDoc(d: Doc) returns (bytes: seq<byte>)
    ensures bytes == Write(d)
    decreases d
  {
    match d {
      case Bool(b) => return if b then TRUE else FALSE;
      case Num(n) => return Decimal(n);
      case Str(t) => bytes := SerializeString(t);
      case Arr(items) =>
        var parts: seq<byte> := [];
        for i := 0 to |items|
          invariant parts == WriteItems(items[..i])
        {
          ItemsOneMore(items[..i], items[i]);
          assert items[..i + 1] == items[..i] + [items[i]];
          if i > 0 { parts := parts + [0x2C]; }
          var part := SerializeDoc(items[i]);
          parts := parts + part;
        }
        assert items[..|items|] == items;
        return [0x5B] + parts + [0x5D];
      case Obj(members) =>
        var parts: seq<byte> := [];
        for i := 0 to |members|
          invariant parts == WriteMembers(members[..i])
        {
          MembersOneMore(members[..i], members[i]);
          assert members[..i + 1] == members[..i] + [members[i]];
          if i > 0 { parts := parts + [0x2C]; }
          var key := SerializeString(members[i].0);
          var part := SerializeDoc(members[i].1);
          parts := parts + (key + [0x3A] + part);
        }
        assert members[..|members|] == members;
        return [0x7B] + parts + [0x7D];
    }
  }
}
