/** What canonical JSON looks like: its characters, its numbers and its punctuation. */
module JsonMeaning {
  import opened Common
  import opened Bytes
  import opened Decimals
  import opened Sequences
  import opened CanonicalJson
  import Utf8

  /** A code point between the quotes: only quotes, backslashes and control characters
      are escaped, those with a letter of their own by it. */
  ghost predicate ScalarText(s: seq<byte>, c: Utf8.Scalar) {
    if c == '\"' as int then s == Ascii("\\\"")
    else if c == '\\' as int then s == Ascii("\\\\")
    else if c == 8 then s == Ascii("\\b")
    else if c == 9 then s == Ascii("\\t")
    else if c == 10 then s == Ascii("\\n")
    else if c == 12 then s == Ascii("\\f")
    else if c == 13 then s == Ascii("\\r")
    else if c < ' ' as int then s == Ascii("\\u00") + [HexDigit(c / 16), HexDigit(c % 16)]
    else s == Utf8.EncodeScalar(c)
  }

  function HexDigit(d: int): (h: byte)
    requires 0 <= d < 16
  {
    if d < 10 then '0' as int + d else 'a' as int + (d - 10)
  }

  lemma ScalarSays(c: Utf8.Scalar)
    ensures ScalarText(WriteScalar(c), c)
  {
  }

  /** The parts, one after the other, `between` each two. */
  function Joined(parts: seq<seq<byte>>, between: seq<byte>): seq<byte>
    decreases |parts|
  {
    if parts == [] then []
    else if |parts| == 1 then parts[0]
    else Joined(parts[..|parts| - 1], between) + between + parts[|parts| - 1]
  }

  ghost predicate Joins(s: seq<byte>, parts: seq<seq<byte>>, between: seq<byte>) { s == Joined(parts, between) }

  lemma {:induction false} JoinsMore(u: seq<byte>, parts: seq<seq<byte>>, between: seq<byte>, x: seq<byte>)
    requires Joins(u, parts, between)
    ensures Joins(u + (if parts == [] then [] else between) + x, parts + [x], between)
  {
    var all := parts + [x];
    assert all[..|all| - 1] == parts && all[|all| - 1] == x;
    if parts == [] { assert [] + [] + x == x; }
  }

  ghost predicate StringText(s: seq<byte>, t: Utf8.Text) {
    exists body, parts :: s == Ascii("\"") + body + Ascii("\"") && Joins(body, parts, []) && Spelled(parts, t)
  }

  ghost predicate Spelled(parts: seq<seq<byte>>, t: Utf8.Text) {
    |parts| == |t| && forall i :: 0 <= i < |t| ==> ScalarText(parts[i], t[i])
  }

  lemma {:induction false} ScalarsJoin(t: Utf8.Text) returns (parts: seq<seq<byte>>)
    ensures Joins(WriteScalars(t), parts, []) && Spelled(parts, t)
    decreases |t|
  {
    if t == [] {
      parts := [];
    } else {
      var before, c := t[..|t| - 1], t[|t| - 1];
      var first := ScalarsJoin(before);
      parts := first + [WriteScalar(c)];
      assert t == before + [c];
      WriteOneMore(before, c);
      JoinsMore(WriteScalars(before), first, [], WriteScalar(c));
      assert WriteScalars(before) + [] == WriteScalars(before);
      ScalarSays(c);
    }
  }

  lemma StringSays(t: Utf8.Text)
    ensures StringText(Quote(t), t)
  {
    var parts := ScalarsJoin(t);
    assert Ascii("\"") == [0x22];
    assert Quote(t) == Ascii("\"") + WriteScalars(t) + Ascii("\"");
  }

  /** Digits that denote the number, none of them a zero in front. */
  ghost predicate NumberText(s: seq<byte>, n: nat) {
    && s != [] && (forall i :: 0 <= i < |s| ==> '0' as int <= s[i] <= '9' as int)
    && (|s| > 1 ==> s[0] != '0' as int) && DecimalValue(s) == n
  }

  lemma {:induction false} NumberSays(n: nat)
    ensures NumberText(Decimal(n), n) && (n > 0 ==> Decimal(n)[0] != '0' as int)
  {
    DecimalReads(n);
    if n >= 10 { NumberSays(n / 10); }
  }

  /** The text of a document: no space anywhere, commas between items, a colon behind
      each key. */
  ghost predicate Text(s: seq<byte>, d: Doc)
    decreases d, 1
  {
    match d
    case Bool(b) => s == Ascii(if b then "true" else "false")
    case Num(n) => NumberText(s, n)
    case Str(t) => StringText(s, t)
    case Arr(items) =>
      exists body, parts :: s == Ascii("[") + body + Ascii("]") && Joins(body, parts, Ascii(",")) && ItemTexts(parts, items)
    case Obj(members) =>
      exists body, parts :: s == Ascii("{") + body + Ascii("}") && Joins(body, parts, Ascii(",")) && MemberTexts(parts, members)
  }

  ghost predicate ItemTexts(parts: seq<seq<byte>>, items: seq<Doc>)
    decreases items, 0
  {
    |parts| == |items| && forall i :: 0 <= i < |items| ==> Text(parts[i], items[i])
  }

  ghost predicate MemberTexts(parts: seq<seq<byte>>, members: seq<(Utf8.Text, Doc)>)
    decreases members, 0
  {
    |parts| == |members| && forall i :: 0 <= i < |members| ==> MemberText(parts[i], members[i])
  }

  ghost predicate MemberText(s: seq<byte>, m: (Utf8.Text, Doc))
    decreases m, 2
  {
    exists key, value :: s == key + Ascii(":") + value && StringText(key, m.0) && Text(value, m.1)
  }

  /** What is written is the text of the document. */
  lemma {:induction false} WriteSays(d: Doc)
    ensures Text(Write(d), d)
    decreases d, 1
  {
    match d
    case Bool(_) =>
    case Num(n) => NumberSays(n);
    case Str(t) => StringSays(t);
    case Arr(items) =>
      var parts := ItemsJoin(items, items);
      assert Write(d) == Ascii("[") + WriteItems(items) + Ascii("]");
    case Obj(members) =>
      var parts := MembersJoin(members, members);
      assert Write(d) == Ascii("{") + WriteMembers(members) + Ascii("}");
  }

  lemma ItemAdded(parts: seq<seq<byte>>, items: seq<Doc>, d: Doc)
    requires Joins(WriteItems(items), parts, Ascii(",")) && ItemTexts(parts, items) && Text(Write(d), d)
    ensures Joins(WriteItems(items + [d]), parts + [Write(d)], Ascii(",")) && ItemTexts(parts + [Write(d)], items + [d])
  {
    assert Ascii(",") == [0x2C];
    ItemsOneMore(items, d);
    JoinsMore(WriteItems(items), parts, Ascii(","), Write(d));
  }

  lemma MemberAdded(parts: seq<seq<byte>>, members: seq<(Utf8.Text, Doc)>, m: (Utf8.Text, Doc))
    requires Joins(WriteMembers(members), parts, Ascii(",")) && MemberTexts(parts, members) && MemberText(WriteMember(m), m)
    ensures Joins(WriteMembers(members + [m]), parts + [WriteMember(m)], Ascii(","))
    ensures MemberTexts(parts + [WriteMember(m)], members + [m])
  {
    assert Ascii(",") == [0x2C];
    MembersOneMore(members, m);
    JoinsMore(WriteMembers(members), parts, Ascii(","), WriteMember(m));
  }

  lemma {:induction false} ItemsJoin(items: seq<Doc>, all: seq<Doc>) returns (parts: seq<seq<byte>>)
    requires items <= all
    ensures Joins(WriteItems(items), parts, Ascii(",")) && ItemTexts(parts, items)
    decreases all, 0, |items|
  {
    if items == [] {
      parts := [];
    } else {
      var before, d := items[..|items| - 1], items[|items| - 1];
      var first := ItemsJoin(before, all);
      parts := first + [Write(d)];
      assert items == before + [d] && d == all[|items| - 1];
      WriteSays(d);
      ItemAdded(first, before, d);
    }
  }

  lemma {:induction false} MemberSays(m: (Utf8.Text, Doc))
    ensures MemberText(WriteMember(m), m)
    decreases m, 2
  {
    StringSays(m.0);
    WriteSays(m.1);
    assert WriteMember(m) == Quote(m.0) + Ascii(":") + Write(m.1);
  }

  lemma {:induction false} MembersJoin(members: seq<(Utf8.Text, Doc)>, all: seq<(Utf8.Text, Doc)>) returns (parts: seq<seq<byte>>)
    requires members <= all
    ensures Joins(WriteMembers(members), parts, Ascii(",")) && MemberTexts(parts, members)
    decreases all, 0, |members|
  {
    if members == [] {
      parts := [];
    } else {
      var before, m := members[..|members| - 1], members[|members| - 1];
      var first := MembersJoin(before, all);
      parts := first + [WriteMember(m)];
      assert members == before + [m] && m == all[|members| - 1];
      MemberSays(m);
      MemberAdded(first, before, m);
    }
  }
}
