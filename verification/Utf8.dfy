/** Unicode text as scalar values, and its UTF-8 encoding (section 3 of RFC 3629). */
module Utf8 {
  import opened Common
  import opened Bytes
  import opened Sequences

  type Scalar = c: int | 0 <= c < 0xD800 || 0xE000 <= c < 0x110000

  type Text = seq<Scalar>

  function EncodeScalar(c: Scalar): (s: seq<byte>)
    ensures 1 <= |s| <= 4
  {
    if c < 0x80 then [c]
    else if c < 0x800 then [0xC0 + c / 0x40, 0x80 + c % 0x40]
    else if c < 0x1_0000 then [0xE0 + c / 0x1000, 0x80 + c / 0x40 % 0x40, 0x80 + c % 0x40]
    else [0xF0 + c / 0x4_0000, 0x80 + c / 0x1000 % 0x40, 0x80 + c / 0x40 % 0x40, 0x80 + c % 0x40]
  }

  function Encode(t: Text): seq<byte> {
    if t == [] then [] else EncodeScalar(t[0]) + Encode(t[1..])
  }

  predicate Continuation(b: byte) { 0x80 <= b < 0xC0 }

  function Join2(a: int, b: int): int { (a - 0xC0) * 0x40 + (b - 0x80) }
  function Join3(a: int, b: int, c: int): int { (a - 0xE0) * 0x1000 + (b - 0x80) * 0x40 + (c - 0x80) }
  function Join4(a: int, b: int, c: int, d: int): int {
    (a - 0xF0) * 0x4_0000 + (b - 0x80) * 0x1000 + (c - 0x80) * 0x40 + (d - 0x80)
  }

  /** The first scalar of `s` and its length in bytes; overlong forms, surrogates
      and values past U+10FFFF are refused. */
  function DecodeFirst(s: seq<byte>): (r: Option<(Scalar, nat)>)
    ensures r.Some? ==> 1 <= r.value.1 <= |s|
  {
    if s == [] then None
    else if s[0] < 0x80 then Some((s[0], 1))
    else if 0xC2 <= s[0] < 0xE0 && |s| >= 2 && Continuation(s[1]) then Some((Join2(s[0], s[1]), 2))
    else if 0xE0 <= s[0] < 0xF0 && |s| >= 3 && Continuation(s[1]) && Continuation(s[2]) then
      var c := Join3(s[0], s[1], s[2]);
      if c < 0x800 || 0xD800 <= c < 0xE000 then None else Some((c, 3))
    else if 0xF0 <= s[0] < 0xF5 && |s| >= 4 && Continuation(s[1]) && Continuation(s[2]) && Continuation(s[3]) then
      var c := Join4(s[0], s[1], s[2], s[3]);
      if c < 0x1_0000 || c >= 0x11_0000 then None else Some((c, 4))
    else None
  }

  function Decode(s: seq<byte>): Option<Text>
    decreases |s|
  {
    if s == [] then Some([])
    else match DecodeFirst(s)
      case None => None
      case Some((c, n)) =>
        match Decode(s[n..])
        case None => None
        case Some(t) => Some([c] + t)
  }

  lemma Split(c: int)
    requires c >= 0
    ensures c / 0x40 * 0x40 + c % 0x40 == c
    ensures c / 0x1000 * 0x1000 + c / 0x40 % 0x40 * 0x40 + c % 0x40 == c
    ensures c / 0x4_0000 * 0x4_0000 + c / 0x1000 % 0x40 * 0x1000 + c / 0x40 % 0x40 * 0x40 + c % 0x40 == c
  {
    assert c / 0x1000 == c / 0x40 / 0x40;
    assert c / 0x4_0000 == c / 0x1000 / 0x40;
  }

  lemma DecodesFirst(c: Scalar, rest: seq<byte>)
    ensures DecodeFirst(EncodeScalar(c) + rest) == Some((c, |EncodeScalar(c)|))
  {
    Split(c);
    var e := EncodeScalar(c);
    var s := e + rest;
    assert forall i :: 0 <= i < |e| ==> s[i] == e[i];
    if 0x80 <= c < 0x800 {
      assert Join2(e[0], e[1]) == c;
    } else if 0x800 <= c < 0x1_0000 {
      assert Join3(e[0], e[1], e[2]) == c;
    } else if 0x1_0000 <= c {
      assert Join4(e[0], e[1], e[2], e[3]) == c;
    }
  }

  lemma Join2Splits(a: byte, b: byte)
    requires 0xC2 <= a < 0xE0 && Continuation(b)
    ensures EncodeScalar(Join2(a, b)) == [a, b]
  {
  }

  lemma Join3Splits(a: byte, b: byte, c: byte)
    requires 0xE0 <= a < 0xF0 && Continuation(b) && Continuation(c)
    requires var v := Join3(a, b, c); v >= 0x800 && !(0xD800 <= v < 0xE000)
    ensures EncodeScalar(Join3(a, b, c)) == [a, b, c]
  {
    var v := Join3(a, b, c);
    assert v / 0x40 == (a - 0xE0) * 0x40 + (b - 0x80);
    assert v / 0x1000 == v / 0x40 / 0x40;
  }

  lemma Join4Splits(a: byte, b: byte, c: byte, d: byte)
    requires 0xF0 <= a < 0xF5 && Continuation(b) && Continuation(c) && Continuation(d)
    requires 0x1_0000 <= Join4(a, b, c, d) < 0x11_0000
    ensures EncodeScalar(Join4(a, b, c, d)) == [a, b, c, d]
  {
    var v := Join4(a, b, c, d);
    assert v / 0x40 == (a - 0xF0) * 0x1000 + (b - 0x80) * 0x40 + (c - 0x80);
    assert v / 0x1000 == v / 0x40 / 0x40 == (a - 0xF0) * 0x40 + (b - 0x80);
    assert v / 0x4_0000 == v / 0x1000 / 0x40;
  }

  lemma EncodesFirst(s: seq<byte>)
    requires DecodeFirst(s).Some?
    ensures var (c, n) := DecodeFirst(s).value; s[..n] == EncodeScalar(c)
  {
    if s[0] < 0x80 {
    } else if s[0] < 0xE0 {
      Join2Splits(s[0], s[1]);
    } else if s[0] < 0xF0 {
      Join3Splits(s[0], s[1], s[2]);
    } else {
      Join4Splits(s[0], s[1], s[2], s[3]);
    }
  }

  /** Encoded text decodes to itself. */
  lemma {:induction false} DecodeEncode(t: Text)
    ensures Decode(Encode(t)) == Some(t)
  {
    if t != [] {
      DecodesFirst(t[0], Encode(t[1..]));
      DecodeEncode(t[1..]);
      assert Encode(t)[|EncodeScalar(t[0])|..] == Encode(t[1..]);
      assert t == [t[0]] + t[1..];
    }
  }

  /** Accepted bytes are the encoding of what they decode to. */
  lemma {:induction false} EncodeDecode(s: seq<byte>)
    requires Decode(s).Some?
    ensures Encode(Decode(s).value) == s
    decreases |s|
  {
    if s != [] {
      var (c, n) := DecodeFirst(s).value;
      EncodesFirst(s);
      EncodeDecode(s[n..]);
      var rest := Decode(s[n..]).value;
      ConsTail(c, rest);
      TakeDrop(s, n);
    }
  }

  lemma EncodeInjective(a: Text, b: Text)
    requires Encode(a) == Encode(b)
    ensures a == b
  {
    DecodeEncode(a);
    DecodeEncode(b);
  }

  lemma {:induction false} EncodeAppend(a: Text, b: Text)
    ensures Encode(a + b) == Encode(a) + Encode(b)
  {
    if a == [] {
      assert a + b == b;
    } else {
      EncodeAppend(a[1..], b);
      assert (a + b)[1..] == a[1..] + b && (a + b)[0] == a[0];
      Associate(EncodeScalar(a[0]), Encode(a[1..]), Encode(b));
    }
  }

  predicate IsAscii(t: Text) {
    forall i :: 0 <= i < |t| ==> t[i] < 0x80
  }

  lemma {:induction false} AsciiEncodes(t: Text)
    requires IsAscii(t)
    ensures |Encode(t)| == |t| && Encode(t) == t
  {
    if t != [] { AsciiEncodes(t[1..]); }
  }
}
