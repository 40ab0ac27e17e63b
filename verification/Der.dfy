/** P-256 signatures between the fixed 64-byte form and DER (section 8.3 of ITU-T
    X.690, section 2.2.3 of RFC 3279), as the conversions run on JavaScript numbers. */
module Der {
  import opened Common
  import opened Bytes
  import Sequences

  const ORDER: nat := 0xFFFF_FFFF_0000_0000_FFFF_FFFF_FFFF_FFFF_BCE6_FAAD_A717_9E84_F3B9_CAC2_FC63_2551

  datatype DerError = BadSignature | BadSequence | SequenceLength | BadR | BadS | TooLong

  predicate InRange(n: nat) { 1 <= n < ORDER }

  /** `assertValidP1363`. */
  predicate ValidP1363(x: seq<byte>) {
    |x| == 64 && InRange(FromBigEndian(x[..32])) && InRange(FromBigEndian(x[32..]))
  }

  // ---- encoding ----

  /** Without leading zero bytes, but for the last byte. */
  function Stripped(v: seq<byte>): (s: seq<byte>)
    requires v != []
    ensures s != [] && |s| <= |v| && (|s| > 1 ==> s[0] != 0)
  {
    if |v| > 1 && v[0] == 0 then Stripped(v[1..]) else v
  }

  /** The content octets: a zero byte in front keeps the integer positive. */
  function Content(v: seq<byte>): (c: seq<byte>)
    requires v != []
    ensures 1 <= |c| <= |v| + 1
  {
    var s := Stripped(v);
    if s[0] >= 0x80 then [0] + s else s
  }

  function EncodeInteger(v: seq<byte>): seq<byte>
    requires 1 <= |v| <= 32
  {
    [0x02, |Content(v)|] + Content(v)
  }

  function P1363ToDer(x: seq<byte>): Result<seq<byte>, DerError> {
    if !ValidP1363(x) then Err(BadSignature)
    else
      var body := EncodeInteger(x[..32]) + EncodeInteger(x[32..]);
      Ok([0x30, |body|] + body)
  }

  method EncodeIntegerBytes(value: seq<byte>) returns (encoded: seq<byte>)
    requires 1 <= |value| <= 32
    ensures encoded == EncodeInteger(value)
  {
    var start := 0;
    while start < |value| - 1 && value[start] == 0
      invariant start < |value|
      invariant Stripped(value[start..]) == Stripped(value)
    {
      assert value[start..][1..] == value[start + 1..];
      start := start + 1;
    }
    var integer := value[start..];
    if integer[0] >= 0x80 { integer := [0] + integer; }
    return [0x02, |integer|] + integer;
  }

  /** The shortest octets of a non-negative integer (section 8.3.2 of X.690). */
  predicate Minimal(c: seq<byte>) {
    c != [] && c[0] < 0x80 && (|c| > 1 && c[0] == 0 ==> c[1] >= 0x80)
  }

  lemma {:induction false} LeadingZero(s: seq<byte>)
    ensures FromBigEndian([0] + s) == FromBigEndian(s)
  {
    var z := [0 as byte] + s;
    if s == [] {
      assert z[..0] == [];
    } else {
      LeadingZero(s[..|s| - 1]);
      assert z[..|z| - 1] == [0] + s[..|s| - 1];
    }
  }

  lemma {:induction false} LeadingBound(s: seq<byte>)
    requires s != []
    ensures FromBigEndian(s) >= s[0] * Pow256(|s| - 1)
  {
    if |s| == 1 {
      assert s[..0] == [];
    } else {
      LeadingBound(s[..|s| - 1]);
      assert s[0] * Pow256(|s| - 1) == 256 * (s[0] * Pow256(|s| - 2));
    }
  }

  lemma {:induction false} PowGrows(a: nat, b: nat)
    ensures a <= b ==> Pow256(a) <= Pow256(b)
    decreases b
  {
    if a < b { PowGrows(a, b - 1); }
  }

  /** A number with a leading byte other than zero fills its width. */
  lemma NonzeroFills(s: seq<byte>)
    requires s != [] && s[0] != 0
    ensures FromBigEndian(s) >= Pow256(|s| - 1)
  {
    LeadingBound(s);
    Multiple(s[0], Pow256(|s| - 1));
  }

  lemma Multiple(k: nat, p: nat)
    requires k >= 1
    ensures k * p >= p
  {
  }

  lemma {:induction false} StrippedSame(v: seq<byte>)
    requires v != []
    ensures FromBigEndian(Stripped(v)) == FromBigEndian(v)
    ensures v == Zeros(|v| - |Stripped(v)|) + Stripped(v)
  {
    if |v| > 1 && v[0] == 0 {
      StrippedSame(v[1..]);
      LeadingZero(v[1..]);
      assert v == [0] + v[1..];
      assert Zeros(|v| - |Stripped(v)|) == [0] + Zeros(|v| - 1 - |Stripped(v)|);
    }
  }

  function Zeros(n: nat): (z: seq<byte>)
    ensures |z| == n
    ensures forall i :: 0 <= i < n ==> z[i] == 0
  {
    seq(n, _ => 0)
  }

  /** What is written for an integer is minimal and denotes it. */
  lemma ContentDenotes(v: seq<byte>)
    requires v != []
    ensures Minimal(Content(v)) && FromBigEndian(Content(v)) == FromBigEndian(v)
  {
    StrippedSame(v);
    LeadingZero(Stripped(v));
  }

  lemma NonzeroWidth(a: seq<byte>, b: seq<byte>)
    requires a != [] && a[0] != 0
    ensures FromBigEndian(a) == FromBigEndian(b) ==> |a| <= |b|
  {
    NonzeroFills(a);
    PowGrows(|b|, |a| - 1);
  }

  lemma SameWidth(a: seq<byte>, b: seq<byte>)
    requires |a| == |b|
    ensures FromBigEndian(a) == FromBigEndian(b) ==> a == b
  {
    WritesBack(a);
    WritesBack(b);
  }

  /** The magnitude bytes: at most one leading zero byte is dropped. */
  function Unsigned(c: seq<byte>): (u: seq<byte>)
    ensures |u| <= |c|
  {
    if c != [] && c[0] == 0 then c[1..] else c
  }

  lemma UnsignedSame(c: seq<byte>)
    ensures FromBigEndian(Unsigned(c)) == FromBigEndian(c)
  {
    if c != [] && c[0] == 0 {
      LeadingZero(c[1..]);
      assert c == [0] + c[1..];
    }
  }

  /** Two minimal contents of one positive integer are equal. */
  lemma MinimalUnique(a: seq<byte>, b: seq<byte>)
    requires Minimal(a) && Minimal(b) && FromBigEndian(a) == FromBigEndian(b) >= 1
    ensures a == b
  {
    UnsignedSame(a);
    UnsignedSame(b);
    var u, v := Unsigned(a), Unsigned(b);
    assert FromBigEndian([]) == 0;
    NonzeroWidth(u, v);
    NonzeroWidth(v, u);
    SameWidth(u, v);
    assert a == (if a[0] == 0 then [0] else []) + u;
    assert b == (if b[0] == 0 then [0] else []) + v;
  }

  // ---- decoding ----

  /** A length as JavaScript computes it: reading past the end gives NaN. */
  datatype Number = Number(n: nat) | NaN

  function At(b: seq<byte>, i: nat): Option<byte> { if i < |b| then Some(b[i]) else None }

  function Digits(b: seq<byte>, offset: nat, count: nat, length: Number): Number
    decreases count
  {
    if count == 0 then length
    else
      var next := match (length, At(b, offset)) case (Number(n), Some(d)) => Number(n * 256 + d) case _ => NaN;
      Digits(b, offset + 1, count - 1, next)
  }

  /** The length at `offset` and what follows it; a missing length reads as zero. */
  function ReadLength(b: seq<byte>, offset: nat): (Number, nat) {
    match At(b, offset)
    case None => (Number(0), offset + 1)
    case Some(first) =>
      if first < 0x80 then (Number(first), offset + 1)
      else (Digits(b, offset + 1, first - 0x80, Number(0)), offset + 1 + (first - 0x80))
  }

  /** `readDerLength`. */
  method ReadDerLength(b: seq<byte>, offset0: nat) returns (length: Number, offset: nat)
    ensures (length, offset) == ReadLength(b, offset0)
  {
    var first := At(b, offset0);
    offset := offset0 + 1;
    if first.None? { return Number(0), offset; }
    if first.value < 0x80 { return Number(first.value), offset; }
    var count := first.value - 0x80;
    length := Number(0);
    for index := 0 to count
      invariant offset == offset0 + 1 + index
      invariant Digits(b, offset, count - index, length) == Digits(b, offset0 + 1, count, Number(0))
    {
      var digit := At(b, offset);
      length := if length.Number? && digit.Some? then Number(length.n * 256 + digit.value) else NaN;
      offset := offset + 1;
    }
  }

  /** `subarray(start, start + length)`: both ends are clamped to the array. */
  function Sub(b: seq<byte>, start: nat, length: Number): (s: seq<byte>)
    ensures |s| <= |b|
  {
    if length.NaN? || start >= |b| then []
    else if start + length.n >= |b| then b[start..]
    else b[start..start + length.n]
  }

  /** The two integers of a sequence, as far as the decoder checks it. */
  function Integers(der: seq<byte>): Result<(seq<byte>, seq<byte>), DerError> {
    if At(der, 0) != Some(0x30) then Err(BadSequence)
    else
      var (total, start) := ReadLength(der, 1);
      if total.NaN? || start + total.n != |der| then Err(SequenceLength)
      else if At(der, start) != Some(0x02) then Err(BadR)
      else
        var (rLength, rStart) := ReadLength(der, start + 1);
        if rLength.NaN? || At(der, rStart + rLength.n) != Some(0x02) then Err(BadS)
        else
          var (sLength, sStart) := ReadLength(der, rStart + rLength.n + 1);
          Ok((Sub(der, rStart, rLength), Sub(der, sStart, sLength)))
  }

  /** r ends at byte 32 and s at byte 64; s is written last and may reach into r. */
  function Overlay(r: seq<byte>, s: seq<byte>): (x: seq<byte>)
    requires |r| <= 32 && |s| <= 64
    ensures |x| == 64
  {
    (Zeros(32 - |r|) + r + Zeros(32))[..64 - |s|] + s
  }

  function DerToP1363(der: seq<byte>): Result<seq<byte>, DerError> {
    match Integers(der)
    case Err(e) => Err(e)
    case Ok((r, s)) =>
      if |Unsigned(r)| > 32 || |Unsigned(s)| > 64 then Err(TooLong)
      else
        var x := Overlay(Unsigned(r), Unsigned(s));
        if ValidP1363(x) then Ok(x) else Err(BadSignature)
  }

  /** `result.set(bytes, at)`. */
  method Set(result: array<byte>, bytes: seq<byte>, at: nat)
    requires at + |bytes| <= result.Length
    modifies result
    ensures result[..] == old(result[..at]) + bytes + old(result[at + |bytes|..])
  {
    for i := 0 to |bytes|
      invariant result[..] == old(result[..at]) + bytes[..i] + old(result[at + i..])
    {
      result[at + i] := bytes[i];
    }
  }

  /** The result buffer. */
  method Fill(r: seq<byte>, s: seq<byte>) returns (x: seq<byte>)
    requires |r| <= 32 && |s| <= 64
    ensures x == Overlay(r, s)
  {
    var result := new byte[64](_ => 0);
    assert result[..] == Zeros(64);
    Set(result, r, 32 - |r|);
    assert result[..] == Zeros(32 - |r|) + r + Zeros(32);
    Set(result, s, 64 - |s|);
    return result[..];
  }

  /** The checks of `derToP1363` up to its two integers. */
  method ReadIntegers(der: seq<byte>) returns (r: Result<(seq<byte>, seq<byte>), DerError>)
    ensures r == Integers(der)
  {
    ghost var expected := Integers(der);
    if At(der, 0) != Some(0x30) { assert expected == Err(BadSequence); return Err(BadSequence); }
    var total, start := ReadDerLength(der, 1);
    if total.NaN? || start + total.n != |der| { assert expected == Err(SequenceLength); return Err(SequenceLength); }
    if At(der, start) != Some(0x02) { assert expected == Err(BadR); return Err(BadR); }
    var rLength, rStart := ReadDerLength(der, start + 1);
    if rLength.NaN? || At(der, rStart + rLength.n) != Some(0x02) { assert expected == Err(BadS); return Err(BadS); }
    var sLength, sStart := ReadDerLength(der, rStart + rLength.n + 1);
    r := Ok((Sub(der, rStart, rLength), Sub(der, sStart, sLength)));
    assert expected == r;
  }

  /** `derToP1363`. */
  method DerToBuffer(der: seq<byte>) returns (r: Result<seq<byte>, DerError>)
    ensures r == DerToP1363(der)
  {
    var integers := ReadIntegers(der);
    if integers.Err? { return Err(integers.error); }
    var rBytes, sBytes := Unsigned(integers.value.0), Unsigned(integers.value.1);
    if |rBytes| > 32 || |sBytes| > 64 { return Err(TooLong); }
    var result := Fill(rBytes, sBytes);
    if !ValidP1363(result) { return Err(BadSignature); }
    return Ok(result);
  }

  // ---- round trips ----

  /** A sequence of two integers with one-byte lengths, and `tail` after them. */
  function Sequence(r: seq<byte>, s: seq<byte>, tail: seq<byte>): seq<byte>
    requires |r| + |s| + |tail| + 4 < 128
  {
    [0x30, |r| + |s| + |tail| + 4] + [0x02, |r|] + r + [0x02, |s|] + s + tail
  }

  lemma SequenceReads(r: seq<byte>, s: seq<byte>, tail: seq<byte>)
    requires |r| + |s| + |tail| + 4 < 128
    ensures Integers(Sequence(r, s, tail)) == Ok((r, s))
  {
    var der := Sequence(r, s, tail);
    assert der[0] == 0x30 && der[1] == |r| + |s| + |tail| + 4 && der[2] == 0x02 && der[3] == |r|;
    assert der[4..4 + |r|] == r;
    assert der[4 + |r|] == 0x02 && der[5 + |r|] == |s|;
    assert der[6 + |r|..6 + |r| + |s|] == s;
    assert der[6 + |r| + |s|..] == tail;
    if tail == [] { assert der[6 + |r|..] == s; }
    if |r| == 0 { assert Sub(der, 4, Number(0)) == []; }
  }

  lemma EncodedIsSequence(x: seq<byte>)
    requires ValidP1363(x)
    ensures P1363ToDer(x) == Ok(Sequence(Content(x[..32]), Content(x[32..]), []))
  {
    var r, s := Content(x[..32]), Content(x[32..]);
    var n := |r| + |s| + 4;
    assert [0x30, n] + (([0x02, |r|] + r) + ([0x02, |s|] + s)) == [0x30, n] + [0x02, |r|] + r + [0x02, |s|] + s + [];
  }

  lemma ContentUnsigned(v: seq<byte>)
    requires |v| == 32 && FromBigEndian(v) >= 1
    ensures Unsigned(Content(v)) == Stripped(v) && v == Zeros(32 - |Stripped(v)|) + Stripped(v)
  {
    StrippedSame(v);
    OneByte(Stripped(v));
  }

  lemma OneByte(s: seq<byte>)
    ensures |s| == 1 ==> FromBigEndian(s) == s[0]
  {
    assert |s| == 1 ==> s[..0] == [];
  }

  lemma OverlayHalves(r: seq<byte>, s: seq<byte>)
    requires |r| <= 32 && |s| <= 32
    ensures Overlay(r, s) == (Zeros(32 - |r|) + r) + (Zeros(32 - |s|) + s)
  {
  }

  /** Every valid signature survives the way to DER and back, whatever follows the
      two integers inside the sequence. */
  lemma SignatureReturns(x: seq<byte>, tail: seq<byte>)
    requires ValidP1363(x) && |Content(x[..32])| + |Content(x[32..])| + |tail| + 4 < 128
    ensures DerToP1363(Sequence(Content(x[..32]), Content(x[32..]), tail)) == Ok(x)
  {
    SequenceReads(Content(x[..32]), Content(x[32..]), tail);
    ContentUnsigned(x[..32]);
    ContentUnsigned(x[32..]);
    OverlayHalves(Stripped(x[..32]), Stripped(x[32..]));
    assert x == x[..32] + x[32..];
  }

  /** `derToP1363(p1363ToDer(x))` is `x`, and the DER between is canonical. */
  lemma RoundTrip(x: seq<byte>)
    requires ValidP1363(x)
    ensures P1363ToDer(x).Ok? && DerToP1363(P1363ToDer(x).value) == Ok(x)
    ensures CanonicalDer(P1363ToDer(x).value, FromBigEndian(x[..32]), FromBigEndian(x[32..]))
  {
    EncodedIsSequence(x);
    SignatureReturns(x, []);
    ContentDenotes(x[..32]);
    ContentDenotes(x[32..]);
    assert Spells(P1363ToDer(x).value, Content(x[..32]), Content(x[32..]));
  }

  predicate Spells(der: seq<byte>, r: seq<byte>, s: seq<byte>) {
    Minimal(r) && Minimal(s) && |r| <= 33 && |s| <= 33 && der == Sequence(r, s, [])
  }

  /** The distinguished encoding of a pair of integers. */
  ghost predicate CanonicalDer(der: seq<byte>, r: nat, s: nat) {
    exists rBytes, sBytes :: Spells(der, rBytes, sBytes) && FromBigEndian(rBytes) == r && FromBigEndian(sBytes) == s
  }

  /** A DER string comes back from the way to the fixed form exactly when it is the
      distinguished encoding of two scalars in range. */
  lemma CanonicalIff(der: seq<byte>)
    ensures (DerToP1363(der).Ok? && P1363ToDer(DerToP1363(der).value) == Ok(der)) <==>
              exists r: nat, s: nat :: InRange(r) && InRange(s) && CanonicalDer(der, r, s)
  {
    if DerToP1363(der).Ok? && P1363ToDer(DerToP1363(der).value) == Ok(der) {
      RoundTrip(DerToP1363(der).value);
    }
    if r: nat, s: nat :| InRange(r) && InRange(s) && CanonicalDer(der, r, s) {
      CanonicalReturns(der, r, s);
    }
  }

  lemma CanonicalReturns(der: seq<byte>, r: nat, s: nat)
    requires InRange(r) && InRange(s) && CanonicalDer(der, r, s)
    ensures DerToP1363(der).Ok? && P1363ToDer(DerToP1363(der).value) == Ok(der)
  {
    var rBytes, sBytes :| Spells(der, rBytes, sBytes) && FromBigEndian(rBytes) == r && FromBigEndian(sBytes) == s;
    FixedContent(rBytes);
    FixedContent(sBytes);
    var x := Fixed(rBytes) + Fixed(sBytes);
    assert x[..32] == Fixed(rBytes) && x[32..] == Fixed(sBytes);
    EncodedIsSequence(x);
    SignatureReturns(x, []);
  }

  /** A minimal content in 32 bytes. */
  function Fixed(c: seq<byte>): (v: seq<byte>)
    requires |Unsigned(c)| <= 32
    ensures |v| == 32
  {
    Zeros(32 - |Unsigned(c)|) + Unsigned(c)
  }

  lemma FixedContent(c: seq<byte>)
    requires Minimal(c) && |c| <= 33 && InRange(FromBigEndian(c))
    ensures |Unsigned(c)| <= 32
    ensures FromBigEndian(Fixed(c)) == FromBigEndian(c) && Content(Fixed(c)) == c
  {
    ShortMagnitude(c);
    UnsignedSame(c);
    ZerosSame(32 - |Unsigned(c)|, Unsigned(c));
    ContentDenotes(Fixed(c));
    MinimalUnique(Content(Fixed(c)), c);
  }

  /** A scalar below the group order needs at most 32 bytes. */
  lemma ShortMagnitude(c: seq<byte>)
    requires Minimal(c) && |c| <= 33 && FromBigEndian(c) < ORDER
    ensures |Unsigned(c)| <= 32
  {
    Width32();
    if c[0] != 0 {
      NonzeroFills(c);
      PowGrows(32, |c| - 1);
    }
  }

  lemma Width32()
    ensures Pow256(32) > ORDER
  {
    Widths();
    PowSum(8, 8);
    PowSum(16, 16);
  }

  lemma {:induction false} PowSum(a: nat, b: nat)
    ensures Pow256(a + b) == Pow256(a) * Pow256(b)
  {
    if a > 0 {
      PowSum(a - 1, b);
      assert 256 * (Pow256(a - 1) * Pow256(b)) == 256 * Pow256(a - 1) * Pow256(b);
    }
  }

  lemma {:induction false} ZerosSame(n: nat, s: seq<byte>)
    ensures FromBigEndian(Zeros(n) + s) == FromBigEndian(s)
  {
    if n == 0 {
      assert Zeros(0) + s == s;
    } else {
      ZerosSame(n - 1, s);
      LeadingZero(Zeros(n - 1) + s);
      assert Zeros(n) + s == [0] + (Zeros(n - 1) + s);
    }
  }

  // ---- where the decoder is more generous ----

  /** How many magnitude bytes of s do not fit its own half. */
  function Overhang(s: seq<byte>): nat { if |Unsigned(s)| > 32 then |Unsigned(s)| - 32 else 0 }

  /** Nothing is lost: the bytes of s in front of its last 32 are zero, and so are the
      bytes of r that they overwrite. */
  predicate NothingLost(r: seq<byte>, s: seq<byte>)
    requires |Unsigned(r)| <= 32 && |Unsigned(s)| <= 64
  {
    var n := Overhang(s);
    Unsigned(s)[..n] == Zeros(n) && Fixed(r)[32 - n..] == Zeros(n)
  }

  /** An accepted string gives exactly its own two integers if and only if nothing
      is lost to a long s. */
  lemma DenotesIff(der: seq<byte>)
    requires DerToP1363(der).Ok?
    ensures var x, (r, s) := DerToP1363(der).value, Integers(der).value;
            (FromBigEndian(x[..32]) == FromBigEndian(r) && FromBigEndian(x[32..]) == FromBigEndian(s)) <==> NothingLost(r, s)
  {
    var (r, s) := Integers(der).value;
    var x, n, w := DerToP1363(der).value, Overhang(s), Widened(Unsigned(s));
    OverlayParts(r, s);
    UnsignedSame(r);
    UnsignedSame(s);
    ZerosSame(32 - |Unsigned(r)|, Unsigned(r));
    if n == 0 { ZerosSame(32 - |Unsigned(s)|, Unsigned(s)); }
    SameWidth(x[..32], Fixed(r));
    ReplacedEnd(Fixed(r), n, w[..n]);
    FrontZero(w, n);
  }

  /** At least 32 bytes. */
  function Widened(v: seq<byte>): (w: seq<byte>)
    ensures |w| >= 32 && (|v| >= 32 ==> w == v)
  {
    if |v| < 32 then Zeros(32 - |v|) + v else v
  }

  lemma OverlayParts(r: seq<byte>, s: seq<byte>)
    requires |Unsigned(r)| <= 32 && |Unsigned(s)| <= 64
    ensures var x, n, w := Overlay(Unsigned(r), Unsigned(s)), Overhang(s), Widened(Unsigned(s));
            |w| == 32 + n && x[..32] == Fixed(r)[..32 - n] + w[..n] && x[32..] == w[n..]
  {
  }

  lemma ReplacedEnd(f: seq<byte>, n: nat, z: seq<byte>)
    requires n <= |f| && |z| == n
    ensures f[..|f| - n] + z == f <==> z == f[|f| - n..]
  {
    assert f == f[..|f| - n] + f[|f| - n..];
    if f[..|f| - n] + z == f { assert (f[..|f| - n] + z)[|f| - n..] == z; }
  }

  lemma {:induction false} Joined(a: seq<byte>, b: seq<byte>)
    ensures FromBigEndian(a + b) == FromBigEndian(a) * Pow256(|b|) + FromBigEndian(b)
    decreases |b|
  {
    if b == [] {
      assert a + b == a;
    } else {
      var front := b[..|b| - 1];
      Joined(a, front);
      LastByte(a, b);
      Times256(FromBigEndian(a), Pow256(|front|));
    }
  }

  lemma LastByte(a: seq<byte>, b: seq<byte>)
    requires b != []
    ensures FromBigEndian(a + b) == 256 * FromBigEndian(a + b[..|b| - 1]) + b[|b| - 1]
  {
    assert (a + b)[..|a + b| - 1] == a + b[..|b| - 1];
  }

  lemma Times256(k: nat, p: nat)
    ensures 256 * (k * p) == k * (256 * p)
  {
  }

  lemma ZeroValue(a: seq<byte>)
    ensures FromBigEndian(a) == 0 <==> a == Zeros(|a|)
  {
    ZerosSame(|a|, []);
    assert Zeros(|a|) + [] == Zeros(|a|);
    SameWidth(a, Zeros(|a|));
  }

  lemma ZeroProduct(x: nat, k: nat, p: nat, y: nat)
    requires p > 0 && x == k * p + y
    ensures x == y <==> k == 0
  {
  }

  /** Dropping bytes from the front keeps the number exactly when they are zero. */
  lemma FrontZero(w: seq<byte>, n: nat)
    requires n <= |w|
    ensures FromBigEndian(w[n..]) == FromBigEndian(w) <==> w[..n] == Zeros(n)
  {
    FrontAndRest(w, n);
    ZeroValue(w[..n]);
    ZeroProduct(FromBigEndian(w), FromBigEndian(w[..n]), Pow256(|w| - n), FromBigEndian(w[n..]));
  }

  lemma FrontAndRest(w: seq<byte>, n: nat)
    requires n <= |w|
    ensures FromBigEndian(w) == FromBigEndian(w[..n]) * Pow256(|w| - n) + FromBigEndian(w[n..])
  {
    Sequences.TakeDrop(w, n);
    Joined(w[..n], w[n..]);
  }

  /** Such strings are accepted: r = 1 with 33 bytes of 1 for s. */
  lemma LongIntegerAccepted()
    ensures var ones := seq(33, _ => 1 as byte);
            DerToP1363(Sequence([1], ones, [])) == Ok(Zeros(31) + ones)
  {
    var ones := seq(33, _ => 1 as byte);
    SequenceReads([1], ones, []);
    var x := Zeros(31) + ones;
    assert Overlay([1], ones) == x;
    assert x[..32] == Zeros(31) + [1] && x[32..] == [1] + ones[2..];
    ZerosSame(31, [1]);
    assert [1][..0] == [];
    assert FromBigEndian([1]) == 1;
    OnesInRange(x[32..]);
  }

  lemma OnesInRange(v: seq<byte>)
    requires |v| == 32 && forall i :: 0 <= i < 32 ==> v[i] == 1
    ensures InRange(FromBigEndian(v))
  {
    LeadingBound(v);
    PowGrows(0, 31);
    assert v[0] * Pow256(31) == Pow256(31);
    UpperBound(v);
    Widths();
    PowSum(1, 31);
    PowSum(8, 8);
    PowSum(16, 8);
    PowSum(24, 4);
    PowSum(28, 2);
    PowSum(30, 1);
  }

  lemma {:induction false} UpperBound(s: seq<byte>)
    requires s != []
    ensures FromBigEndian(s) < (s[0] + 1) * Pow256(|s| - 1)
  {
    if |s| == 1 {
      assert s[..0] == [];
    } else {
      UpperBound(s[..|s| - 1]);
      assert (s[0] + 1) * Pow256(|s| - 1) == 256 * ((s[0] + 1) * Pow256(|s| - 2));
    }
  }
}
