/** The decoder of signatures against the encoding rules themselves: definite lengths
    and signed integers (sections 8.1 and 8.3 of ITU-T X.690). */
module DerReading {
  import opened Common
  import opened Bytes
  import opened Der
  import Sequences

  // ---- reading by the rules ----

  /** Length octets, and what follows them: one octet, or up to 126 octets of digits. */
  function BerLength(s: seq<byte>): Option<(nat, seq<byte>)> {
    if s == [] then None
    else if s[0] < 0x80 then Some((s[0], s[1..]))
    else if s[0] == 0x80 || s[0] == 0xFF || |s| < s[0] - 0x7F then None
    else Some((FromBigEndian(s[1..s[0] - 0x7F]), s[s[0] - 0x7F..]))
  }

  /** The content octets of an integer, of which there is at least one, and what follows them. */
  function BerInteger(s: seq<byte>): Option<(seq<byte>, seq<byte>)> {
    if s == [] || s[0] != 0x02 then None
    else match BerLength(s[1..])
      case None => None
      case Some((n, rest)) => if n == 0 || n > |rest| then None else Some((rest[..n], rest[n..]))
  }

  /** A sequence of two integers and of nothing else. */
  function BerSignature(der: seq<byte>): Option<(seq<byte>, seq<byte>)> {
    if der == [] || der[0] != 0x30 then None
    else match BerLength(der[1..])
      case None => None
      case Some((n, body)) => if n != |body| then None else BerPair(body)
  }

  function BerPair(body: seq<byte>): Option<(seq<byte>, seq<byte>)> {
    match BerInteger(body)
    case None => None
    case Some((r, rest)) =>
      match BerInteger(rest)
      case None => None
      case Some((s, end)) => if end == [] then Some((r, s)) else None
  }

  /** Content octets as a two's complement number. */
  function Signed(c: seq<byte>): int {
    if c != [] && c[0] >= 0x80 then FromBigEndian(c) - Pow256(|c|) else FromBigEndian(c)
  }

  /** The decoder's result denotes the two integers that the string encodes. */
  predicate Agrees(der: seq<byte>, x: seq<byte>)
    requires |x| == 64
  {
    match BerSignature(der)
    case None => false
    case Some((r, s)) => Signed(r) == FromBigEndian(x[..32]) && Signed(s) == FromBigEndian(x[32..])
  }

  // ---- what the decoder must have found for that ----

  /** The two lengths and starting points the decoder arrives at. */
  datatype Parts = Parts(start: nat, rLength: nat, rStart: nat, sLength: Number, sStart: nat)

  function PartsOf(der: seq<byte>): Parts
    requires Integers(der).Ok?
  {
    var (total, start) := ReadLength(der, 1);
    var (rLength, rStart) := ReadLength(der, start + 1);
    var (sLength, sStart) := ReadLength(der, rStart + rLength.n + 1);
    Parts(start, rLength.n, rStart, sLength, sStart)
  }

  /** Both integers have content whose first bit is clear, the second ends with the
      string, and no length uses the reserved first octet. */
  predicate Regular(der: seq<byte>)
    requires Integers(der).Ok?
  {
    var p := PartsOf(der);
    && At(der, 1) != Some(0xFF) && At(der, p.start + 1) != Some(0xFF) && At(der, p.rStart + p.rLength + 1) != Some(0xFF)
    && p.rLength >= 1 && der[p.rStart] < 0x80
    && p.sLength.Number? && p.sLength.n >= 1 && p.sStart + p.sLength.n == |der| && der[p.sStart] < 0x80
  }

  lemma {:induction false} DigitsValue(b: seq<byte>, o: nat, count: nat, n: nat)
    requires o + count <= |b|
    ensures Digits(b, o, count, Number(n)) == Number(n * Pow256(count) + FromBigEndian(b[o..o + count]))
    decreases count
  {
    if count == 0 {
      assert b[o..o] == [];
    } else {
      DigitsValue(b, o + 1, count - 1, n * 256 + b[o]);
      FirstDigit(b[o..o + count]);
      assert b[o..o + count][1..] == b[o + 1..o + 1 + (count - 1)];
      Shifted(n, b[o], Pow256(count - 1));
    }
  }

  lemma Shifted(n: nat, d: nat, p: nat)
    ensures (n * 256 + d) * p == n * (256 * p) + d * p
  {
  }

  lemma FirstDigit(s: seq<byte>)
    requires s != []
    ensures FromBigEndian(s) == s[0] * Pow256(|s| - 1) + FromBigEndian(s[1..])
  {
    Joined([s[0]], s[1..]);
    Sequences.Uncons(s);
    SingleDigit(s[0]);
  }

  lemma SingleDigit(d: byte)
    ensures FromBigEndian([d]) == d
  {
    assert [d][..0] == [];
  }

  lemma {:induction false} DigitsMissing(b: seq<byte>, o: nat, count: nat, length: Number)
    requires o + count > |b| && count > 0
    ensures Digits(b, o, count, length) == NaN
    decreases count
  {
    if o < |b| {
      if count > 1 { DigitsMissing(b, o + 1, count - 1, match length case Number(n) => Number(n * 256 + b[o]) case NaN => NaN); }
    } else {
      DigitsNaN(b, o + 1, count - 1);
    }
  }

  lemma {:induction false} DigitsNaN(b: seq<byte>, o: nat, count: nat)
    ensures Digits(b, o, count, NaN) == NaN
    decreases count
  {
    if count > 0 { DigitsNaN(b, o + 1, count - 1); }
  }

  /** Length octets are read alike, but for the two that stand for no length. */
  lemma LengthAgrees(b: seq<byte>, o: nat)
    requires o < |b|
    ensures match BerLength(b[o..])
            case Some((n, rest)) =>
              ReadLength(b, o).0 == Number(n) && ReadLength(b, o).1 <= |b| && rest == b[ReadLength(b, o).1..]
              && b[o] != 0x80 && b[o] != 0xFF
            case None => b[o] == 0xFF || ReadLength(b, o).0 == NaN || ReadLength(b, o).0 == Number(0)
  {
    var s, first := b[o..], b[o];
    if first >= 0x80 {
      var count := first - 0x80;
      if o + 1 + count <= |b| {
        DigitsValue(b, o + 1, count, 0);
        assert s[1..count + 1] == b[o + 1..o + 1 + count];
        assert s[count + 1..] == b[o + 1 + count..];
      } else {
        DigitsMissing(b, o + 1, count, Number(0));
      }
    } else {
      assert s[1..] == b[o + 1..];
    }
  }

  /** An integer at a position, by the rules. */
  lemma IntegerAt(b: seq<byte>, o: nat)
    requires o < |b| && b[o] == 0x02
    ensures BerInteger(b[o..]).Some? <==>
              && o + 1 < |b| && b[o + 1] != 0xFF && ReadLength(b, o + 1).0.Number?
              && ReadLength(b, o + 1).0.n >= 1 && ReadLength(b, o + 1).1 + ReadLength(b, o + 1).0.n <= |b|
    ensures BerInteger(b[o..]).Some? ==>
              var (n, at) := ReadLength(b, o + 1);
              BerInteger(b[o..]) == Some((b[at..at + n.n], b[at + n.n..]))
  {
    assert b[o..][1..] == b[o + 1..];
    if o + 1 < |b| {
      LengthAgrees(b, o + 1);
      var (n, at) := ReadLength(b, o + 1);
      if at <= |b| && n.Number? && at + n.n <= |b| {
        assert b[at..][..n.n] == b[at..at + n.n] && b[at..][n.n..] == b[at + n.n..];
      }
    }
  }

  lemma NothingLeft(b: seq<byte>, o: nat)
    requires o <= |b|
    ensures b[o..] == [] <==> o == |b|
  {
  }

  /** The contents as the rules read them, where the decoder finds two integers. */
  predicate Clean(der: seq<byte>)
    requires Integers(der).Ok?
  {
    var p := PartsOf(der);
    && At(der, 1) != Some(0xFF) && At(der, p.start + 1) != Some(0xFF) && At(der, p.rStart + p.rLength + 1) != Some(0xFF)
    && p.rLength >= 1 && p.sLength.Number? && p.sLength.n >= 1 && p.sStart + p.sLength.n == |der|
  }

  lemma BodyReads(der: seq<byte>)
    requires Integers(der).Ok?
    ensures PartsOf(der).start <= |der|
    ensures BerSignature(der) == if At(der, 1) == Some(0xFF) then None else BerPair(der[PartsOf(der).start..])
  {
    var (total, start) := ReadLength(der, 1);
    LengthAgrees(der, 1);
    assert der[start..] != [];
  }

  lemma SubInside(b: seq<byte>, start: nat, n: nat)
    requires start + n < |b|
    ensures Sub(b, start, Number(n)) == b[start..start + n]
  {
  }

  lemma FirstReads(der: seq<byte>)
    requires Integers(der).Ok?
    ensures var p := PartsOf(der);
            && p.rStart + p.rLength < |der|
            && BerInteger(der[p.start..]) ==
                 if At(der, p.start + 1) != Some(0xFF) && p.rLength >= 1
                 then Some((Integers(der).value.0, der[p.rStart + p.rLength..])) else None
  {
    var p := PartsOf(der);
    IntegerAt(der, p.start);
    SubInside(der, p.rStart, p.rLength);
  }

  lemma SecondReads(der: seq<byte>)
    requires Integers(der).Ok?
    ensures var p := PartsOf(der);
            var next := p.rStart + p.rLength;
            if At(der, next + 1) != Some(0xFF) && p.sLength.Number? && p.sLength.n >= 1 && p.sStart + p.sLength.n == |der|
            then BerInteger(der[next..]) == Some((Integers(der).value.1, []))
            else BerInteger(der[next..]).Some? ==> BerInteger(der[next..]).value.1 != []
  {
    var p := PartsOf(der);
    var next := p.rStart + p.rLength;
    IntegerAt(der, next);
    if BerInteger(der[next..]).Some? {
      var end := p.sStart + p.sLength.n;
      NothingLeft(der, end);
      assert end == |der| ==> der[p.sStart..end] == der[p.sStart..];
    }
  }

  lemma PairReads(der: seq<byte>)
    requires Integers(der).Ok?
    ensures var p := PartsOf(der);
            BerPair(der[p.start..]) ==
              if At(der, p.start + 1) != Some(0xFF) && At(der, p.rStart + p.rLength + 1) != Some(0xFF)
                 && p.rLength >= 1 && p.sLength.Number? && p.sLength.n >= 1 && p.sStart + p.sLength.n == |der|
              then Some(Integers(der).value) else None
  {
    FirstReads(der);
    SecondReads(der);
  }

  /** The rules read two integers exactly when the decoder's findings are clean, and
      then they are the decoder's. */
  lemma SignatureReads(der: seq<byte>)
    requires Integers(der).Ok?
    ensures BerSignature(der) == if Clean(der) then Some(Integers(der).value) else None
  {
    BodyReads(der);
    PairReads(der);
  }

  lemma SignedIs(c: seq<byte>)
    requires c != []
    ensures if c[0] < 0x80 then Signed(c) == FromBigEndian(c) else Signed(c) < 0
  {
  }

  lemma ContentsStart(der: seq<byte>)
    requires Integers(der).Ok? && Clean(der)
    ensures var p, (r, s) := PartsOf(der), Integers(der).value;
            p.rStart < |der| && p.sStart < |der| && r != [] && s != [] && r[0] == der[p.rStart] && s[0] == der[p.sStart]
  {
  }

  /** An accepted string gives the two integers it encodes if and only if it is regular
      and nothing is lost to a long s. */
  lemma AgreesIff(der: seq<byte>)
    requires DerToP1363(der).Ok?
    ensures Agrees(der, DerToP1363(der).value) <==>
              Regular(der) && NothingLost(Integers(der).value.0, Integers(der).value.1)
  {
    SignatureReads(der);
    if Clean(der) {
      var (r, s) := Integers(der).value;
      ContentsStart(der);
      SignedIs(r);
      SignedIs(s);
      DenotesIff(der);
    }
  }

  // ---- accepted strings that are not read so ----

  lemma SmallSignature(r: byte, s: byte)
    requires r >= 1 && s >= 1
    ensures ValidP1363(Overlay([r], [s]))
    ensures var x := Overlay([r], [s]); FromBigEndian(x[..32]) == r && FromBigEndian(x[32..]) == s
  {
    var x := Overlay([r], [s]);
    assert x[..32] == Zeros(31) + [r] && x[32..] == Zeros(31) + [s];
    ZerosSame(31, [r]);
    ZerosSame(31, [s]);
    SingleDigit(r);
    SingleDigit(s);
  }

  /** An s that declares 127 octets and has one is accepted as that one. */
  lemma TruncatedAccepted()
    ensures var der: seq<byte> := [0x30, 6, 2, 1, 1, 2, 0x7F, 5];
            DerToP1363(der) == Ok(Overlay([1], [5])) && BerSignature(der) == None && !Agrees(der, Overlay([1], [5]))
  {
    var der: seq<byte> := [0x30, 6, 2, 1, 1, 2, 0x7F, 5];
    assert der[4..5] == [1] && der[7..] == [5];
    SmallSignature(1, 5);
    AgreesIff(der);
    SignatureReads(der);
  }

  /** A negative r is accepted as a positive one. */
  lemma NegativeAccepted()
    ensures var der: seq<byte> := [0x30, 6, 2, 1, 0x80, 2, 1, 1];
            DerToP1363(der) == Ok(Overlay([0x80], [1])) && !Agrees(der, Overlay([0x80], [1]))
  {
    var der: seq<byte> := [0x30, 6, 2, 1, 0x80, 2, 1, 1];
    assert der[4..5] == [0x80] && der[7..] == [1];
    SmallSignature(0x80, 1);
    AgreesIff(der);
  }
}
