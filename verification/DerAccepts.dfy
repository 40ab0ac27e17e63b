/** Which byte strings the decoder accepts at all, and what it makes of them. */
module DerAccepts {
  import opened Common
  import opened Bytes
  import opened Der
  import DerReading

  /** The order of the base point of P-256 (section 2.4.2 of SEC 2). */
  lemma OrderIs()
    ensures ORDER == 0x1_0000_0000_0000_0000_0000_0000_0000_0000_0000_0000_0000_0000_0000_0000_0000_0000
                     - 0x1_0000_0000_0000_0000_0000_0000_0000_0000_0000_0000_0000_0000_0000_0000
                     + 0x1_0000_0000_0000_0000_0000_0000_0000_0000_0000_0000_0000_0000
                     - 89_188_191_075_325_690_597_107_910_205_041_859_247
  {
  }

  /** At `o` stands the length `n`, and behind it, at `next`, what it measures: one byte
      below 128, or a count of bytes and the bytes. Past the end the length is zero. */
  ghost predicate LengthAt(b: seq<byte>, o: nat, n: nat, next: nat) {
    if o >= |b| then n == 0 && next == o + 1
    else if b[o] < 0x80 then n == b[o] && next == o + 1
    else next == o + 1 + (b[o] - 0x80) && next <= |b| && n == FromBigEndian(b[o + 1..next])
  }

  lemma LengthIff(b: seq<byte>, o: nat, n: nat, next: nat)
    ensures ReadLength(b, o) == (Number(n), next) <==> LengthAt(b, o, n, next)
  {
    if o < |b| && b[o] >= 0x80 {
      var count := b[o] - 0x80;
      if o + 1 + count <= |b| {
        DerReading.DigitsValue(b, o + 1, count, 0);
      } else {
        DerReading.DigitsMissing(b, o + 1, count, Number(0));
      }
    }
  }

  /** The sequence takes the whole string and begins with an integer, the octets `r`;
      behind it stands the tag of another, and `s` are its octets as far as they go. */
  ghost predicate Holds(der: seq<byte>, r: seq<byte>, s: seq<byte>) {
    exists p: DerReading.Parts, total, sLength :: Splits(der, p, total, sLength, r, s)
  }

  ghost predicate Splits(der: seq<byte>, p: DerReading.Parts, total: nat, sLength: nat, r: seq<byte>, s: seq<byte>) {
    && |der| > 0 && der[0] == 0x30 && LengthAt(der, 1, total, p.start) && p.start + total == |der|
    && p.start < |der| && der[p.start] == 0x02 && LengthAt(der, p.start + 1, p.rLength, p.rStart)
    && p.rStart + p.rLength < |der| && der[p.rStart + p.rLength] == 0x02 && r == der[p.rStart..p.rStart + p.rLength]
    && LengthAt(der, p.rStart + p.rLength + 1, sLength, p.sStart) && p.sStart < |der|
    && s == der[p.sStart..if p.sStart + sLength <= |der| then p.sStart + sLength else |der|]
  }

  lemma FoundSplits(der: seq<byte>, p: DerReading.Parts, r: seq<byte>, s: seq<byte>)
    requires s != [] && Integers(der) == Ok((r, s)) && p == DerReading.PartsOf(der)
    ensures p.sLength.Number? && Splits(der, p, ReadLength(der, 1).0.n, p.sLength.n, r, s)
  {
    LengthIff(der, 1, ReadLength(der, 1).0.n, p.start);
    LengthIff(der, p.start + 1, p.rLength, p.rStart);
    LengthIff(der, p.rStart + p.rLength + 1, p.sLength.n, p.sStart);
  }

  lemma HoldsIff(der: seq<byte>, r: seq<byte>, s: seq<byte>)
    requires s != []
    ensures Integers(der) == Ok((r, s)) <==> Holds(der, r, s)
  {
    if Integers(der) == Ok((r, s)) { FoundSplits(der, DerReading.PartsOf(der), r, s); }
    if p, total, sLength :| Splits(der, p, total, sLength, r, s) { SplitsFound(der, p, total, sLength, r, s); }
  }

  /** Both ends of a part are clamped to the string. */
  lemma SubIs(b: seq<byte>, start: nat, n: nat)
    ensures start < |b| && start + n < |b| ==> Sub(b, start, Number(n)) == b[start..start + n]
    ensures start < |b| ==> Sub(b, start, Number(n)) == b[start..if start + n <= |b| then start + n else |b|]
    ensures n == 0 && start <= |b| ==> Sub(b, start, Number(n)) == []
  {
  }

  lemma IntegersAre(der: seq<byte>, total: nat, start: nat, rLength: nat, rStart: nat, sLength: nat, sStart: nat)
    requires At(der, 0) == Some(0x30) && ReadLength(der, 1) == (Number(total), start) && start + total == |der|
    requires At(der, start) == Some(0x02) && ReadLength(der, start + 1) == (Number(rLength), rStart)
    requires At(der, rStart + rLength) == Some(0x02) && ReadLength(der, rStart + rLength + 1) == (Number(sLength), sStart)
    ensures Integers(der) == Ok((Sub(der, rStart, Number(rLength)), Sub(der, sStart, Number(sLength))))
  {
  }

  lemma SplitsFound(der: seq<byte>, p: DerReading.Parts, total: nat, sLength: nat, r: seq<byte>, s: seq<byte>)
    requires Splits(der, p, total, sLength, r, s)
    ensures Integers(der) == Ok((r, s))
  {
    LengthIff(der, 1, total, p.start);
    LengthIff(der, p.start + 1, p.rLength, p.rStart);
    LengthIff(der, p.rStart + p.rLength + 1, sLength, p.sStart);
    IntegersAre(der, total, p.start, p.rLength, p.rStart, sLength, p.sStart);
    SubIs(der, p.rStart, p.rLength);
    SubIs(der, p.sStart, sLength);
  }

  /** The octets of an integer without a zero byte in front. */
  ghost predicate Magnitude(u: seq<byte>, c: seq<byte>) { if c != [] && c[0] == 0 then c == [0] + u else u == c }

  lemma MagnitudeIff(u: seq<byte>, c: seq<byte>)
    ensures Magnitude(u, c) <==> u == Unsigned(c)
  {
    if c != [] && c[0] == 0 { assert c == [0] + c[1..]; }
  }

  /** The buffer: s ends it, r ends in the middle as far as s leaves it, and the rest is zero. */
  ghost predicate Laid(x: seq<byte>, u: seq<byte>, v: seq<byte>) {
    && |u| <= 32 && |v| <= 64 && |x| == 64 && x[64 - |v|..] == v
    && forall j :: 0 <= j < 64 - |v| ==> x[j] == if 32 - |u| <= j < 32 then u[j - (32 - |u|)] else 0
  }

  lemma LaidIff(x: seq<byte>, u: seq<byte>, v: seq<byte>)
    requires |u| <= 32 && |v| <= 64
    ensures Laid(x, u, v) <==> x == Overlay(u, v)
  {
    var y := Overlay(u, v);
    var base := Zeros(32 - |u|) + u + Zeros(32);
    assert y[64 - |v|..] == v;
    forall j | 0 <= j < 64 - |v| ensures y[j] == if 32 - |u| <= j < 32 then u[j - (32 - |u|)] else 0 {
      assert y[j] == base[j];
    }
    if Laid(x, u, v) {
      assert x == x[..64 - |v|] + x[64 - |v|..];
      assert x[..64 - |v|] == y[..64 - |v|];
      assert y == y[..64 - |v|] + y[64 - |v|..];
    }
  }

  /** `x` is made of two integers of the string, and both scalars in it are in range. */
  ghost predicate Yields(der: seq<byte>, x: seq<byte>, r: seq<byte>, s: seq<byte>, u: seq<byte>, v: seq<byte>) {
    && Holds(der, r, s) && Magnitude(u, r) && Magnitude(v, s) && Laid(x, u, v)
    && 1 <= FromBigEndian(x[..32]) < ORDER && 1 <= FromBigEndian(x[32..]) < ORDER
  }

  /** A string is accepted, as `x`, exactly if it splits so: with its lengths read as they
      stand, an s cut off at the end, at most 32 and 64 octets, and scalars in range. */
  lemma AcceptedIff(der: seq<byte>, x: seq<byte>)
    ensures DerToP1363(der) == Ok(x) <==> exists r, s, u, v :: Yields(der, x, r, s, u, v)
  {
    if DerToP1363(der) == Ok(x) {
      var (r, s) := Integers(der).value;
      var u, v := Unsigned(r), Unsigned(s);
      if s == [] { NothingIsZero(u); }
      HoldsIff(der, r, s);
      MagnitudeIff(u, r);
      MagnitudeIff(v, s);
      LaidIff(x, u, v);
      assert Yields(der, x, r, s, u, v);
    }
    if r, s, u, v :| Yields(der, x, r, s, u, v) {
      if s == [] {
        LaidIff(x, u, []);
        NothingIsZero(u);
      } else {
        HoldsIff(der, r, s);
        MagnitudeIff(u, r);
        MagnitudeIff(v, s);
        LaidIff(x, u, v);
      }
    }
  }

  /** Without octets s is zero, and out of range. */
  lemma NothingIsZero(u: seq<byte>)
    requires |u| <= 32
    ensures FromBigEndian(Overlay(u, [])[32..]) == 0
  {
    assert Overlay(u, [])[32..] == Zeros(32);
    ZerosAreZero(32);
  }

  lemma {:induction false} ZerosAreZero(n: nat)
    ensures FromBigEndian(Zeros(n)) == 0
  {
    if n > 0 {
      assert Zeros(n)[..n - 1] == Zeros(n - 1);
      ZerosAreZero(n - 1);
    }
  }
}
