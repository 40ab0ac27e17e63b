/** Which move requests are written and which identities and paths are taken. */
module MoveMeaning {
  import opened Common
  import opened Bytes
  import opened Decimals
  import opened PathParts
  import opened Sequences
  import opened Utf16
  import opened TextEncoding
  import opened MoveFrame
  import Utf8

  /** A relative path: in normal form, with parts between single slashes none of which
      is empty, a dot or two dots or holds a control character, and no backslash. */
  ghost predicate FinePath(t: Text, nfc: Text -> bool) { nfc(t) && FineParts(t) }

  ghost predicate FineParts(t: seq<int>) {
    && t != [] && t[0] != '/' as int && (forall c :: c in t ==> c != '\\' as int)
    && forall i :: 0 <= i < |Split(t)| ==> FinePart(Split(t)[i])
  }

  ghost predicate FinePart(part: seq<int>) {
    && part != [] && part != ['.' as int] && part != ['.' as int, '.' as int]
    && forall c :: c in part ==> ' ' as int <= c && c != 127
  }

  lemma PartIff(part: seq<int>)
    ensures SafePart(part) <==> FinePart(part)
  {
    if SafePart(part) {
      forall c | c in part ensures ' ' as int <= c && c != 127 {
        var i :| 0 <= i < |part| && part[i] == c;
      }
    }
    if FinePart(part) {
      forall i | 0 <= i < |part| ensures part[i] >= 0x20 && part[i] != 0x7F { assert part[i] in part; }
    }
  }

  lemma PartsIff(t: seq<int>)
    ensures t != [] && t[0] != SLASH && 0x5C !in t && AllSafe(Split(t)) <==> FineParts(t)
  {
    forall part ensures SafePart(part) <==> FinePart(part) { PartIff(part); }
  }

  /** A field of text as it goes over the wire: 1 to 32768 bytes, none of them zero. */
  ghost predicate Sendable(t: Text) { 1 <= |Utf8Of(t)| <= 32_768 && 0 !in Utf8Of(t) }

  ghost predicate SafeNumber(v: Number) { v.Integer? && 0 <= v.n <= 9_007_199_254_740_991 }

  ghost predicate Complete(b: Binding, resolves: bool, nfc: Text -> bool) {
    && resolves && FinePath(b.sourceRelative, nfc) && FinePath(b.destinationRelative, nfc)
    && b.sourceRoot != [] && b.sourceRoot[0] == '/' as int && b.destinationRoot != [] && b.destinationRoot[0] == '/' as int
    && SafeNumber(b.sourceRootVolume) && SafeNumber(b.sourceRootFile) && SafeNumber(b.sourceVolume) && SafeNumber(b.sourceFile)
    && SafeNumber(b.destinationRootVolume) && SafeNumber(b.destinationRootFile)
    && Sendable(b.sourceRoot) && Sendable(b.sourceRelative) && Sendable(b.destinationRoot) && Sendable(b.destinationRelative)
  }

  lemma SafeIff(b: Binding)
    ensures SafeIdentities(b) <==>
              && SafeNumber(b.sourceRootVolume) && SafeNumber(b.sourceRootFile) && SafeNumber(b.sourceVolume) && SafeNumber(b.sourceFile)
              && SafeNumber(b.destinationRootVolume) && SafeNumber(b.destinationRootFile)
  {
    var v := Identities(b);
    assert (forall i :: 0 <= i < 6 ==> SafeIdentity(v[i])) <==>
           SafeIdentity(v[0]) && SafeIdentity(v[1]) && SafeIdentity(v[2]) && SafeIdentity(v[3]) && SafeIdentity(v[4]) && SafeIdentity(v[5]);
  }

  /** A safe integer has at most sixteen digits. */
  lemma {:induction false} DigitCount(n: nat, k: nat, limit: nat)
    requires n < limit && limit == Power10(k) && k >= 1
    ensures |Decimal(n)| <= k
    decreases k
  {
    if n >= 10 { DigitCount(n / 10, k - 1, Power10(k - 1)); }
  }

  function Power10(k: nat): nat { if k == 0 then 1 else 10 * Power10(k - 1) }

  lemma {:induction false} DigitsEncode(t: seq<int>, u: Utf8.Text)
    requires t == u && forall i :: 0 <= i < |t| ==> 0x30 <= t[i] < 0x3A
    ensures Utf8.Encode(u) == t
    decreases |t|
  {
    if u != [] {
      DigitsEncode(t[1..], u[1..]);
      assert t == [t[0]] + t[1..];
    }
  }

  lemma {:induction false} DecimalDigits(n: nat)
    ensures forall i :: 0 <= i < |Decimal(n)| ==> 0x30 <= Decimal(n)[i] < 0x3A
  {
  }

  lemma {:induction false} PowersMultiply(m: nat, n: nat)
    ensures Power10(m + n) == Power10(m) * Power10(n)
  {
    if m > 0 { PowersMultiply(m - 1, n); }
  }

  lemma Sixteen(k: nat)
    requires k == 16
    ensures Power10(k) == 10_000_000_000_000_000
  {
    PowersMultiply(k - 15, k - 15);
    PowersMultiply(k - 14, k - 14);
    PowersMultiply(k - 12, k - 12);
    PowersMultiply(k - 8, k - 8);
  }

  lemma NumberFits(v: Number)
    requires SafeNumber(v)
    ensures FieldFits(Utf8.Encode(Decimal(v.n)))
  {
    Sixteen(16);
    DigitCount(v.n, 16, Power10(16));
    DecimalDigits(v.n);
    DigitsEncode(Decimal(v.n), Decimal(v.n));
  }

  lemma ElevenFit(values: seq<seq<byte>>)
    requires |values| == 11 && FieldFits(values[0]) && FieldFits(values[3]) && FieldFits(values[4]) && FieldFits(values[5])
    requires FieldFits(values[6]) && FieldFits(values[9]) && FieldFits(values[10])
    ensures AllFit(values) <==> FieldFits(values[1]) && FieldFits(values[2]) && FieldFits(values[7]) && FieldFits(values[8])
  {
  }

  lemma TextsFit(b: Binding)
    requires SafeIdentities(b)
    ensures AllFit(Encoded(RequestTexts(b))) <==>
              Sendable(b.sourceRoot) && Sendable(b.sourceRelative) && Sendable(b.destinationRoot) && Sendable(b.destinationRelative)
  {
    SafeIff(b);
    var values := Encoded(RequestTexts(b));
    DigitsEncode([0x32], [0x32]);
    NumberFits(b.sourceRootVolume);
    NumberFits(b.sourceRootFile);
    NumberFits(b.sourceVolume);
    NumberFits(b.sourceFile);
    NumberFits(b.destinationRootVolume);
    NumberFits(b.destinationRootFile);
    ElevenFit(values);
  }

  /** A request is written exactly if its paths agree with the binding, both relative
      paths are fine and both roots absolute, the six identities are safe integers, and
      the four paths can go over the wire. */
  lemma WrittenIff(b: Binding, resolves: bool, nfc: Text -> bool)
    ensures EncodeMove(b, resolves, nfc).Some? <==> Complete(b, resolves, nfc)
  {
    PartsIff(b.sourceRelative);
    PartsIff(b.destinationRelative);
    SafeIff(b);
    if SafeIdentities(b) { TextsFit(b); }
  }

  /** The fields of a request in the order of the wire, each as UTF-8 behind its length
      in four bytes. */
  lemma WrittenSays(b: Binding, resolves: bool, nfc: Text -> bool)
    requires Complete(b, resolves, nfc)
    ensures var values := Encoded([
              [0x32], Scalars(b.sourceRoot), Scalars(b.sourceRelative), Decimal(b.sourceRootVolume.n), Decimal(b.sourceRootFile.n),
              Decimal(b.sourceVolume.n), Decimal(b.sourceFile.n), Scalars(b.destinationRoot), Scalars(b.destinationRelative),
              Decimal(b.destinationRootVolume.n), Decimal(b.destinationRootFile.n)]);
            AllFit(values) && EncodeMove(b, resolves, nfc) == Some(Frame(values))
  {
    WrittenIff(b, resolves, nfc);
  }

  /** An identity is read exactly if it consists of digits and fits 64 bits. */
  lemma IdentityIff(t: Utf8.Text, n: int)
    ensures ReadIdentity(t) == Some(n) <==>
              t != [] && (forall c :: c in t ==> '0' as int <= c <= '9' as int) && n == DecimalValue(t) && n <= 18_446_744_073_709_551_615
  {
    if i :| 0 <= i < |t| && !(0x30 <= t[i] < 0x3A) { assert t[i] in t; }
    if c :| c in t && !('0' as int <= c <= '9' as int) {
      var i :| 0 <= i < |t| && t[i] == c;
    }
  }

  /** The helper takes exactly the fine paths, where every slash and every backslash is a
      character of its own. */
  lemma HelperTakesIff(u: Utf8.Text, alone: int -> bool)
    requires forall k :: 0 <= k < |u| && (u[k] == SLASH || u[k] == 0x5C) ==> alone(k)
    ensures RelativeComponents(u, alone) <==> FineParts(u)
  {
    SplitsAgree(u, 0, alone);
    assert u[0..] == u;
    PartsIff(u);
  }
}
