/** The framed move request: what the TypeScript side writes and what the Swift
    helper reads from it. */
module MoveFrame {
  import opened Common
  import opened Bytes
  import opened Decimals
  import opened PathParts
  import opened Sequences
  import opened Utf16
  import opened TextEncoding
  import Utf8

  const MAX_FIELD: nat := 32_768

  // ---- frames ----

  /** A field either side accepts: not empty, not too long, without a zero byte. */
  predicate FieldFits(value: seq<byte>) { 0 < |value| <= MAX_FIELD && 0 !in value }

  predicate AllFit(values: seq<seq<byte>>) { forall i :: 0 <= i < |values| ==> FieldFits(values[i]) }

  function FrameOf(value: seq<byte>): seq<byte>
    requires |value| <= MAX_FIELD
  {
    Widths();
    BigEndian(|value|, 4) + value
  }

  function Frame(values: seq<seq<byte>>): seq<byte>
    requires AllFit(values)
  {
    if values == [] then [] else FrameOf(values[0]) + Frame(values[1..])
  }

  /** One field at the front, and the bytes after it. */
  function ReadField(data: seq<byte>): (r: Option<(Utf8.Text, seq<byte>)>)
    ensures r.Some? ==> |r.value.1| < |data|
  {
    if |data| < 4 then None
    else
      var length := FromBigEndian(data[..4]);
      if length == 0 || length > MAX_FIELD || |data| - 4 < length then None
      else
        var bytes := data[4..4 + length];
        if 0 in bytes then None
        else match Utf8.Decode(bytes)
          case None => None
          case Some(text) => Some((text, data[4 + length..]))
  }

  /** `decodeField`, advancing an offset. */
  method DecodeField(data: seq<byte>, offset: nat) returns (r: Option<Utf8.Text>, next: nat)
    requires offset <= |data|
    ensures offset <= next <= |data|
    ensures match ReadField(data[offset..])
            case None => r == None
            case Some((text, rest)) => r == Some(text) && data[next..] == rest
  {
    next := offset;
    if |data| - offset < 4 { return None, next; }
    var length := 0;
    for i := 0 to 4
      invariant length == FromBigEndian(data[offset..offset + i])
    {
      assert data[offset..offset + i + 1][..i] == data[offset..offset + i];
      length := length * 256 + data[offset + i];
    }
    assert data[offset..][..4] == data[offset..offset + 4];
    next := offset + 4;
    if length == 0 || length > MAX_FIELD || |data| - next < length { return None, next; }
    var bytes := data[next..next + length];
    assert bytes == data[offset..][4..4 + length];
    next := next + length;
    assert data[next..] == data[offset..][4 + length..];
    if 0 in bytes { return None, next; }
    return Utf8.Decode(bytes), next;
  }

  /** Exactly `n` fields and nothing after them. */
  function ReadFrames(data: seq<byte>, n: nat): Option<seq<Utf8.Text>>
    decreases n
  {
    if n == 0 then if data == [] then Some([]) else None
    else match ReadField(data)
      case None => None
      case Some((text, rest)) =>
        match ReadFrames(rest, n - 1) case None => None case Some(more) => Some([text] + more)
  }

  lemma FieldReturns(text: Utf8.Text, rest: seq<byte>)
    requires FieldFits(Utf8.Encode(text))
    ensures ReadField(FrameOf(Utf8.Encode(text)) + rest) == Some((text, rest))
  {
    var value := Utf8.Encode(text);
    Widths();
    var data := FrameOf(value) + rest;
    ReadsBack(|value|, 4);
    assert data[..4] == BigEndian(|value|, 4);
    assert data[4..4 + |value|] == value && data[4 + |value|..] == rest;
    Utf8.DecodeEncode(text);
  }

  lemma FieldIsFrame(data: seq<byte>)
    requires ReadField(data).Some?
    ensures var (text, rest) := ReadField(data).value;
            FieldFits(Utf8.Encode(text)) && data == FrameOf(Utf8.Encode(text)) + rest
  {
    var length := FromBigEndian(data[..4]);
    Utf8.EncodeDecode(data[4..4 + length]);
    Widths();
    WritesBack(data[..4]);
    ThreeParts(data, 4, 4 + length);
  }

  lemma ThreeParts(data: seq<byte>, i: nat, j: nat)
    requires i <= j <= |data|
    ensures data == data[..i] + data[i..j] + data[j..]
  {
  }

  function Encoded(texts: seq<Utf8.Text>): (values: seq<seq<byte>>)
    ensures |values| == |texts|
    ensures forall i :: 0 <= i < |texts| ==> values[i] == Utf8.Encode(texts[i])
  {
    seq(|texts|, i requires 0 <= i < |texts| => Utf8.Encode(texts[i]))
  }

  lemma {:induction false} FrameIsRead(texts: seq<Utf8.Text>)
    requires AllFit(Encoded(texts))
    ensures ReadFrames(Frame(Encoded(texts)), |texts|) == Some(texts)
  {
    if texts != [] {
      assert Encoded(texts)[1..] == Encoded(texts[1..]);
      FieldReturns(texts[0], Frame(Encoded(texts[1..])));
      FrameIsRead(texts[1..]);
      assert texts == [texts[0]] + texts[1..];
    }
  }

  lemma {:induction false} ReadIsFrame(data: seq<byte>, texts: seq<Utf8.Text>, n: nat)
    requires ReadFrames(data, n) == Some(texts)
    ensures |texts| == n && AllFit(Encoded(texts)) && data == Frame(Encoded(texts))
    decreases n
  {
    if n > 0 {
      var (text, rest) := ReadField(data).value;
      var more := ReadFrames(rest, n - 1).value;
      FieldIsFrame(data);
      ReadIsFrame(rest, more, n - 1);
      assert texts[1..] == more && Encoded(texts)[1..] == Encoded(more);
      forall i | 0 <= i < |texts| ensures FieldFits(Encoded(texts)[i]) {
        if i > 0 { assert Encoded(texts)[i] == Encoded(more)[i - 1]; }
      }
    }
  }

  /** A request is read as `n` fields exactly when it is the frame of their bytes. */
  lemma FramesIff(data: seq<byte>, texts: seq<Utf8.Text>, n: nat)
    ensures ReadFrames(data, n) == Some(texts) <==> |texts| == n && AllFit(Encoded(texts)) && data == Frame(Encoded(texts))
  {
    if ReadFrames(data, n) == Some(texts) { ReadIsFrame(data, texts, n); }
    if AllFit(Encoded(texts)) { FrameIsRead(texts); }
  }

  // ---- decimal identities ----

  /** `decodeIdentity`: digits that fit 64 bits. */
  function ReadIdentity(t: Utf8.Text): Option<int> {
    if t == [] || exists i :: 0 <= i < |t| && !(0x30 <= t[i] < 0x3A) then None
    else if DecimalValue(t) >= 0x1_0000_0000_0000_0000 then None else Some(DecimalValue(t))
  }

  // ---- requests ----

  /** A JavaScript number. */
  datatype Number = Integer(n: int) | NotAnInteger

  predicate SafeIdentity(v: Number) { v.Integer? && 0 <= v.n <= 0x1F_FFFF_FFFF_FFFF }

  datatype Binding = Binding(
    sourceRoot: Text, sourceRelative: Text, destinationRoot: Text, destinationRelative: Text,
    sourceRootVolume: Number, sourceRootFile: Number, sourceVolume: Number, sourceFile: Number,
    destinationRootVolume: Number, destinationRootFile: Number)

  /** What the helper works with. */
  datatype Request = Request(
    sourceRoot: Utf8.Text, sourceRelative: Utf8.Text, destinationRoot: Utf8.Text, destinationRelative: Utf8.Text,
    sourceRootDevice: int, sourceRootInode: int, sourceDevice: int, sourceInode: int,
    destinationRootDevice: int, destinationRootInode: int)

  /** A path component both sides accept. */
  predicate SafePart(part: seq<int>) {
    part != [] && part != [0x2E] && part != [0x2E, 0x2E] && forall i :: 0 <= i < |part| ==> part[i] >= 0x20 && part[i] != 0x7F
  }

  predicate AllSafe(parts: seq<seq<int>>) { forall i :: 0 <= i < |parts| ==> SafePart(parts[i]) }

  /** `moveRelativeParts`; `nfc` says that the string is in normal form C. */
  predicate MoveRelative(value: Text, nfc: Text -> bool) {
    value != [] && nfc(value) && value[0] != SLASH && 0x5C !in value && AllSafe(Split(value))
  }

  function Absolute(t: Text): bool { t != [] && t[0] == SLASH }

  function Identities(b: Binding): seq<Number> {
    [b.sourceRootVolume, b.sourceRootFile, b.sourceVolume, b.sourceFile, b.destinationRootVolume, b.destinationRootFile]
  }

  predicate SafeIdentities(b: Binding) { forall i :: 0 <= i < 6 ==> SafeIdentity(Identities(b)[i]) }

  function RequestTexts(b: Binding): (texts: seq<Utf8.Text>)
    requires SafeIdentities(b)
    ensures |texts| == 11
  {
    assert forall i :: 0 <= i < 6 ==> SafeIdentity(Identities(b)[i]);
    assert SafeIdentity(Identities(b)[0]) && SafeIdentity(Identities(b)[1]) && SafeIdentity(Identities(b)[2]);
    assert SafeIdentity(Identities(b)[3]) && SafeIdentity(Identities(b)[4]) && SafeIdentity(Identities(b)[5]);
    [[0x32], Scalars(b.sourceRoot), Scalars(b.sourceRelative), Decimal(b.sourceRootVolume.n), Decimal(b.sourceRootFile.n),
     Decimal(b.sourceVolume.n), Decimal(b.sourceFile.n), Scalars(b.destinationRoot), Scalars(b.destinationRelative),
     Decimal(b.destinationRootVolume.n), Decimal(b.destinationRootFile.n)]
  }

  /** `encodeMoveRequest`; `resolves` says that the two paths match the binding. */
  function EncodeMove(b: Binding, resolves: bool, nfc: Text -> bool): Option<seq<byte>> {
    if !MoveRelative(b.sourceRelative, nfc) || !MoveRelative(b.destinationRelative, nfc) then None
    else if !Absolute(b.sourceRoot) || !Absolute(b.destinationRoot) || !resolves then None
    else if !SafeIdentities(b) then None
    else
      var values := Encoded(RequestTexts(b));
      if AllFit(values) then Some(Frame(values)) else None
  }

  /** The helper's reading of a request, with the order of its checks left out. */
  function DecodeMove(data: seq<byte>): Option<Request> {
    match ReadFrames(data, 11)
    case None => None
    case Some(t) => if |t| == 11 then RequestOf(t) else None
  }

  function RequestOf(t: seq<Utf8.Text>): Option<Request>
    requires |t| == 11
  {
    match (ReadIdentity(t[3]), ReadIdentity(t[4]), ReadIdentity(t[5]), ReadIdentity(t[6]), ReadIdentity(t[9]), ReadIdentity(t[10]))
    case (Some(a), Some(b), Some(c), Some(d), Some(e), Some(f)) =>
      if t[0] == [0x32] then Some(Request(t[1], t[2], t[7], t[8], a, b, c, d, e, f)) else None
    case _ => None
  }

  function Expected(b: Binding): Request
    requires SafeIdentities(b)
  {
    assert SafeIdentity(Identities(b)[0]) && SafeIdentity(Identities(b)[1]) && SafeIdentity(Identities(b)[2]);
    assert SafeIdentity(Identities(b)[3]) && SafeIdentity(Identities(b)[4]) && SafeIdentity(Identities(b)[5]);
    Request(Scalars(b.sourceRoot), Scalars(b.sourceRelative), Scalars(b.destinationRoot), Scalars(b.destinationRelative),
            b.sourceRootVolume.n, b.sourceRootFile.n, b.sourceVolume.n, b.sourceFile.n,
            b.destinationRootVolume.n, b.destinationRootFile.n)
  }

  lemma IdentityReturns(n: nat)
    requires n <= 0x1F_FFFF_FFFF_FFFF
    ensures ReadIdentity(Decimal(n)) == Some(n)
  {
    DecimalReads(n);
  }

  /** Every request that is written is read, with the six numbers unchanged and the
      four paths as their scalar values. */
  lemma EveryRequestIsRead(b: Binding, resolves: bool, nfc: Text -> bool)
    requires EncodeMove(b, resolves, nfc).Some?
    ensures DecodeMove(EncodeMove(b, resolves, nfc).value) == Some(Expected(b))
  {
    var texts := RequestTexts(b);
    FramesIff(Frame(Encoded(texts)), texts, 11);
    assert SafeIdentity(Identities(b)[0]) && SafeIdentity(Identities(b)[1]) && SafeIdentity(Identities(b)[2]);
    assert SafeIdentity(Identities(b)[3]) && SafeIdentity(Identities(b)[4]) && SafeIdentity(Identities(b)[5]);
    IdentityReturns(b.sourceRootVolume.n);
    IdentityReturns(b.sourceRootFile.n);
    IdentityReturns(b.sourceVolume.n);
    IdentityReturns(b.sourceFile.n);
    IdentityReturns(b.destinationRootVolume.n);
    IdentityReturns(b.destinationRootFile.n);
  }

  /** A path arrives as it was written exactly when it has no lone surrogate. */
  lemma PathArrivesIff(b: Binding, resolves: bool, nfc: Text -> bool)
    requires EncodeMove(b, resolves, nfc).Some?
    ensures DecodeMove(EncodeMove(b, resolves, nfc).value).Some?
    ensures var r := DecodeMove(EncodeMove(b, resolves, nfc).value).value;
            && (FromScalars(r.sourceRelative) == b.sourceRelative <==> WellFormed(b.sourceRelative))
            && (FromScalars(r.destinationRelative) == b.destinationRelative <==> WellFormed(b.destinationRelative))
            && (FromScalars(r.sourceRoot) == b.sourceRoot <==> WellFormed(b.sourceRoot))
            && (FromScalars(r.destinationRoot) == b.destinationRoot <==> WellFormed(b.destinationRoot))
  {
    EveryRequestIsRead(b, resolves, nfc);
    SurvivesIff(b.sourceRelative);
    SurvivesIff(b.destinationRelative);
    SurvivesIff(b.sourceRoot);
    SurvivesIff(b.destinationRoot);
  }

  // ---- path components ----

  /** Swift splits between characters: a slash counts where it is a character of its
      own, which `alone` tells. */
  function SplitCharacters(u: Utf8.Text, i: nat, alone: int -> bool): (parts: seq<seq<int>>)
    requires i <= |u|
    ensures parts != []
    decreases |u| - i
  {
    if i == |u| then [[]]
    else
      var rest := SplitCharacters(u, i + 1, alone);
      if u[i] == SLASH && alone(i) then [[]] + rest else [[u[i]] + rest[0]] + rest[1..]
  }

  /** `relativeComponents`; its comparison with the composed form holds of every
      string, since Swift compares up to canonical equivalence. */
  predicate RelativeComponents(u: Utf8.Text, alone: int -> bool) {
    && u != [] && !(u[0] == SLASH && alone(0)) && (forall i :: 0 <= i < |u| ==> !(u[i] == 0x5C && alone(i)))
    && AllSafe(SplitCharacters(u, 0, alone))
  }

  predicate SlashesAlone(u: Utf8.Text, i: nat, alone: int -> bool) {
    forall k :: i <= k < |u| && u[k] == SLASH ==> alone(k)
  }

  lemma {:induction false} SplitsAgree(u: Utf8.Text, i: nat, alone: int -> bool)
    requires i <= |u|
    ensures |SplitCharacters(u, i, alone)| <= |Split(u[i..])|
    ensures SlashesAlone(u, i, alone) ==> SplitCharacters(u, i, alone) == Split(u[i..])
    ensures !SlashesAlone(u, i, alone) ==> |SplitCharacters(u, i, alone)| < |Split(u[i..])|
    decreases |u| - i
  {
    if i < |u| {
      SplitsAgree(u, i + 1, alone);
      assert u[i..][1..] == u[i + 1..];
      assert SlashesAlone(u, i, alone) <==> SlashesAlone(u, i + 1, alone) && (u[i] == SLASH ==> alone(i));
    }
  }

  function Parts(parts: seq<Text>): (r: seq<seq<int>>)
    ensures |r| == |parts|
    ensures forall i :: 0 <= i < |r| ==> r[i] == Scalars(parts[i])
  {
    seq(|parts|, i requires 0 <= i < |parts| => Scalars(parts[i]))
  }

  function SplitText(t: Text): (parts: seq<Text>)
    ensures parts == Split(t)
  {
    if t == [] then [[]]
    else
      var rest := SplitText(t[1..]);
      if t[0] == SLASH then [[]] + rest else [[t[0]] + rest[0]] + rest[1..]
  }

  lemma {:induction false} FirstIsPrefix(t: Text)
    ensures SplitText(t)[0] <= t
  {
    if t != [] { FirstIsPrefix(t[1..]); }
  }

  lemma PartsOne(first: Text, rest: seq<Text>)
    ensures Parts([first] + rest) == [Scalars(first)] + Parts(rest)
  {
  }

  /** Splitting after a surrogate pair. */
  lemma SplitPair(t: Text)
    requires |t| >= 2 && High(t[0]) && Low(t[1])
    ensures var rest := SplitText(t[2..]);
            SplitText(t) == [[t[0], t[1]] + rest[0]] + rest[1..]
            && Scalars([t[0], t[1]] + rest[0]) == [Paired(t[0], t[1])] + Scalars(rest[0])
  {
    assert t[1..][1..] == t[2..];
    var rest := SplitText(t[2..]);
    assert SplitText(t[1..]) == [[t[1]] + rest[0]] + rest[1..];
    assert [t[0]] + ([t[1]] + rest[0]) == [t[0], t[1]] + rest[0];
    assert ([t[0], t[1]] + rest[0])[2..] == rest[0];
  }

  /** Splitting after a unit that begins no pair. */
  lemma SplitOne(t: Text)
    requires t != [] && t[0] != SLASH && !(High(t[0]) && |t| >= 2 && Low(t[1]))
    ensures var rest := SplitText(t[1..]);
            Scalars([t[0]] + rest[0]) == [Scalars(t)[0]] + Scalars(rest[0])
  {
    FirstIsPrefix(t[1..]);
    OneThen(t, SplitText(t[1..])[0]);
  }

  lemma OneThen(t: Text, first: Text)
    requires t != [] && first <= t[1..] && !(High(t[0]) && |t| >= 2 && Low(t[1]))
    ensures Scalars([t[0]] + first) == [Scalars(t)[0]] + Scalars(first)
  {
    ConsTail(t[0], first);
  }

  /** Splitting the string and splitting its scalars give the same components. */
  lemma {:induction false} SplitScalars(t: Text)
    ensures Parts(SplitText(t)) == Split(Scalars(t))
    decreases |t|
  {
    if t != [] {
      if High(t[0]) && |t| >= 2 && Low(t[1]) {
        SplitScalars(t[2..]);
        SplitPair(t);
        var rest := SplitText(t[2..]);
        PartsOne([t[0], t[1]] + rest[0], rest[1..]);
        PartsOne(rest[0], rest[1..]);
        assert rest == [rest[0]] + rest[1..] && Scalars(t)[1..] == Scalars(t[2..]);
      } else {
        SplitScalars(t[1..]);
        var rest := SplitText(t[1..]);
        assert rest == [rest[0]] + rest[1..] && Scalars(t)[1..] == Scalars(t[1..]);
        PartsOne(rest[0], rest[1..]);
        if t[0] == SLASH {
          PartsOne([], rest);
        } else {
          SplitOne(t);
          PartsOne([t[0]] + rest[0], rest[1..]);
        }
      }
    }
  }

  /** A coarser component is one of the fine ones, or contains a slash. */
  lemma {:induction false} CoarserIsSafe(u: Utf8.Text, i: nat, alone: int -> bool)
    requires i <= |u| && (forall k :: 0 <= k < |u| ==> u[k] >= 0x20 && u[k] != 0x7F)
    requires forall k :: 1 <= k < |Split(u[i..])| ==> SafePart(Split(u[i..])[k])
    ensures forall k :: 1 <= k < |SplitCharacters(u, i, alone)| ==> SafePart(SplitCharacters(u, i, alone)[k])
    ensures var first := SplitCharacters(u, i, alone)[0];
            (first == Split(u[i..])[0] || SLASH in first) && forall k :: 0 <= k < |first| ==> first[k] >= 0x20 && first[k] != 0x7F
    decreases |u| - i
  {
    if i < |u| {
      var fine := Split(u[i..]);
      assert u[i..][1..] == u[i + 1..];
      var rest := Split(u[i + 1..]);
      forall k | 1 <= k < |rest| ensures SafePart(rest[k]) {
        if u[i] == SLASH { assert fine[k + 1] == rest[k]; } else { assert fine[k] == rest[k]; }
      }
      CoarserIsSafe(u, i + 1, alone);
      var coarse := SplitCharacters(u, i + 1, alone);
      if u[i] == SLASH && alone(i) {
        assert fine[1] == rest[0];
        assert SafePart(coarse[0]);
      }
    }
  }

  predicate Printable(s: seq<int>) { forall k :: 0 <= k < |s| ==> s[k] >= 0x20 && s[k] != 0x7F }

  /** Every element is a slash or lies in one of the components. */
  lemma {:induction false} PartsCover(s: seq<int>)
    requires forall k :: 0 <= k < |Split(s)| ==> Printable(Split(s)[k])
    ensures Printable(s)
  {
    if s != [] {
      var parts, rest := Split(s), Split(s[1..]);
      forall k | 0 <= k < |rest| ensures Printable(rest[k]) {
        if s[0] == SLASH {
          assert parts[k + 1] == rest[k];
        } else if k > 0 {
          assert parts[k] == rest[k];
        } else {
          assert parts[0] == [s[0]] + rest[0];
          forall j | 0 <= j < |rest[0]| ensures rest[0][j] >= 0x20 && rest[0][j] != 0x7F { assert parts[0][j + 1] == rest[0][j]; }
        }
      }
      PartsCover(s[1..]);
      if s[0] != SLASH { assert parts[0][0] == s[0]; }
    }
  }

  /** A safe component is safe as scalars too. */
  lemma {:induction false} ScalarsSafe(t: Text)
    requires Printable(t)
    ensures Printable(Scalars(t)) && (Scalars(t) == [] <==> t == [])
    ensures Scalars(t) == [0x2E] ==> t == [0x2E]
    ensures Scalars(t) == [0x2E, 0x2E] ==> t == [0x2E, 0x2E]
    decreases |t|
  {
    if t != [] {
      if High(t[0]) && |t| >= 2 && Low(t[1]) {
        ScalarsSafe(t[2..]);
        assert Scalars(t)[0] >= 0x1_0000;
      } else {
        ScalarsSafe(t[1..]);
        assert Scalars(t)[1..] == Scalars(t[1..]);
        assert t == [t[0]] + t[1..];
      }
    }
  }

  lemma SafeParts(t: Text)
    requires AllSafe(Split(t))
    ensures AllSafe(Split(Scalars(t))) && Printable(Scalars(t))
  {
    SplitScalars(t);
    var parts := SplitText(t);
    forall k | 0 <= k < |parts| ensures SafePart(Scalars(parts[k])) {
      assert SafePart(Split(t)[k]);
      ScalarsSafe(parts[k]);
    }
    forall k | 0 <= k < |Split(Scalars(t))| ensures SafePart(Split(Scalars(t))[k]) {
      assert Split(Scalars(t))[k] == Scalars(parts[k]);
    }
    PartsCover(Scalars(t));
  }

  lemma {:induction false} NoBackslash(t: Text)
    requires 0x5C !in t
    ensures 0x5C !in Scalars(t)
    decreases |t|
  {
    if t != [] {
      if High(t[0]) && |t| >= 2 && Low(t[1]) { NoBackslash(t[2..]); } else { NoBackslash(t[1..]); }
    }
  }

  /** Every relative path the encoder accepts is accepted by the helper, and both see
      the same components exactly when every slash is a character of its own. */
  lemma RelativePathsAccepted(value: Text, nfc: Text -> bool, alone: int -> bool)
    requires MoveRelative(value, nfc)
    ensures RelativeComponents(Scalars(value), alone)
    ensures SplitCharacters(Scalars(value), 0, alone) == Parts(SplitText(value)) <==> SlashesAlone(Scalars(value), 0, alone)
  {
    var u := Scalars(value);
    SafeParts(value);
    NoBackslash(value);
    SplitScalars(value);
    SplitsAgree(u, 0, alone);
    assert u[0..] == u;
    CoarserIsSafe(u, 0, alone);
    assert SafePart(Split(u)[0]);
  }
}
