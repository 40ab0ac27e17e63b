/** The stored form of a credential envelope: a record, a pending refresh and
    metadata, each a nested list of tagged fields below a bounded header. */
module CredentialCodec {
  import opened Common
  import opened Bytes
  import opened Sequences
  import opened Tlv
  import Utf8

  const MAX_RECORD: nat := 4096

  type Text = Utf8.Text

  /** A number that fits a signed 64-bit integer. */
  type Number = n: int | 0 <= n < 0x8000_0000_0000_0000

  const PENDING_MAGIC: seq<byte> := [0x53, 0x4B, 0x50, 0x4E]
  const RECORD_MAGIC: seq<byte> := [0x53, 0x4B, 0x43, 0x52]
  const ENVELOPE_MAGIC: seq<byte> := [0x53, 0x4B, 0x45, 0x4E]

  /** "p256-sha256" */
  const SUITE: seq<byte> := [0x70, 0x32, 0x35, 0x36, 0x2D, 0x73, 0x68, 0x61, 0x32, 0x35, 0x36]

  /** "v1" */
  const V1: Text := [0x76, 0x31]

  datatype Pending = Pending(
    idempotencyKey: Text, requestDigest: Text, wireVersion: Text, responseVersion: Text,
    expectedGeneration: Number, requestStartedAt: Number)

  /** `embedded` is a pending refresh inside a record, which a valid record does not have. */
  datatype Record = Record(
    deviceId: Text, tokenFamilyId: Text, refreshToken: Text, scopes: seq<Text>,
    devicePublicId: Option<Text>, accountPublicId: Option<Text>,
    updatedAt: Number, generation: Number, familyAbsoluteExpiresAt: Number,
    origin: seq<byte>, applicationTag: seq<byte>, embedded: Option<Pending>)

  datatype Metadata = Metadata(
    deviceId: Option<Text>, verificationUri: Option<Text>, displayName: Option<Text>,
    platform: Option<Text>, connectorVersion: Option<Text>)

  /** An explicit null is not stored, and reads back as absent. */
  datatype PendingSlot = Absent | Null | Present(pending: Pending)

  datatype Envelope = Envelope(record: Option<Record>, pending: PendingSlot, metadata: Option<Metadata>)

  /** What the helper checks with regular expressions, URL parsing and the two
      hashes of the namespace. */
  datatype Rules = Rules(
    origin: seq<byte>, applicationTag: seq<byte>,
    deviceId: Text -> bool, family: Text -> bool, refresh: Text -> bool,
    devicePublic: Text -> bool, accountPublic: Text -> bool,
    idempotency: Text -> bool, digest: Text -> bool,
    metadata: Metadata -> bool)

  predicate ValidPending(p: Pending, rules: Rules) {
    rules.idempotency(p.idempotencyKey) && rules.digest(p.requestDigest) && p.wireVersion == V1 && p.responseVersion == V1
  }

  predicate ValidRecord(r: Record, rules: Rules) {
    && r.embedded.None? && r.origin == rules.origin && r.applicationTag == rules.applicationTag
    && rules.deviceId(r.deviceId) && rules.family(r.tokenFamilyId) && rules.refresh(r.refreshToken)
    && r.familyAbsoluteExpiresAt > 0
    && (r.devicePublicId.Some? ==> rules.devicePublic(r.devicePublicId.value))
    && (r.accountPublicId.Some? ==> rules.accountPublic(r.accountPublicId.value))
  }

  predicate ValidEnvelope(e: Envelope, rules: Rules) {
    && (e.record.Some? ==> ValidRecord(e.record.value, rules))
    && (e.pending.Present? ==> ValidPending(e.pending.pending, rules))
    && (e.metadata.Some? ==> rules.metadata(e.metadata.value))
  }

  /** Exactly `count` ASCII characters. */
  predicate AsciiOf(t: Text, count: nat) {
    |t| == count && Utf8.IsAscii(t)
  }

  function U64(n: Number): (s: seq<byte>)
    ensures |s| == 8
  {
    Widths();
    BigEndian(n, 8)
  }

  function ReadU64(s: seq<byte>): Option<Number> {
    if |s| != 8 || FromBigEndian(s) >= 0x8000_0000_0000_0000 then None else Some(FromBigEndian(s))
  }

  /** Magic, version 1, field count, total length, and then the fields. */
  function Framed(magic: seq<byte>, count: byte, body: seq<byte>): (s: seq<byte>)
    requires |magic| == 4 && |body| + 8 < 0x1_0000
    ensures |s| == |body| + 8
  {
    Widths();
    magic + [1, count] + BigEndian(|body| + 8, 2) + body
  }

  /** The header check the three decoders share. */
  predicate HasHeader(data: seq<byte>, magic: seq<byte>) {
    |data| >= 8 && data[..4] == magic && data[4] == 1 && Length(data[6], data[7]) == |data|
  }

  lemma FramedHas(magic: seq<byte>, count: byte, body: seq<byte>)
    requires |magic| == 4 && |body| + 8 < 0x1_0000
    ensures var s := Framed(magic, count, body);
            HasHeader(s, magic) && s[5] == count && s[8..] == body
  {
    var n := |body| + 8;
    TwoBytes(n / 256, n % 256);
    var s := Framed(magic, count, body);
    assert s[..4] == magic;
    assert s[6] == n / 256 && s[7] == n % 256;
  }

  function PendingFields(p: Pending): seq<Field> {
    [Field(1, Utf8.Encode(p.idempotencyKey)), Field(2, Utf8.Encode(p.requestDigest)),
     Field(3, Utf8.Encode(p.wireVersion)), Field(4, Utf8.Encode(p.responseVersion)),
     Field(5, U64(p.expectedGeneration)), Field(6, U64(p.requestStartedAt))]
  }

  predicate PendingEncodable(p: Pending) {
    AsciiOf(p.idempotencyKey, 22) && AsciiOf(p.requestDigest, 71) && AsciiOf(p.wireVersion, 2) && AsciiOf(p.responseVersion, 2)
  }

  function EncodePending(p: Pending): Option<seq<byte>> {
    if !PendingEncodable(p) then None
    else
      PendingSize(p);
      Some(Framed(PENDING_MAGIC, 6, Encode(PendingFields(p))))
  }

  function DecodePending(data: seq<byte>): Option<Pending> {
    if !HasHeader(data, PENDING_MAGIC) || data[5] != 6 then None
    else match Parse(data[8..], MAX_RECORD - 8)
      case None => None
      case Some(fields) => if |fields| != 6 then None else PendingOf(fields)
  }

  function PendingOf(fields: seq<Field>): Option<Pending> {
    match (TextAt(fields, 1), TextAt(fields, 2), TextAt(fields, 3), TextAt(fields, 4), NumberAt(fields, 5), NumberAt(fields, 6))
    case (Some(key), Some(digest), Some(wire), Some(response), Some(generation), Some(started)) =>
      Some(Pending(key, digest, wire, response, generation, started))
    case _ => None
  }

  function TextAt(fields: seq<Field>, id: byte): Option<Text> {
    match Find(fields, id) case None => None case Some(b) => Utf8.Decode(b)
  }

  function NumberAt(fields: seq<Field>, id: byte): Option<Number> {
    match Find(fields, id) case None => None case Some(b) => ReadU64(b)
  }

  lemma SizeOf(fields: seq<Field>)
    requires Fits(fields)
    ensures fields == [] ==> |Encode(fields)| == 0
    ensures fields != [] ==> |Encode(fields)| == 3 + |fields[0].bytes| + |Encode(fields[1..])|
  {
  }

  lemma PendingSize(p: Pending)
    requires PendingEncodable(p)
    ensures Fits(PendingFields(p)) && |Encode(PendingFields(p))| == 131
  {
    Utf8.AsciiEncodes(p.idempotencyKey);
    Utf8.AsciiEncodes(p.requestDigest);
    Utf8.AsciiEncodes(p.wireVersion);
    Utf8.AsciiEncodes(p.responseVersion);
    var f := PendingFields(p);
    assert f[1..][1..] == f[2..] && f[2..][1..] == f[3..] && f[3..][1..] == f[4..] && f[4..][1..] == f[5..] && f[5..][1..] == [];
    SizeOf(f); SizeOf(f[1..]); SizeOf(f[2..]); SizeOf(f[3..]); SizeOf(f[4..]); SizeOf(f[5..]);
  }

  lemma NumberReads(n: Number)
    ensures ReadU64(U64(n)) == Some(n)
  {
    Widths();
    ReadsBack(n, 8);
  }

  lemma TextReads(fields: seq<Field>, id: byte, text: Text)
    requires Find(fields, id) == Some(Utf8.Encode(text))
    ensures TextAt(fields, id) == Some(text)
  {
    Utf8.DecodeEncode(text);
  }

  lemma PendingReads(p: Pending)
    ensures PendingOf(PendingFields(p)) == Some(p) && RisingFrom(0, PendingFields(p))
  {
    var f := PendingFields(p);
    FindIn(f, 0); FindIn(f, 1); FindIn(f, 2); FindIn(f, 3); FindIn(f, 4); FindIn(f, 5);
    TextReads(f, 1, p.idempotencyKey);
    TextReads(f, 2, p.requestDigest);
    TextReads(f, 3, p.wireVersion);
    TextReads(f, 4, p.responseVersion);
    NumberReads(p.expectedGeneration);
    NumberReads(p.requestStartedAt);
  }

  /** A pending refresh that can be written reads back as itself. */
  lemma PendingRoundTrip(p: Pending)
    requires PendingEncodable(p)
    ensures DecodePending(EncodePending(p).value) == Some(p)
  {
    PendingSize(p);
    PendingReads(p);
    FramedHas(PENDING_MAGIC, 6, Encode(PendingFields(p)));
    ParseEncode(PendingFields(p), 0);
  }

  /** In a rising list every field is found by its id. */
  lemma {:induction false} FindIn(fields: seq<Field>, k: nat)
    requires k < |fields| && forall i, j :: 0 <= i < j < |fields| ==> fields[i].id < fields[j].id
    ensures Find(fields, fields[k].id) == Some(fields[k].bytes)
  {
    if k > 0 { FindIn(fields[1..], k - 1); }
  }

  // ---- scopes ----

  function EncodeScope(scope: Text): seq<byte>
    requires |Utf8.Encode(scope)| < 0x1_0000
  {
    BigEndian16(|Utf8.Encode(scope)|) + Utf8.Encode(scope)
  }

  predicate ScopesFit(scopes: seq<Text>) {
    |scopes| <= 255 && forall i :: 0 <= i < |scopes| ==> |Utf8.Encode(scopes[i])| < 0x1_0000
  }

  function ScopeBytes(scopes: seq<Text>): seq<byte>
    requires ScopesFit(scopes)
  {
    if scopes == [] then [] else EncodeScope(scopes[0]) + ScopeBytes(scopes[1..])
  }

  /** Exactly `n` scopes and nothing after them. */
  function ReadScopes(data: seq<byte>, n: nat): Option<seq<Text>>
    decreases n
  {
    if n == 0 then if data == [] then Some([]) else None
    else if |data| < 2 || |data| - 2 < Length(data[0], data[1]) then None
    else
      var length := Length(data[0], data[1]);
      match (Utf8.Decode(data[2..2 + length]), ReadScopes(data[2 + length..], n - 1))
      case (Some(scope), Some(rest)) => Some([scope] + rest)
      case _ => None
  }

  /** The pieces of a scope list in front of more bytes. */
  lemma ScopeSplit(n: nat, e: seq<byte>, rest: seq<byte>)
    requires n == |e| < 0x1_0000
    ensures var data := BigEndian16(n) + e + rest;
            && |data| >= 2 && Length(data[0], data[1]) == n && |data| - 2 >= n
            && data[2..2 + n] == e && data[2 + n..] == rest
  {
    TwoBytes(n / 256, n % 256);
  }

  function BigEndian16(n: nat): (s: seq<byte>)
    requires n < 0x1_0000
    ensures |s| == 2
  {
    Widths();
    BigEndian(n, 2)
  }

  lemma {:induction false} ScopesRoundTrip(scopes: seq<Text>)
    requires ScopesFit(scopes)
    ensures ReadScopes(ScopeBytes(scopes), |scopes|) == Some(scopes)
  {
    if scopes != [] {
      var e := Utf8.Encode(scopes[0]);
      ScopeSplit(|e|, e, ScopeBytes(scopes[1..]));
      Utf8.DecodeEncode(scopes[0]);
      ScopesRoundTrip(scopes[1..]);
      Uncons(scopes);
    }
  }

  /** The scope at a position of the data, and the position behind it. */
  function NextScope(data: seq<byte>, offset: nat): (r: Option<(Text, nat)>)
    ensures r.Some? ==> offset < r.value.1 <= |data|
  {
    if offset + 2 > |data| || offset + 2 + Length(data[offset], data[offset + 1]) > |data| then None
    else
      var next := offset + 2 + Length(data[offset], data[offset + 1]);
      match Utf8.Decode(data[offset + 2..next]) case None => None case Some(s) => Some((s, next))
  }

  /** One turn of the scope loop. */
  lemma ScopeStep(data: seq<byte>, offset: nat, left: nat)
    requires left > 0 && offset <= |data|
    ensures ReadScopes(data[offset..], left) ==
              match NextScope(data, offset)
              case None => None
              case Some((s, next)) => Before([s], ReadScopes(data[next..], left - 1))
  {
    var tail := data[offset..];
    if |tail| >= 2 {
      var n := Length(data[offset], data[offset + 1]);
      assert tail[0] == data[offset] && tail[1] == data[offset + 1];
      if offset + 2 + n <= |data| {
        TailSlices(data, offset, n);
        FirstScope(tail, n, left);
      }
    }
  }

  lemma FirstScope(tail: seq<byte>, n: nat, left: nat)
    requires left > 0 && |tail| >= 2 + n && n == Length(tail[0], tail[1])
    ensures ReadScopes(tail, left) ==
              match Utf8.Decode(tail[2..2 + n])
              case None => None
              case Some(s) => Before([s], ReadScopes(tail[2 + n..], left - 1))
  {
  }

  lemma TailSlices(data: seq<byte>, offset: nat, n: nat)
    requires offset + 2 + n <= |data|
    ensures data[offset..][2..2 + n] == data[offset + 2..offset + 2 + n]
    ensures data[offset..][2 + n..] == data[offset + 2 + n..]
  {
  }

  method ReadScope(data: seq<byte>, offset0: nat) returns (scope: Option<Text>, offset: nat)
    requires offset0 <= |data|
    ensures scope.Some? <==> NextScope(data, offset0).Some?
    ensures scope.Some? ==> NextScope(data, offset0) == Some((scope.value, offset))
  {
    offset := offset0;
    if offset + 2 > |data| { return None, offset; }
    var n := Length(data[offset], data[offset + 1]);
    offset := offset + 2;
    if offset + n > |data| { return None, offset; }
    scope := Utf8.Decode(data[offset..offset + n]);
    offset := offset + n;
  }

  /** The scope loop of the decoder. */
  method DecodeScopes(data: seq<byte>) returns (r: Option<seq<Text>>)
    ensures r == if data == [] then None else ReadScopes(data[1..], data[0])
  {
    if data == [] { return None; }
    var scopes: seq<Text> := [];
    var offset := 1;
    var left: nat := data[0];
    ghost var whole := ReadScopes(data[1..], data[0]);
    while left > 0
      invariant 1 <= offset <= |data|
      invariant whole == Before(scopes, ReadScopes(data[offset..], left))
    {
      ScopeStep(data, offset, left);
      var scope, next := ReadScope(data, offset);
      if scope.None? { return None; }
      BeforeOne(scopes, scope.value, ReadScopes(data[next..], left - 1));
      scopes, offset, left := scopes + [scope.value], next, left - 1;
    }
    if offset != |data| { return None; }
    return Some(scopes);
  }

  function Before(scopes: seq<Text>, rest: Option<seq<Text>>): (r: Option<seq<Text>>)
    ensures scopes == [] ==> r == rest
    ensures rest == Some([]) ==> r == Some(scopes)
  {
    match rest
    case None => None
    case Some(more) =>
      assert scopes == [] ==> scopes + more == more;
      assert more == [] ==> scopes + more == scopes;
      Some(scopes + more)
  }

  lemma BeforeOne(scopes: seq<Text>, s: Text, rest: Option<seq<Text>>)
    ensures Before(scopes + [s], rest) == Before(scopes, Before([s], rest))
  {
    if rest.Some? { assert scopes + [s] + rest.value == scopes + ([s] + rest.value); }
  }

  // ---- record ----

  predicate PublicFits(id: Option<Text>, count: nat) {
    id.Some? ==> AsciiOf(id.value, count)
  }

  function OptionalField(id: byte, bytes: Option<seq<byte>>): seq<Field> {
    match bytes case None => [] case Some(b) => [Field(id, b)]
  }

  /** A public id of the wrong width is left out without an error. */
  function PublicField(id: byte, public: Option<Text>, count: nat): seq<Field> {
    match public
    case None => []
    case Some(t) => if AsciiOf(t, count) then [Field(id, Utf8.Encode(t))] else []
  }

  predicate RecordEncodable(r: Record) {
    && AsciiOf(r.deviceId, 22) && AsciiOf(r.tokenFamilyId, 36) && AsciiOf(r.refreshToken, 43)
    && ScopesFit(r.scopes) && |r.origin| == 32 && |r.applicationTag| == 32
  }

  function IdentityFields(r: Record): seq<Field> {
    [Field(1, r.origin), Field(2, SUITE), Field(3, r.applicationTag), Field(4, Utf8.Encode(r.deviceId))]
  }

  function PublicFields(r: Record): seq<Field> {
    PublicField(5, r.devicePublicId, 36) + PublicField(6, r.accountPublicId, 37)
  }

  function TokenFields(r: Record): seq<Field> {
    [Field(7, Utf8.Encode(r.tokenFamilyId)), Field(8, U64(r.generation)), Field(9, U64(r.familyAbsoluteExpiresAt)),
     Field(10, Utf8.Encode(r.refreshToken))]
  }

  function TailFields(r: Record): seq<Field>
    requires ScopesFit(r.scopes)
  {
    OptionalField(11, if r.embedded.None? then None else EncodePending(r.embedded.value))
    + [Field(12, [|r.scopes|] + ScopeBytes(r.scopes)), Field(13, U64(r.updatedAt))]
  }

  function RecordFields(r: Record): seq<Field>
    requires ScopesFit(r.scopes)
  {
    IdentityFields(r) + PublicFields(r) + TokenFields(r) + TailFields(r)
  }

  function EncodeRecord(r: Record): Option<seq<byte>> {
    if !RecordEncodable(r) || !Fits(RecordFields(r)) then None
    else
      var fields := RecordFields(r);
      var body := Encode(fields);
      if |body| + 8 > MAX_RECORD then None else Some(Framed(RECORD_MAGIC, |fields|, body))
  }

  function DecodeRecord(data: seq<byte>, rules: Rules): Option<Record> {
    if |data| > MAX_RECORD || !HasHeader(data, RECORD_MAGIC) then None
    else match Parse(data[8..], MAX_RECORD - 8)
      case None => None
      case Some(fields) => RecordOf(fields, rules)
  }

  function ScopesAt(fields: seq<Field>): Option<seq<Text>> {
    match Find(fields, 12)
    case None => None
    case Some(b) => if b == [] then None else ReadScopes(b[1..], b[0])
  }

  function RecordOf(fields: seq<Field>, rules: Rules): Option<Record> {
    match (Find(fields, 1), Find(fields, 2), Find(fields, 3), TextAt(fields, 4))
    case (Some(origin), Some(suite), Some(tag), Some(device)) =>
      if |origin| != 32 || suite != SUITE || |tag| != 32 || origin != rules.origin || tag != rules.applicationTag then None
      else RecordFrom(fields, origin, tag, device)
    case _ => None
  }

  function RecordFrom(fields: seq<Field>, origin: seq<byte>, tag: seq<byte>, device: Text): Option<Record> {
    match (TextAt(fields, 7), NumberAt(fields, 8), NumberAt(fields, 9), TextAt(fields, 10), ScopesAt(fields), NumberAt(fields, 13))
    case (Some(family), Some(generation), Some(absolute), Some(refresh), Some(scopes), Some(updated)) =>
      Some(Record(device, family, refresh, scopes, TextAt(fields, 5), TextAt(fields, 6), updated, generation, absolute,
                  origin, tag, EmbeddedIn(fields)))
    case _ => None
  }

  /** An embedded pending that cannot be read is passed over. */
  function EmbeddedIn(fields: seq<Field>): Option<Pending> {
    match Find(fields, 11) case None => None case Some(b) => DecodePending(b)
  }

  /** The record as it reads back: a public id of the wrong width is gone, and so
      is an embedded pending that cannot be written. */
  function Kept(r: Record): Record {
    r.(devicePublicId := if PublicFits(r.devicePublicId, 36) then r.devicePublicId else None,
       accountPublicId := if PublicFits(r.accountPublicId, 37) then r.accountPublicId else None,
       embedded := if r.embedded.Some? && PendingEncodable(r.embedded.value) then r.embedded else None)
  }

  // ---- record round trip ----

  ghost predicate Within(fields: seq<Field>, low: int, high: int) {
    && (forall i :: 0 <= i < |fields| ==> low <= fields[i].id <= high)
    && (forall i, j :: 0 <= i < j < |fields| ==> fields[i].id < fields[j].id)
  }

  lemma Join(a: seq<Field>, b: seq<Field>, low: int, middle: int, high: int)
    requires Within(a, low, middle) && Within(b, middle + 1, high) && low <= middle < high
    ensures Within(a + b, low, high)
  {
  }

  lemma Outside(fields: seq<Field>, low: int, high: int, id: byte)
    requires Within(fields, low, high) && (id < low || id > high)
    ensures Find(fields, id) == None
  {
    FindNone(fields, id);
  }

  lemma PublicPart(r: Record)
    ensures Within(PublicFields(r), 5, 6)
    ensures TextAt(PublicFields(r), 5) == Kept(r).devicePublicId
    ensures TextAt(PublicFields(r), 6) == Kept(r).accountPublicId
  {
    PublicReads(5, r.devicePublicId, 36);
    PublicReads(6, r.accountPublicId, 37);
    var a, b := PublicField(5, r.devicePublicId, 36), PublicField(6, r.accountPublicId, 37);
    assert Within(a, 5, 5) && Within(b, 6, 6);
    Join(a, b, 5, 5, 6);
    FindAppend(a, b, 5);
    FindAppend(a, b, 6);
    FindNone(a, 6);
    FindNone(b, 5);
  }

  lemma TailPart(r: Record)
    requires ScopesFit(r.scopes)
    ensures Within(TailFields(r), 11, 13)
    ensures Find(TailFields(r), 11) == if r.embedded.None? then None else EncodePending(r.embedded.value)
    ensures Find(TailFields(r), 12) == Some([|r.scopes|] + ScopeBytes(r.scopes))
    ensures Find(TailFields(r), 13) == Some(U64(r.updatedAt))
  {
    var first := OptionalField(11, if r.embedded.None? then None else EncodePending(r.embedded.value));
    var last := [Field(12, [|r.scopes|] + ScopeBytes(r.scopes)), Field(13, U64(r.updatedAt))];
    assert Within(first, 11, 11) && Within(last, 12, 13);
    Join(first, last, 11, 11, 13);
    FindIn(last, 0);
    FindIn(last, 1);
    Outside(last, 12, 13, 11);
    Outside(first, 11, 11, 12);
    Outside(first, 11, 11, 13);
    FindAppend(first, last, 11);
    FindAppend(first, last, 12);
    FindAppend(first, last, 13);
  }

  lemma PublicReads(id: byte, public: Option<Text>, count: nat)
    ensures |PublicField(id, public, count)| <= 1
    ensures forall i :: 0 <= i < |PublicField(id, public, count)| ==> PublicField(id, public, count)[i].id == id
    ensures TextAt(PublicField(id, public, count), id) == if PublicFits(public, count) then public else None
  {
    if public.Some? { Utf8.DecodeEncode(public.value); }
  }

  /** Of four parts in order of their ids each id is found in its own. */
  lemma FindInParts(a: seq<Field>, b: seq<Field>, c: seq<Field>, d: seq<Field>, id: byte)
    requires Within(a, 1, 4) && Within(b, 5, 6) && Within(c, 7, 10) && Within(d, 11, 13)
    ensures Within(a + b + c + d, 1, 13)
    ensures Find(a + b + c + d, id) ==
              if id <= 4 then Find(a, id) else if id <= 6 then Find(b, id) else if id <= 10 then Find(c, id) else Find(d, id)
  {
    Join(a, b, 1, 4, 6);
    Join(a + b, c, 1, 6, 10);
    Join(a + b + c, d, 1, 10, 13);
    FindAppend(a, b, id);
    FindAppend(a + b, c, id);
    FindAppend(a + b + c, d, id);
    if id > 4 { Outside(a, 1, 4, id); }
    if id <= 4 || id > 6 { Outside(b, 5, 6, id); }
    if id <= 6 || id > 10 { Outside(c, 7, 10, id); }
    if id <= 10 { Outside(d, 11, 13, id); }
  }

  lemma FixedParts(r: Record)
    ensures Within(IdentityFields(r), 1, 4) && Within(TokenFields(r), 7, 10)
  {
  }

  /** Where each id of a written record is found. */
  lemma RecordFinds(r: Record, id: byte)
    requires ScopesFit(r.scopes)
    ensures Within(RecordFields(r), 1, 13)
    ensures Find(RecordFields(r), id) ==
              if id <= 4 then Find(IdentityFields(r), id)
              else if id <= 6 then Find(PublicFields(r), id)
              else if id <= 10 then Find(TokenFields(r), id)
              else Find(TailFields(r), id)
  {
    FixedParts(r);
    PublicPart(r);
    TailPart(r);
    FindInParts(IdentityFields(r), PublicFields(r), TokenFields(r), TailFields(r), id);
  }

  lemma IdentityReads(r: Record)
    requires ScopesFit(r.scopes)
    ensures var fields := RecordFields(r);
            && Find(fields, 1) == Some(r.origin) && Find(fields, 2) == Some(SUITE)
            && Find(fields, 3) == Some(r.applicationTag) && TextAt(fields, 4) == Some(r.deviceId)
            && TextAt(fields, 5) == Kept(r).devicePublicId && TextAt(fields, 6) == Kept(r).accountPublicId
  {
    var fields, a := RecordFields(r), IdentityFields(r);
    RecordFinds(r, 1); RecordFinds(r, 2); RecordFinds(r, 3); RecordFinds(r, 4); RecordFinds(r, 5); RecordFinds(r, 6);
    FindIn(a, 0); FindIn(a, 1); FindIn(a, 2); FindIn(a, 3);
    TextReads(fields, 4, r.deviceId);
    PublicPart(r);
  }

  lemma TokensRead(r: Record)
    requires ScopesFit(r.scopes)
    ensures var fields := RecordFields(r);
            && TextAt(fields, 7) == Some(r.tokenFamilyId) && NumberAt(fields, 8) == Some(r.generation)
            && NumberAt(fields, 9) == Some(r.familyAbsoluteExpiresAt) && TextAt(fields, 10) == Some(r.refreshToken)
  {
    var fields, c := RecordFields(r), TokenFields(r);
    RecordFinds(r, 7); RecordFinds(r, 8); RecordFinds(r, 9); RecordFinds(r, 10);
    FindIn(c, 0); FindIn(c, 1); FindIn(c, 2); FindIn(c, 3);
    TextReads(fields, 7, r.tokenFamilyId);
    TextReads(fields, 10, r.refreshToken);
    NumberReads(r.generation);
    NumberReads(r.familyAbsoluteExpiresAt);
  }

  lemma TailReads(r: Record)
    requires ScopesFit(r.scopes)
    ensures var fields := RecordFields(r);
            && EmbeddedIn(fields) == Kept(r).embedded
            && ScopesAt(fields) == Some(r.scopes) && NumberAt(fields, 13) == Some(r.updatedAt)
  {
    RecordFinds(r, 11); RecordFinds(r, 12); RecordFinds(r, 13);
    TailPart(r);
    ScopesRoundTrip(r.scopes);
    NumberReads(r.updatedAt);
    var b := [|r.scopes|] + ScopeBytes(r.scopes);
    assert b[1..] == ScopeBytes(r.scopes);
    if r.embedded.Some? && PendingEncodable(r.embedded.value) { PendingRoundTrip(r.embedded.value); }
  }

  lemma RecordReads(r: Record, rules: Rules)
    requires RecordEncodable(r)
    ensures RecordOf(RecordFields(r), rules) ==
              if r.origin == rules.origin && r.applicationTag == rules.applicationTag then Some(Kept(r)) else None
  {
    IdentityReads(r);
    FromReads(r, RecordFields(r));
  }

  lemma FromReads(r: Record, fields: seq<Field>)
    requires RecordEncodable(r) && fields == RecordFields(r)
    ensures RecordFrom(fields, r.origin, r.applicationTag, r.deviceId) == Some(Kept(r))
  {
    IdentityReads(r);
    TokensRead(r);
    TailReads(r);
  }

  /** A written record reads back, up to the parts the writer leaves out, in the
      namespace it was written for and in no other. */
  lemma RecordRoundTrip(r: Record, rules: Rules)
    requires EncodeRecord(r).Some?
    ensures DecodeRecord(EncodeRecord(r).value, rules) ==
              if r.origin == rules.origin && r.applicationTag == rules.applicationTag then Some(Kept(r)) else None
  {
    var fields := RecordFields(r);
    RecordFinds(r, 1);
    RecordReads(r, rules);
    FramedReads(RECORD_MAGIC, |fields|, fields);
  }

  /** The shared framing and its field list read back. */
  lemma FramedReads(magic: seq<byte>, count: byte, fields: seq<Field>)
    requires |magic| == 4 && Fits(fields) && Within(fields, 1, 255) && |Encode(fields)| + 8 <= MAX_RECORD
    ensures var s := Framed(magic, count, Encode(fields));
            && |s| <= MAX_RECORD && HasHeader(s, magic) && s[5] == count
            && Parse(s[8..], MAX_RECORD - 8) == Some(fields)
  {
    FramedHas(magic, count, Encode(fields));
    ParseEncode(fields, 0);
  }

  /** Decoding gives back the very record if and only if its public ids have the
      one width and its embedded pending can be written. */
  lemma RecordExact(r: Record, rules: Rules)
    requires EncodeRecord(r).Some? && r.origin == rules.origin && r.applicationTag == rules.applicationTag
    ensures DecodeRecord(EncodeRecord(r).value, rules) == Some(r) <==>
              PublicFits(r.devicePublicId, 36) && PublicFits(r.accountPublicId, 37)
              && (r.embedded.Some? ==> PendingEncodable(r.embedded.value))
  {
    RecordRoundTrip(r, rules);
  }

  /** The record decoder does not look at the field count in the header, so every
      stored record has 255 other spellings. */
  lemma CountNotChecked(data: seq<byte>, count: byte, rules: Rules)
    requires |data| >= 8
    ensures DecodeRecord(data[5 := count], rules) == DecodeRecord(data, rules)
  {
    var other := data[5 := count];
    assert other[..4] == data[..4] && other[8..] == data[8..];
  }

  // ---- metadata ----

  function Texts(m: Metadata): (texts: seq<Option<Text>>)
    ensures |texts| == 5
  {
    [m.deviceId, m.verificationUri, m.displayName, m.platform, m.connectorVersion]
  }

  /** The first `n` texts that are there, numbered from 1. */
  function TextFields(texts: seq<Option<Text>>, n: nat): seq<Field>
    requires n <= |texts| < 256
  {
    if n == 0 then [] else TextFields(texts, n - 1) + TextField(n, texts[n - 1])
  }

  function MetadataFields(m: Metadata): seq<Field> { TextFields(Texts(m), |Texts(m)|) }

  function TextField(id: byte, text: Option<Text>): seq<Field> {
    match text case None => [] case Some(t) => [Field(id, Utf8.Encode(t))]
  }

  function EncodeMetadata(m: Metadata): Option<seq<byte>> {
    if Fits(MetadataFields(m)) then Some(Encode(MetadataFields(m))) else None
  }

  /** Every field must be text. */
  predicate AllText(fields: seq<Field>) {
    forall i :: 0 <= i < |fields| ==> Utf8.Decode(fields[i].bytes).Some?
  }

  predicate MetadataIds(fields: seq<Field>) {
    forall i :: 0 <= i < |fields| ==> 1 <= fields[i].id <= 5
  }

  function MetadataOf(fields: seq<Field>): Metadata {
    Metadata(TextAt(fields, 1), TextAt(fields, 2), TextAt(fields, 3), TextAt(fields, 4), TextAt(fields, 5))
  }

  function DecodeMetadata(data: seq<byte>, rules: Rules): Option<Metadata> {
    match Parse(data, MAX_RECORD - 8)
    case None => None
    case Some(fields) =>
      if !MetadataIds(fields) || !AllText(fields) then None
      else if rules.metadata(MetadataOf(fields)) then Some(MetadataOf(fields)) else None
  }

  lemma TextFieldReads(id: byte, text: Option<Text>)
    ensures Within(TextField(id, text), id, id) && AllText(TextField(id, text))
    ensures TextAt(TextField(id, text), id) == text
  {
    if text.Some? { Utf8.DecodeEncode(text.value); }
  }

  lemma TextAdded(a: seq<Field>, n: byte, text: Option<Text>, id: byte)
    requires n > 0 && Within(a, 1, n - 1) && AllText(a)
    ensures Within(a + TextField(n, text), 1, n) && AllText(a + TextField(n, text))
    ensures 1 <= id <= n ==> TextAt(a + TextField(n, text), id) == if id == n then text else TextAt(a, id)
  {
    TextFieldReads(n, text);
    FindAppend(a, TextField(n, text), id);
    if id == n {
      FindNone(a, id);
    } else {
      FindNone(TextField(n, text), id);
    }
  }

  lemma {:induction false} TextFieldsRead(texts: seq<Option<Text>>, n: nat, id: byte)
    requires n <= |texts| < 256
    ensures Within(TextFields(texts, n), 1, n) && AllText(TextFields(texts, n))
    ensures 1 <= id <= n ==> TextAt(TextFields(texts, n), id) == texts[id - 1]
  {
    if n > 0 {
      TextFieldsRead(texts, n - 1, id);
      TextAdded(TextFields(texts, n - 1), n, texts[n - 1], id);
    }
  }

  lemma MetadataTexts(m: Metadata)
    ensures Within(MetadataFields(m), 1, 5) && AllText(MetadataFields(m)) && MetadataOf(MetadataFields(m)) == m
  {
    var texts := Texts(m);
    TextFieldsRead(texts, |texts|, 1);
    TextFieldsRead(texts, |texts|, 2);
    TextFieldsRead(texts, |texts|, 3);
    TextFieldsRead(texts, |texts|, 4);
    TextFieldsRead(texts, |texts|, 5);
  }

  lemma MetadataRoundTrip(m: Metadata, rules: Rules)
    requires EncodeMetadata(m).Some? && |EncodeMetadata(m).value| + 8 <= MAX_RECORD
    ensures DecodeMetadata(EncodeMetadata(m).value, rules) == if rules.metadata(m) then Some(m) else None
  {
    MetadataTexts(m);
    RisingIds(MetadataFields(m));
    ParseEncode(MetadataFields(m), 0);
  }

  lemma RisingIds(fields: seq<Field>)
    requires Within(fields, 1, 5)
    ensures RisingFrom(0, fields) && MetadataIds(fields)
  {
  }

  // ---- envelope ----

  /** The record part is refused when it is not valid or cannot be written. */
  function RecordPart(e: Envelope, rules: Rules): Option<seq<Field>> {
    match e.record
    case None => Some([])
    case Some(stored) =>
      var r := stored.(embedded := None);
      if !ValidRecord(r, rules) then None
      else match EncodeRecord(r) case None => None case Some(b) => Some([Field(1, b)])
  }

  function PendingPart(e: Envelope): Option<seq<Field>> {
    match e.pending
    case Present(p) => (match EncodePending(p) case None => None case Some(b) => Some([Field(2, b)]))
    case _ => Some([])
  }

  function MetadataPart(e: Envelope, rules: Rules): Option<seq<Field>> {
    match e.metadata
    case None => Some([])
    case Some(m) =>
      if !rules.metadata(m) then None
      else match EncodeMetadata(m) case None => None case Some(b) => Some([Field(3, b)])
  }

  function EnvelopeFields(e: Envelope, rules: Rules): Option<seq<Field>> {
    match (RecordPart(e, rules), PendingPart(e), MetadataPart(e, rules))
    case (Some(a), Some(b), Some(c)) => Some(a + b + c)
    case _ => None
  }

  function EncodeEnvelope(e: Envelope, rules: Rules): Option<seq<byte>> {
    match EnvelopeFields(e, rules)
    case None => None
    case Some(fields) =>
      if fields == [] || |fields| > 3 || !Fits(fields) || |Encode(fields)| + 8 > MAX_RECORD then None
      else Some(Framed(ENVELOPE_MAGIC, |fields|, Encode(fields)))
  }

  function DecodeEnvelope(data: seq<byte>, rules: Rules): Option<Envelope> {
    if |data| > MAX_RECORD || !HasHeader(data, ENVELOPE_MAGIC) then None
    else match Parse(data[8..], MAX_RECORD - 8)
      case None => None
      case Some(fields) =>
        if |fields| != data[5] || !KnownParts(fields) then None else EnvelopeOf(fields, rules)
  }

  predicate KnownParts(fields: seq<Field>) {
    forall i :: 0 <= i < |fields| ==> 1 <= fields[i].id <= 3
  }

  function EnvelopeOf(fields: seq<Field>, rules: Rules): Option<Envelope> {
    match (RecordIn(Find(fields, 1), rules), PendingIn(Find(fields, 2)), MetadataIn(Find(fields, 3), rules))
    case (Ok(record), Ok(pending), Ok(metadata)) => if fields == [] then None else Some(Envelope(record, pending, metadata))
    case _ => None
  }

  /** A part that is there must be readable. */
  function RecordIn(bytes: Option<seq<byte>>, rules: Rules): Result<Option<Record>, ()> {
    match bytes
    case None => Ok(None)
    case Some(b) => match DecodeRecord(b, rules) case None => Err(()) case Some(r) => Ok(Some(r))
  }

  function PendingIn(bytes: Option<seq<byte>>): Result<PendingSlot, ()> {
    match bytes
    case None => Ok(Absent)
    case Some(b) => match DecodePending(b) case None => Err(()) case Some(p) => Ok(Present(p))
  }

  function MetadataIn(bytes: Option<seq<byte>>, rules: Rules): Result<Option<Metadata>, ()> {
    match bytes
    case None => Ok(None)
    case Some(b) => match DecodeMetadata(b, rules) case None => Err(()) case Some(m) => Ok(Some(m))
  }

  /** The envelope as it is stored: no pending inside the record, no public id of
      the wrong width, and no null pending. */
  function Stored(e: Envelope): Envelope {
    Envelope(match e.record case None => None case Some(r) => Some(Kept(r.(embedded := None))),
             if e.pending.Present? then e.pending else Absent,
             e.metadata)
  }

  /** Every part of a written envelope is no longer than the whole. */
  lemma {:induction false} PartsAreShort(fields: seq<Field>, k: nat)
    requires Fits(fields) && k < |fields|
    ensures |fields[k].bytes| <= |Encode(fields)|
  {
    if k > 0 { PartsAreShort(fields[1..], k - 1); }
  }

  lemma PartFinds(a: seq<Field>, b: seq<Field>, c: seq<Field>)
    requires Within(a, 1, 1) && Within(b, 2, 2) && Within(c, 3, 3)
    ensures Within(a + b + c, 1, 3)
    ensures Find(a + b + c, 1) == Find(a, 1) && Find(a + b + c, 2) == Find(b, 2) && Find(a + b + c, 3) == Find(c, 3)
  {
    Join(a, b, 1, 1, 2);
    Join(a + b, c, 1, 2, 3);
    FindAppend(a, b, 1); FindAppend(a, b, 2); FindAppend(a, b, 3);
    FindAppend(a + b, c, 1); FindAppend(a + b, c, 2); FindAppend(a + b, c, 3);
    Outside(b, 2, 2, 1); Outside(c, 3, 3, 1);
    Outside(a, 1, 1, 2); Outside(c, 3, 3, 2);
    Outside(a, 1, 1, 3); Outside(b, 2, 2, 3);
  }

  lemma RecordPartReads(e: Envelope, rules: Rules)
    requires RecordPart(e, rules).Some?
    ensures var a := RecordPart(e, rules).value;
            Within(a, 1, 1) && RecordIn(Find(a, 1), rules) == Ok(Stored(e).record)
  {
    if e.record.Some? { RecordRoundTrip(e.record.value.(embedded := None), rules); }
  }

  lemma PendingPartReads(e: Envelope)
    requires PendingPart(e).Some?
    ensures var b := PendingPart(e).value;
            Within(b, 2, 2) && PendingIn(Find(b, 2)) == Ok(Stored(e).pending)
  {
    if e.pending.Present? { PendingRoundTrip(e.pending.pending); }
  }

  lemma MetadataPartReads(e: Envelope, rules: Rules)
    requires MetadataPart(e, rules).Some?
    ensures Within(MetadataPart(e, rules).value, 3, 3)
    ensures var c := MetadataPart(e, rules).value;
            (forall k :: 0 <= k < |c| ==> |c[k].bytes| + 8 <= MAX_RECORD) ==> MetadataIn(Find(c, 3), rules) == Ok(e.metadata)
  {
    var c := MetadataPart(e, rules).value;
    if e.metadata.Some? && |c[0].bytes| + 8 <= MAX_RECORD { MetadataRoundTrip(e.metadata.value, rules); }
  }

  lemma LastIsShort(a: seq<Field>, c: seq<Field>)
    requires Fits(a + c)
    ensures forall k :: 0 <= k < |c| ==> |c[k].bytes| <= |Encode(a + c)|
  {
    forall k | 0 <= k < |c| ensures |c[k].bytes| <= |Encode(a + c)| {
      assert (a + c)[|a| + k] == c[k];
      PartsAreShort(a + c, |a| + k);
    }
  }

  lemma EnvelopeReads(e: Envelope, rules: Rules)
    requires EnvelopeFields(e, rules).Some?
    requires var fields := EnvelopeFields(e, rules).value;
             fields != [] && Fits(fields) && |Encode(fields)| + 8 <= MAX_RECORD
    ensures Within(EnvelopeFields(e, rules).value, 1, 3)
    ensures EnvelopeOf(EnvelopeFields(e, rules).value, rules) == Some(Stored(e))
  {
    var a, b, c := RecordPart(e, rules).value, PendingPart(e).value, MetadataPart(e, rules).value;
    var fields := a + b + c;
    RecordPartReads(e, rules);
    PendingPartReads(e);
    MetadataPartReads(e, rules);
    PartFinds(a, b, c);
    LastIsShort(a + b, c);
  }

  lemma ReadsFramed(data: seq<byte>, fields: seq<Field>, rules: Rules)
    requires |data| <= MAX_RECORD && HasHeader(data, ENVELOPE_MAGIC) && data[5] == |fields| && KnownParts(fields)
    requires Parse(data[8..], MAX_RECORD - 8) == Some(fields)
    ensures DecodeEnvelope(data, rules) == EnvelopeOf(fields, rules)
  {
  }

  /** A written envelope fits the keychain item and reads back as it was stored. */
  lemma EnvelopeRoundTrip(e: Envelope, rules: Rules)
    requires EncodeEnvelope(e, rules).Some?
    ensures |EncodeEnvelope(e, rules).value| <= MAX_RECORD
    ensures DecodeEnvelope(EncodeEnvelope(e, rules).value, rules) == Some(Stored(e))
  {
    var fields := EnvelopeFields(e, rules).value;
    EnvelopeReads(e, rules);
    FramedReads(ENVELOPE_MAGIC, |fields|, fields);
    ReadsFramed(Framed(ENVELOPE_MAGIC, |fields|, Encode(fields)), fields, rules);
  }
}
