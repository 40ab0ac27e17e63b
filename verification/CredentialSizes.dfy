/** When a credential envelope can be written: the size of what is stored. */
module CredentialSizes {
  import opened Common
  import opened Bytes
  import opened Tlv
  import opened CredentialCodec
  import Utf8

  function Size(fields: seq<Field>): nat {
    if fields == [] then 0 else 3 + |fields[0].bytes| + Size(fields[1..])
  }

  lemma {:induction false} SizeIs(fields: seq<Field>)
    requires Fits(fields)
    ensures |Encode(fields)| == Size(fields)
  {
    if fields != [] { SizeIs(fields[1..]); }
  }

  lemma {:induction false} SizeAppend(a: seq<Field>, b: seq<Field>)
    ensures Size(a + b) == Size(a) + Size(b)
  {
    if a == [] {
      assert a + b == b;
    } else {
      assert (a + b)[1..] == a[1..] + b;
      SizeAppend(a[1..], b);
    }
  }

  lemma {:induction false} SmallFits(fields: seq<Field>)
    requires Size(fields) < 0x1_0000
    ensures Fits(fields)
  {
    if fields != [] { SmallFits(fields[1..]); }
  }

  lemma SizeOne(f: Field)
    ensures Size([f]) == 3 + |f.bytes|
  {
    assert [f][1..] == [];
  }

  lemma SizeFour(a: Field, b: Field, c: Field, d: Field)
    ensures Size([a, b, c, d]) == 12 + |a.bytes| + |b.bytes| + |c.bytes| + |d.bytes|
  {
    SizeOne(a);
    SizeOne(b);
    SizeOne(c);
    SizeOne(d);
    SizeAppend([a], [b]);
    SizeAppend([a, b], [c]);
    SizeAppend([a, b, c], [d]);
    assert [a] + [b] == [a, b] && [a, b] + [c] == [a, b, c] && [a, b, c] + [d] == [a, b, c, d];
  }

  // ---- records ----

  function ScopesSize(scopes: seq<Text>): nat {
    if scopes == [] then 0 else 2 + |Utf8.Encode(scopes[0])| + ScopesSize(scopes[1..])
  }

  lemma {:induction false} ScopesSizeIs(scopes: seq<Text>)
    requires ScopesFit(scopes)
    ensures |ScopeBytes(scopes)| == ScopesSize(scopes)
  {
    if scopes != [] { ScopesSizeIs(scopes[1..]); }
  }

  /** A pending refresh that can be written always takes as many bytes. */
  const PENDING_SIZE: nat := 139

  /** The bytes of a record: its fixed parts, the ids that fit, and its scopes. */
  function RecordSize(r: Record): nat {
    239 + (if r.devicePublicId.Some? && PublicFits(r.devicePublicId, 36) then 39 else 0)
    + (if r.accountPublicId.Some? && PublicFits(r.accountPublicId, 37) then 40 else 0)
    + (if r.embedded.Some? && PendingEncodable(r.embedded.value) then 3 + PENDING_SIZE else 0)
    + ScopesSize(r.scopes)
  }

  lemma PendingBytes(p: Pending)
    requires PendingEncodable(p)
    ensures EncodePending(p).Some? && |EncodePending(p).value| == PENDING_SIZE
  {
    PendingSize(p);
  }

  lemma PublicBytes(id: byte, public: Option<Text>, count: nat)
    ensures Size(PublicField(id, public, count)) == if public.Some? && PublicFits(public, count) then 3 + count else 0
  {
    if public.Some? && PublicFits(public, count) {
      Utf8.AsciiEncodes(public.value);
      SizeOne(Field(id, Utf8.Encode(public.value)));
    }
  }

  lemma TailSize(r: Record)
    requires ScopesFit(r.scopes)
    ensures Size(TailFields(r)) ==
              15 + ScopesSize(r.scopes) + (if r.embedded.Some? && PendingEncodable(r.embedded.value) then 3 + PENDING_SIZE else 0)
  {
    var first := OptionalField(11, if r.embedded.None? then None else EncodePending(r.embedded.value));
    var scopes, updated := Field(12, [|r.scopes|] + ScopeBytes(r.scopes)), Field(13, U64(r.updatedAt));
    ScopesSizeIs(r.scopes);
    if r.embedded.Some? && PendingEncodable(r.embedded.value) {
      PendingBytes(r.embedded.value);
      SizeOne(first[0]);
    }
    SizeOne(scopes);
    SizeOne(updated);
    SizeAppend([scopes], [updated]);
    assert [scopes] + [updated] == [scopes, updated];
    SizeAppend(first, [scopes, updated]);
  }

  lemma FixedSizes(r: Record)
    requires RecordEncodable(r)
    ensures Size(IdentityFields(r)) == 109 && Size(TokenFields(r)) == 107
  {
    var a, c := IdentityFields(r), TokenFields(r);
    Utf8.AsciiEncodes(r.deviceId);
    Utf8.AsciiEncodes(r.tokenFamilyId);
    Utf8.AsciiEncodes(r.refreshToken);
    SizeFour(a[0], a[1], a[2], a[3]);
    SizeFour(c[0], c[1], c[2], c[3]);
  }

  lemma RecordSizeIs(r: Record)
    requires RecordEncodable(r)
    ensures Size(RecordFields(r)) + 8 == RecordSize(r)
  {
    FixedSizes(r);
    PublicBytes(5, r.devicePublicId, 36);
    PublicBytes(6, r.accountPublicId, 37);
    SizeAppend(PublicField(5, r.devicePublicId, 36), PublicField(6, r.accountPublicId, 37));
    TailSize(r);
    SizeAppend(IdentityFields(r), PublicFields(r));
    SizeAppend(IdentityFields(r) + PublicFields(r), TokenFields(r));
    SizeAppend(IdentityFields(r) + PublicFields(r) + TokenFields(r), TailFields(r));
  }

  /** A record is written exactly if its parts have their widths and it is small enough. */
  lemma RecordWrittenIff(r: Record)
    ensures EncodeRecord(r).Some? <==> RecordEncodable(r) && RecordSize(r) <= MAX_RECORD
    ensures EncodeRecord(r).Some? ==> |EncodeRecord(r).value| == RecordSize(r)
  {
    if RecordEncodable(r) {
      RecordSizeIs(r);
      if RecordSize(r) <= MAX_RECORD { SmallFits(RecordFields(r)); }
      if Fits(RecordFields(r)) { SizeIs(RecordFields(r)); }
    }
  }

  // ---- envelopes ----

  function TextSize(text: Option<Text>): nat { match text case None => 0 case Some(t) => 3 + |Utf8.Encode(t)| }

  function MetadataSize(m: Metadata): nat {
    TextSize(m.deviceId) + TextSize(m.verificationUri) + TextSize(m.displayName) + TextSize(m.platform) + TextSize(m.connectorVersion)
  }

  lemma TextFieldSize(id: byte, text: Option<Text>)
    ensures Size(TextField(id, text)) == TextSize(text)
  {
    if text.Some? { SizeOne(Field(id, Utf8.Encode(text.value))); }
  }

  lemma MoreTexts(texts: seq<Option<Text>>, n: nat)
    requires 0 < n <= |texts| < 256
    ensures Size(TextFields(texts, n)) == Size(TextFields(texts, n - 1)) + TextSize(texts[n - 1])
  {
    TextFieldSize(n, texts[n - 1]);
    SizeAppend(TextFields(texts, n - 1), TextField(n, texts[n - 1]));
  }

  lemma MetadataSizeIs(m: Metadata)
    ensures Size(MetadataFields(m)) == MetadataSize(m)
  {
    var texts := Texts(m);
    MoreTexts(texts, 1);
    MoreTexts(texts, 2);
    MoreTexts(texts, 3);
    MoreTexts(texts, 4);
    MoreTexts(texts, 5);
  }

  lemma MetadataWritten(m: Metadata)
    ensures MetadataSize(m) < 0x1_0000 ==> EncodeMetadata(m).Some?
    ensures EncodeMetadata(m).Some? ==> |EncodeMetadata(m).value| == MetadataSize(m)
  {
    MetadataSizeIs(m);
    if MetadataSize(m) < 0x1_0000 { SmallFits(MetadataFields(m)); }
    if Fits(MetadataFields(m)) { SizeIs(MetadataFields(m)); }
  }

  function Plain(r: Record): Record { r.(embedded := None) }

  /** Some part is there, and every part is valid and has its widths. */
  predicate Writable(e: Envelope, rules: Rules) {
    && (e.record.Some? || e.pending.Present? || e.metadata.Some?)
    && (e.record.Some? ==> ValidRecord(Plain(e.record.value), rules) && RecordEncodable(Plain(e.record.value)))
    && (e.pending.Present? ==> PendingEncodable(e.pending.pending))
    && (e.metadata.Some? ==> rules.metadata(e.metadata.value))
  }

  function EnvelopeSize(e: Envelope): nat {
    8 + (if e.record.Some? then 3 + RecordSize(Plain(e.record.value)) else 0)
    + (if e.pending.Present? then 3 + PENDING_SIZE else 0)
    + (if e.metadata.Some? then 3 + MetadataSize(e.metadata.value) else 0)
  }

  lemma RecordPartSize(e: Envelope, rules: Rules)
    ensures RecordPart(e, rules).Some? <==>
              (e.record.Some? ==> ValidRecord(Plain(e.record.value), rules) && RecordEncodable(Plain(e.record.value))
                                  && RecordSize(Plain(e.record.value)) <= MAX_RECORD)
    ensures RecordPart(e, rules).Some? ==>
              var a := RecordPart(e, rules).value;
              |a| == (if e.record.Some? then 1 else 0)
              && Size(a) == if e.record.Some? then 3 + RecordSize(Plain(e.record.value)) else 0
  {
    if e.record.Some? {
      RecordWrittenIff(Plain(e.record.value));
      if RecordPart(e, rules).Some? { SizeOne(RecordPart(e, rules).value[0]); }
    }
  }

  lemma PendingPartSize(e: Envelope)
    ensures PendingPart(e).Some? <==> (e.pending.Present? ==> PendingEncodable(e.pending.pending))
    ensures PendingPart(e).Some? ==>
              |PendingPart(e).value| == (if e.pending.Present? then 1 else 0)
              && Size(PendingPart(e).value) == if e.pending.Present? then 3 + PENDING_SIZE else 0
  {
    if e.pending.Present? && PendingEncodable(e.pending.pending) {
      PendingBytes(e.pending.pending);
      SizeOne(PendingPart(e).value[0]);
    }
  }

  lemma MetadataPartSize(e: Envelope, rules: Rules)
    ensures MetadataPart(e, rules).Some? ==>
              (e.metadata.Some? ==> rules.metadata(e.metadata.value))
              && |MetadataPart(e, rules).value| == (if e.metadata.Some? then 1 else 0)
              && Size(MetadataPart(e, rules).value) == if e.metadata.Some? then 3 + MetadataSize(e.metadata.value) else 0
    ensures (e.metadata.Some? ==> rules.metadata(e.metadata.value) && MetadataSize(e.metadata.value) < 0x1_0000)
              ==> MetadataPart(e, rules).Some?
  {
    if e.metadata.Some? {
      MetadataWritten(e.metadata.value);
      if MetadataPart(e, rules).Some? { SizeOne(MetadataPart(e, rules).value[0]); }
    }
  }

  /** The size of the fields, and so of the envelope. */
  lemma FieldsSize(e: Envelope, rules: Rules)
    requires EnvelopeFields(e, rules).Some?
    ensures var fields := EnvelopeFields(e, rules).value;
            && Writable(e, rules) == (fields != []) && |fields| <= 3 && Size(fields) + 8 == EnvelopeSize(e)
  {
    var a, b, c := RecordPart(e, rules).value, PendingPart(e).value, MetadataPart(e, rules).value;
    RecordPartSize(e, rules);
    PendingPartSize(e);
    MetadataPartSize(e, rules);
    SizeAppend(a, b);
    SizeAppend(a + b, c);
  }

  /** An envelope is written exactly if its parts can be and the whole takes at most 4096 bytes. */
  lemma EnvelopeWrittenIff(e: Envelope, rules: Rules)
    ensures EncodeEnvelope(e, rules).Some? <==> Writable(e, rules) && EnvelopeSize(e) <= MAX_RECORD
    ensures EncodeEnvelope(e, rules).Some? ==> |EncodeEnvelope(e, rules).value| == EnvelopeSize(e)
  {
    if EnvelopeFields(e, rules).Some? {
      var fields := EnvelopeFields(e, rules).value;
      FieldsSize(e, rules);
      if EnvelopeSize(e) <= MAX_RECORD { SmallFits(fields); }
      if Fits(fields) { SizeIs(fields); }
    }
    if Writable(e, rules) && EnvelopeSize(e) <= MAX_RECORD {
      RecordPartSize(e, rules);
      PendingPartSize(e);
      MetadataPartSize(e, rules);
    }
  }
}
