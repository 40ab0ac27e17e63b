/** The patterns of the public ids, and what they let through. */
module CredentialIds {
  import opened Common
  import opened Tlv
  import opened CredentialCodec
  import CredentialSizes

  /** "dev_" */
  const DEVICE: Text := [0x64, 0x65, 0x76, 0x5F]

  /** "acct_" */
  const ACCOUNT: Text := [0x61, 0x63, 0x63, 0x74, 0x5F]

  predicate Hex(t: Text) {
    forall i :: 0 <= i < |t| ==> 0x30 <= t[i] <= 0x39 || 0x61 <= t[i] <= 0x66
  }

  /** A line terminator of the ICU regular expressions. */
  predicate LineEnd(t: Text) {
    t == [0x0D, 0x0A] || (|t| == 1 && (0x0A <= t[0] <= 0x0D || t[0] == 0x85 || t[0] == 0x2028 || t[0] == 0x2029))
  }

  /** `^prefix[0-9a-f]{32}$`: outside of the multi-line mode `$` matches at the end
      of the text and before a line terminator at the end of the text. */
  predicate Matches(t: Text, prefix: Text) {
    var n := |prefix| + 32;
    |t| >= n && t[..|prefix|] == prefix && Hex(t[|prefix|..n]) && (|t| == n || LineEnd(t[n..]))
  }

  ghost predicate PublicRules(rules: Rules) {
    && (forall t :: rules.devicePublic(t) <==> Matches(t, DEVICE))
    && (forall t :: rules.accountPublic(t) <==> Matches(t, ACCOUNT))
  }

  /** The id ends with a line terminator. */
  predicate Ended(id: Option<Text>) {
    id.Some? && id.value != [] && (var last := id.value[|id.value| - 1]; LineEnd([last]))
  }

  lemma MatchedFits(t: Text, prefix: Text)
    requires Matches(t, prefix) && (prefix == DEVICE || prefix == ACCOUNT)
    ensures AsciiOf(t, |prefix| + 32) <==> !Ended(Some(t))
  {
    var p, n := |prefix|, |prefix| + 32;
    if |t| == n {
      assert t[|t| - 1] == t[p..n][31];
      forall i | 0 <= i < n ensures t[i] < 0x80 {
        if i < p { assert t[i] == t[..p][i]; } else { assert t[i] == t[p..n][i - p]; }
      }
    } else {
      assert t[|t| - 1] == t[n..][|t| - n - 1];
    }
  }

  /** A written valid record reads back unchanged exactly if neither public id ends
      with a line terminator. */
  lemma ValidReturnsIff(r: Record, rules: Rules)
    requires PublicRules(rules) && ValidRecord(r, rules) && EncodeRecord(r).Some?
    ensures DecodeRecord(EncodeRecord(r).value, rules) == Some(r) <==> !Ended(r.devicePublicId) && !Ended(r.accountPublicId)
  {
    RecordExact(r, rules);
    if r.devicePublicId.Some? { MatchedFits(r.devicePublicId.value, DEVICE); }
    if r.accountPublicId.Some? { MatchedFits(r.accountPublicId.value, ACCOUNT); }
  }

  /** A valid record stays valid when a line terminator is put behind its device id,
      and then it is written and read back without the id. */
  lemma LineEndDropsId(r: Record, end: Text, rules: Rules)
    requires PublicRules(rules) && ValidRecord(r, rules) && EncodeRecord(r).Some? && LineEnd(end)
    requires r.devicePublicId.Some? && !Ended(r.devicePublicId)
    ensures var longer := r.(devicePublicId := Some(r.devicePublicId.value + end));
            && ValidRecord(longer, rules) && EncodeRecord(longer).Some?
            && DecodeRecord(EncodeRecord(longer).value, rules) == Some(Kept(r.(devicePublicId := None)))
  {
    var t := r.devicePublicId.value;
    var longer := r.(devicePublicId := Some(t + end));
    MatchedFits(t, DEVICE);
    assert (t + end)[..4] == t[..4] && (t + end)[4..36] == t[4..36] && (t + end)[36..] == end;
    assert Matches(t + end, DEVICE);
    ShorterWritten(r, longer);
    RecordRoundTrip(longer, rules);
  }

  /** Leaving an id out only makes the record smaller. */
  lemma ShorterWritten(r: Record, longer: Record)
    requires EncodeRecord(r).Some? && longer == r.(devicePublicId := longer.devicePublicId) && !PublicFits(longer.devicePublicId, 36)
    ensures EncodeRecord(longer).Some?
  {
    CredentialSizes.RecordWrittenIff(r);
    CredentialSizes.RecordWrittenIff(longer);
  }
}
