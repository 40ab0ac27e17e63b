/** What every run of credential calls keeps. */
module CredentialRuns {
  import opened Common
  import opened CredentialCodec
  import opened CredentialSizes
  import opened CredentialSteps

  /** A pending refresh belongs to the generation of the stored record. */
  predicate Coherent(e: Envelope) {
    e.pending.Present? ==> e.record.Some? && e.record.value.generation == e.pending.pending.expectedGeneration
  }

  predicate Inv(c: Content, rules: Rules) {
    match c
    case Missing => true
    case Corrupt => false
    case Held(e) => ValidEnvelope(e, rules) && Coherent(e) && Stored(e) == e
  }

  lemma SaveKeepsInv(c: Content, e: Envelope, keychain: Keychain, rules: Rules, success: Reply, failure: Code)
    requires Inv(c, rules) && ValidEnvelope(e, rules) && Coherent(e)
    ensures Inv(Save(c, e, keychain, rules, success, failure).content, rules)
  {
  }

  lemma StepKeepsInv(c: Content, call: Call, rules: Rules)
    requires Inv(c, rules)
    ensures Inv(Step(c, call, rules).content, rules)
  {
    var e, k := Opened(c), call.keychain;
    match call.request
    case CommitExchange(record) =>
      if ValidRecord(record, rules) { SaveKeepsInv(c, Envelope(Some(record), Null, e.metadata), k, rules, Done, WriteFailed); }
    case MarkRefreshPending(pending) => MarkKeepsInv(c, pending, k, rules);
    case CommitRefresh(pending, next) => RefreshKeepsInv(c, pending, next, k, rules);
    case SaveMetadata(metadata) =>
      if rules.metadata(metadata) { SaveKeepsInv(c, e.(metadata := Some(metadata)), k, rules, Done, WriteFailed); }
    case Delete => SaveKeepsInv(c, EMPTY.(metadata := e.metadata), k, rules, Deleted, DeleteFailed);
    case DeleteMetadata => SaveKeepsInv(c, e.(metadata := None), k, rules, Deleted, DeleteFailed);
    case _ =>
  }

  lemma MarkKeepsInv(c: Content, pending: Pending, k: Keychain, rules: Rules)
    requires Inv(c, rules)
    ensures Inv(OnMark(c, pending, k, rules).content, rules)
  {
  }

  lemma RefreshKeepsInv(c: Content, pending: Pending, next: Record, k: Keychain, rules: Rules)
    requires Inv(c, rules)
    ensures Inv(OnRefresh(c, pending, next, k, rules).content, rules)
  {
  }

  /** From an item the helper wrote itself, or none, no run with whatever faults
      reaches a corrupt item, an invalid record, or a pending refresh without the
      record it refreshes. */
  lemma {:induction false} RunKeepsInv(c: Content, calls: seq<Call>, rules: Rules)
    requires Inv(c, rules)
    ensures Inv(After(c, calls, rules), rules)
    decreases |calls|
  {
    if calls != [] {
      StepKeepsInv(c, calls[0], rules);
      RunKeepsInv(Step(c, calls[0], rules).content, calls[1..], rules);
    }
  }

  /** No call changes an item that does not decode, and every call is refused. */
  lemma {:induction false} CorruptStays(calls: seq<Call>, rules: Rules)
    ensures After(Corrupt, calls, rules) == Corrupt
    ensures forall i :: 0 <= i < |calls| ==> Step(Corrupt, calls[i], rules).reply.Refused?
    decreases |calls|
  {
    if calls != [] {
      CorruptStays(calls[1..], rules);
      forall i | 0 <= i < |calls| ensures Step(Corrupt, calls[i], rules).reply.Refused? {
        if i > 0 { assert calls[i] == calls[1..][i - 1]; }
      }
    }
  }

  /** A refused call changes nothing. */
  lemma RefusedChangesNothing(c: Content, call: Call, rules: Rules)
    requires Step(c, call, rules).reply.Refused? || Step(c, call, rules).reply.Trapped?
    ensures Step(c, call, rules).content == c
  {
  }

  predicate OnMetadata(request: Request) { request.LoadMetadata? || request.SaveMetadata? || request.DeleteMetadata? }

  /** The credential calls never touch the metadata, and the metadata calls never
      touch the record or the pending refresh. */
  lemma PartsApart(c: Content, call: Call, rules: Rules)
    requires Inv(c, rules)
    ensures var after := Step(c, call, rules).content;
            if OnMetadata(call.request) then
              Opened(after).pending == Opened(c).pending && Opened(after).record == Opened(c).record
            else Opened(after).metadata == Opened(c).metadata
  {
  }

  /** An exchange or a delete that went through. */
  predicate Resets(c: Content, call: Call, rules: Rules) {
    (call.request.CommitExchange? || call.request.Delete?) && !Step(c, call, rules).reply.Refused?
  }

  predicate Steady(c: Content, calls: seq<Call>, rules: Rules)
    decreases |calls|
  {
    calls == [] || (!Resets(c, calls[0], rules) && Steady(Step(c, calls[0], rules).content, calls[1..], rules))
  }

  /** A refresh that replaced the record, as opposed to a repeated one. */
  predicate Rotates(c: Content, call: Call, rules: Rules) {
    call.request.CommitRefresh? && Step(c, call, rules).reply.Done? && Opened(c).pending.Present?
  }

  function Rotations(c: Content, calls: seq<Call>, rules: Rules): nat
    decreases |calls|
  {
    if calls == [] then 0
    else (if Rotates(c, calls[0], rules) then 1 else 0) + Rotations(Step(c, calls[0], rules).content, calls[1..], rules)
  }

  predicate HasRecord(c: Content) { c.Held? && c.envelope.record.Some? }

  function RecordOf(c: Content): Record
    requires HasRecord(c)
  {
    c.envelope.record.value
  }

  lemma SteadyStep(c: Content, call: Call, rules: Rules)
    requires Inv(c, rules) && HasRecord(c) && !Resets(c, call, rules)
    ensures var after := Step(c, call, rules).content;
            && HasRecord(after)
            && RecordOf(after).familyAbsoluteExpiresAt == RecordOf(c).familyAbsoluteExpiresAt
            && RecordOf(after).generation == RecordOf(c).generation + (if Rotates(c, call, rules) then 1 else 0)
            && (!Rotates(c, call, rules) ==> RecordOf(after).refreshToken == RecordOf(c).refreshToken)
  {
  }

  /** Between exchanges and deletes the generation counts exactly the refreshes
      that replaced the record, the expiry of the token family never moves, and
      the token changes only with the generation. */
  lemma {:induction false} GenerationCountsRotations(c: Content, calls: seq<Call>, rules: Rules)
    requires Inv(c, rules) && HasRecord(c) && Steady(c, calls, rules)
    ensures var end := After(c, calls, rules);
            && HasRecord(end)
            && RecordOf(end).familyAbsoluteExpiresAt == RecordOf(c).familyAbsoluteExpiresAt
            && RecordOf(end).generation == RecordOf(c).generation + Rotations(c, calls, rules)
            && (RecordOf(end).generation == RecordOf(c).generation ==> RecordOf(end).refreshToken == RecordOf(c).refreshToken)
    decreases |calls|
  {
    if calls != [] {
      SteadyStep(c, calls[0], rules);
      StepKeepsInv(c, calls[0], rules);
      GenerationCountsRotations(Step(c, calls[0], rules).content, calls[1..], rules);
    }
  }

  /** What an accepted refresh leaves: the generation and the token of the request,
      and no pending refresh. */
  lemma RefreshLeaves(c: Content, call: Call, rules: Rules)
    requires Inv(c, rules) && call.request.CommitRefresh? && Step(c, call, rules).reply.Done?
    ensures var after := Step(c, call, rules).content;
            && HasRecord(after) && after.envelope.pending.Absent?
            && RecordOf(after).generation == call.request.record.generation == call.request.pending.expectedGeneration + 1
            && RecordOf(after).refreshToken == call.request.record.refreshToken
  {
  }

  /** Two accepted refreshes of one generation carry the same token, however many
      calls and faults lie between them, unless an exchange or a delete came in between. */
  lemma OneTokenPerGeneration(c: Content, first: Call, between: seq<Call>, second: Call, rules: Rules)
    requires Inv(c, rules) && first.request.CommitRefresh? && second.request.CommitRefresh?
    requires first.request.pending.expectedGeneration == second.request.pending.expectedGeneration
    requires Step(c, first, rules).reply.Done?
    requires var middle := Step(c, first, rules).content;
             Steady(middle, between, rules) && Step(After(middle, between, rules), second, rules).reply.Done?
    ensures first.request.record.refreshToken == second.request.record.refreshToken
  {
    var middle := Step(c, first, rules).content;
    StepKeepsInv(c, first, rules);
    RefreshLeaves(c, first, rules);
    GenerationCountsRotations(middle, between, rules);
    RunKeepsInv(middle, between, rules);
    RefreshLeaves(After(middle, between, rules), second, rules);
  }

  /** Calls that leave the record and the pending refresh alone. */
  predicate Bystanders(calls: seq<Call>) {
    forall i :: 0 <= i < |calls| ==> OnMetadata(calls[i].request) || calls[i].request.Load?
  }

  lemma {:induction false} BystandersKeep(c: Content, calls: seq<Call>, rules: Rules)
    requires Inv(c, rules) && HasRecord(c) && Bystanders(calls)
    ensures var end := After(c, calls, rules);
            && HasRecord(end) && end.envelope.pending == c.envelope.pending
            && RecordOf(end).generation == RecordOf(c).generation && RecordOf(end).refreshToken == RecordOf(c).refreshToken
    decreases |calls|
  {
    if calls != [] {
      StepKeepsInv(c, calls[0], rules);
      BystanderKeeps(c, calls[0], rules);
      BystandersKeep(Step(c, calls[0], rules).content, calls[1..], rules);
    }
  }

  lemma BystanderKeeps(c: Content, call: Call, rules: Rules)
    requires Inv(c, rules) && HasRecord(c) && (OnMetadata(call.request) || call.request.Load?)
    ensures var after := Step(c, call, rules).content;
            && HasRecord(after) && after.envelope.pending == c.envelope.pending
            && RecordOf(after).generation == RecordOf(c).generation && RecordOf(after).refreshToken == RecordOf(c).refreshToken
  {
  }

  /** An accepted refresh can be repeated after any metadata calls: it is accepted
      again and changes nothing, whether or not the keychain could be written. */
  lemma RefreshRepeats(c: Content, call: Call, between: seq<Call>, writable: bool, rules: Rules)
    requires Inv(c, rules) && call.request.CommitRefresh? && Step(c, call, rules).reply.Done? && Bystanders(between)
    ensures var now := After(Step(c, call, rules).content, between, rules);
            Step(now, Call(call.request, Keychain(true, writable)), rules) == Outcome(now, Done)
  {
    var after := Step(c, call, rules).content;
    StepKeepsInv(c, call, rules);
    RefreshLeaves(c, call, rules);
    BystandersKeep(after, between, rules);
    RunKeepsInv(after, between, rules);
  }

  /** A marked refresh can be marked again after any metadata calls. */
  lemma MarkRepeats(c: Content, call: Call, between: seq<Call>, writable: bool, rules: Rules)
    requires Inv(c, rules) && call.request.MarkRefreshPending? && Step(c, call, rules).reply.Marked? && Bystanders(between)
    ensures var now := After(Step(c, call, rules).content, between, rules);
            Step(now, Call(call.request, Keychain(true, writable)), rules) == Outcome(now, Marked(call.request.pending))
  {
    var after := Step(c, call, rules).content;
    StepKeepsInv(c, call, rules);
    BystandersKeep(after, between, rules);
    RunKeepsInv(after, between, rules);
  }

  /** The repeat is recognised by generation and token alone: an accepted refresh
      stores the record it was given if and only if a refresh was pending or that
      record was stored already. */
  lemma AcceptedIsStored(c: Content, call: Call, rules: Rules)
    requires Inv(c, rules) && call.request.CommitRefresh? && Step(c, call, rules).reply.Done?
    ensures RecordStored(Step(c, call, rules).content, call.request.record) <==>
              Opened(c).pending.Present? || RecordStored(c, call.request.record)
  {
  }

  predicate RecordStored(c: Content, record: Record) { HasRecord(c) && RecordOf(c) == Kept(record) }

  /** An accepted refresh whose record is not stored: after any exchange that went
      through, with the generation and the token it stored and another time. */
  lemma AcceptedNotStored(r: Record, p: Pending, updated: Number, rules: Rules)
    requires ValidPending(p, rules) && p.expectedGeneration + 1 == r.generation && updated != r.updatedAt
    requires Step(Missing, Call(CommitExchange(r), Keychain(true, true)), rules).reply.Done?
    ensures var after := Step(Missing, Call(CommitExchange(r), Keychain(true, true)), rules).content;
            var next := r.(updatedAt := updated);
            && Step(after, Call(CommitRefresh(p, next), Keychain(true, true)), rules) == Outcome(after, Done)
            && !RecordStored(after, next)
  {
  }

  /** The exchange of any valid record without scopes and public ids goes through. */
  lemma PlainExchange(r: Record, rules: Rules)
    requires ValidRecord(r, rules) && RecordEncodable(r) && r.scopes == [] && r.devicePublicId.None? && r.accountPublicId.None?
    ensures Step(Missing, Call(CommitExchange(r), Keychain(true, true)), rules).reply.Done?
  {
    var e := Envelope(Some(r), Null, None);
    assert Plain(r) == r;
    EnvelopeWrittenIff(e, rules);
  }

  function Filler(n: nat): (t: Text)
    ensures |t| == n && forall i :: 0 <= i < n ==> t[i] == 0x61
  {
    seq(n, _ => 0x61)
  }

  /** Such calls exist: with rules that ask for the widths only. */
  lemma AcceptedNotStoredHappens(rules: Rules, r: Record, p: Pending)
    requires rules == Rules(Filler(32), Filler(32), t => AsciiOf(t, 22), t => AsciiOf(t, 36), t => AsciiOf(t, 43),
                            t => AsciiOf(t, 36), t => AsciiOf(t, 37), t => AsciiOf(t, 22), t => AsciiOf(t, 71), m => true)
    requires r == Record(Filler(22), Filler(36), Filler(43), [], None, None, 0, 1, 1, Filler(32), Filler(32), None)
    requires p == Pending(Filler(22), Filler(71), V1, V1, 0, 0)
    ensures exists c, call: Call :: Inv(c, rules) && call.request.CommitRefresh? && Step(c, call, rules).reply.Done?
                              && !RecordStored(Step(c, call, rules).content, call.request.record)
  {
    PlainExchange(r, rules);
    AcceptedNotStored(r, p, 1, rules);
    var exchange := Call(CommitExchange(r), Keychain(true, true));
    StepKeepsInv(Missing, exchange, rules);
    var c, call := Step(Missing, exchange, rules).content, Call(CommitRefresh(p, r.(updatedAt := 1)), Keychain(true, true));
    assert Step(c, call, rules).reply.Done? && !RecordStored(Step(c, call, rules).content, call.request.record);
  }
}
