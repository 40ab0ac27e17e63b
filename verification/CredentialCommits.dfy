/** Which credential calls are accepted, what each leaves behind, and that a rotation
    commits exactly the refresh that was marked. */
module CredentialCommits {
  import opened Common
  import opened CredentialCodec
  import opened CredentialRuns
  import opened CredentialSizes
  import opened CredentialSteps

  /** The envelope can be written, and the keychain takes it. */
  predicate Storable(e: Envelope, k: Keychain, rules: Rules) { k.writable && Writable(e, rules) && EnvelopeSize(e) <= MAX_RECORD }

  lemma SavesIff(c: Content, e: Envelope, k: Keychain, rules: Rules, success: Reply, failure: Code)
    ensures Save(c, e, k, rules, success, failure) ==
              if Storable(e, k, rules) then Outcome(Held(Stored(e)), success) else Outcome(c, Refused(failure))
  {
    EnvelopeWrittenIff(e, rules);
  }

  // ---- what is accepted ----

  /** A mark is accepted exactly if it is valid, names the stored generation, and is
      either the pending refresh already or the first one and can be stored. */
  lemma MarkAcceptedIff(c: Content, p: Pending, k: Keychain, rules: Rules)
    requires Inv(c, rules)
    ensures var e, reply := Opened(c), Step(c, Call(MarkRefreshPending(p), k), rules).reply;
            && (reply.Marked? <==>
                  && ValidPending(p, rules) && k.readable && e.record.Some? && e.record.value.generation == p.expectedGeneration
                  && (e.pending == Present(p) || (!e.pending.Present? && Storable(e.(pending := Present(p)), k, rules))))
            && (reply.Marked? ==> reply.marked == p)
            && (reply == Refused(PendingConflict) <==>
                  && ValidPending(p, rules) && k.readable && e.record.Some? && e.record.value.generation == p.expectedGeneration
                  && e.pending.Present? && e.pending.pending != p)
  {
    SavesIff(c, Opened(c).(pending := Present(p)), k, rules, Marked(p), WriteFailed);
  }

  /** What a commit of `next` for the refresh `p` must satisfy whatever is stored. */
  predicate Follows(p: Pending, next: Record, rules: Rules) {
    ValidPending(p, rules) && ValidRecord(next, rules) && next.generation == p.expectedGeneration + 1
  }

  /** `p` is the pending refresh, and `next` continues the token family of the stored record. */
  predicate Continues(e: Envelope, p: Pending, next: Record) {
    && e.record.Some? && e.pending == Present(p) && e.record.value.generation == p.expectedGeneration
    && e.record.value.familyAbsoluteExpiresAt == next.familyAbsoluteExpiresAt
  }

  /** The stored record has the generation and the token of `next`, and nothing is pending. */
  predicate Repeats(e: Envelope, next: Record) {
    && e.record.Some? && !e.pending.Present? && e.record.value.generation == next.generation
    && e.record.value.refreshToken == next.refreshToken
  }

  /** A commit is accepted exactly if it repeats the last one, or commits the pending
      refresh itself within the token family and can be stored. */
  lemma CommitAcceptedIff(c: Content, p: Pending, next: Record, k: Keychain, rules: Rules)
    requires Inv(c, rules)
    ensures var e, reply := Opened(c), Step(c, Call(CommitRefresh(p, next), k), rules).reply;
            && (reply.Done? <==>
                  && Follows(p, next, rules) && k.readable
                  && (Repeats(e, next) || (Continues(e, p, next) && Storable(Envelope(Some(next), Null, e.metadata), k, rules))))
            && (reply == Refused(CommitConflict) <==>
                  && Follows(p, next, rules) && k.readable && e.record.Some? && !Repeats(e, next)
                  && (e.pending != Present(p) || e.record.value.generation != p.expectedGeneration))
            && (reply == Refused(FamilyExpiryConflict) <==>
                  && Follows(p, next, rules) && k.readable && e.record.Some? && e.pending == Present(p)
                  && e.record.value.generation == p.expectedGeneration
                  && e.record.value.familyAbsoluteExpiresAt != next.familyAbsoluteExpiresAt)
  {
    SavesIff(c, Envelope(Some(next), Null, Opened(c).metadata), k, rules, Done, WriteFailed);
  }

  /** An exchange is accepted exactly if the record is valid and can be stored beside the metadata. */
  lemma ExchangeAcceptedIff(c: Content, r: Record, k: Keychain, rules: Rules)
    requires Inv(c, rules)
    ensures Step(c, Call(CommitExchange(r), k), rules).reply.Done? <==>
              ValidRecord(r, rules) && k.readable && Storable(Envelope(Some(r), Null, Opened(c).metadata), k, rules)
  {
    SavesIff(c, Envelope(Some(r), Null, Opened(c).metadata), k, rules, Done, WriteFailed);
  }

  /** A commit traps exactly at the largest generation, if there is a record at all. */
  lemma TrappedIff(c: Content, p: Pending, next: Record, k: Keychain, rules: Rules)
    requires Inv(c, rules)
    ensures Step(c, Call(CommitRefresh(p, next), k), rules).reply.Trapped? <==>
              && ValidPending(p, rules) && ValidRecord(next, rules) && k.readable && Opened(c).record.Some?
              && p.expectedGeneration == 9_223_372_036_854_775_807
  {
    SavesIff(c, Envelope(Some(next), Null, Opened(c).metadata), k, rules, Done, WriteFailed);
  }

  /** Loads ask only for a readable item, deletes for a writable one that can hold what
      stays, and metadata is saved exactly if it is valid and fits beside the rest. */
  lemma OthersAcceptedIff(c: Content, m: Metadata, k: Keychain, rules: Rules)
    requires Inv(c, rules)
    ensures Step(c, Call(Load, k), rules).reply.Credentials? <==> k.readable
    ensures Step(c, Call(LoadMetadata, k), rules).reply.Info? <==> k.readable
    ensures var e := Opened(c);
            && (Step(c, Call(Delete, k), rules).reply.Deleted? <==>
                  k.readable && if e.metadata.Some? then Storable(Envelope(None, Absent, e.metadata), k, rules) else k.writable)
            && (Step(c, Call(DeleteMetadata, k), rules).reply.Deleted? <==>
                  k.readable && if e.record.Some? then Storable(e.(metadata := None), k, rules) else k.writable)
            && (Step(c, Call(SaveMetadata(m), k), rules).reply.Done? <==>
                  rules.metadata(m) && k.readable && Storable(e.(metadata := Some(m)), k, rules))
  {
    var e := Opened(c);
    SavesIff(c, Envelope(None, Absent, e.metadata), k, rules, Deleted, DeleteFailed);
    SavesIff(c, e.(metadata := None), k, rules, Deleted, DeleteFailed);
    SavesIff(c, e.(metadata := Some(m)), k, rules, Done, WriteFailed);
  }

  /** Of this helper, with ids and a token of the right form and a family that expires
      at a positive time, public ids if given of the right form, and nothing embedded. */
  ghost predicate Proper(r: Record, rules: Rules) {
    && r.origin == rules.origin && r.applicationTag == rules.applicationTag && r.embedded == None
    && rules.deviceId(r.deviceId) && rules.family(r.tokenFamilyId) && rules.refresh(r.refreshToken) && 1 <= r.familyAbsoluteExpiresAt
    && (forall t :: r.devicePublicId == Some(t) ==> rules.devicePublic(t))
    && forall t :: r.accountPublicId == Some(t) ==> rules.accountPublic(t)
  }

  /** A pending refresh with its key and digest of the right form, both versions "v1". */
  ghost predicate ProperPending(p: Pending, rules: Rules) {
    rules.idempotency(p.idempotencyKey) && rules.digest(p.requestDigest) && p.wireVersion == p.responseVersion == ['v' as int, '1' as int]
  }

  /** Whatever calls were made, what is stored is proper, in every part. */
  lemma StoredIsProper(calls: seq<Call>, rules: Rules)
    ensures var c := After(Missing, calls, rules);
            && (c == Missing || c.Held?)
            && (c.Held? && c.envelope.record.Some? ==> Proper(c.envelope.record.value, rules))
            && (c.Held? && c.envelope.pending.Present? ==>
                  && ProperPending(c.envelope.pending.pending, rules) && c.envelope.record.Some?
                  && c.envelope.record.value.generation == c.envelope.pending.pending.expectedGeneration)
            && (c.Held? && c.envelope.metadata.Some? ==> rules.metadata(c.envelope.metadata.value))
  {
    RunKeepsInv(Missing, calls, rules);
  }

  /** An exchange for an improper record, or a mark of an improper refresh, is refused as
      such, whatever is stored, and for proper ones there are other reasons. */
  lemma ImproperRefusedIff(c: Content, r: Record, p: Pending, k: Keychain, rules: Rules)
    ensures Step(c, Call(CommitExchange(r), k), rules).reply == Refused(RecordInvalid) <==> !Proper(r, rules)
    ensures Step(c, Call(MarkRefreshPending(p), k), rules).reply == Refused(PendingInvalid) <==> !ProperPending(p, rules)
    ensures Step(c, Call(CommitRefresh(p, r), k), rules).reply == Refused(RecordInvalid) <==> !Proper(r, rules) || !ProperPending(p, rules)
  {
  }

  // ---- what is left ----

  /** An accepted call changes exactly its own parts of the envelope. */
  lemma AcceptedLeaves(c: Content, call: Call, rules: Rules)
    requires Inv(c, rules) && !Step(c, call, rules).reply.Refused? && !Step(c, call, rules).reply.Trapped?
    ensures var e, after := Opened(c), Opened(Step(c, call, rules).content);
            match call.request
            case CommitExchange(r) => after == Envelope(Some(Kept(r)), Absent, e.metadata)
            case MarkRefreshPending(p) => after == e.(pending := Present(p))
            case CommitRefresh(p, next) => after == if e.pending.Present? then Envelope(Some(Kept(next)), Absent, e.metadata) else e
            case Delete => after == Envelope(None, Absent, e.metadata)
            case SaveMetadata(m) => after == e.(metadata := Some(m))
            case DeleteMetadata => after == e.(metadata := None)
            case _ => after == e
    ensures call.request.Load? ==> Step(c, call, rules).reply == Credentials(Opened(c).record, Opened(c).pending)
    ensures call.request.LoadMetadata? ==> Step(c, call, rules).reply == Info(Opened(c).metadata)
  {
    StepKeepsInv(c, call, rules);
  }

  // ---- the marked refresh ----

  /** After an accepted mark, and any calls that leave it alone, the commit of that very
      refresh is accepted and stores the new record. */
  lemma MarkedCommits(c: Content, p: Pending, k: Keychain, between: seq<Call>, next: Record, rules: Rules)
    requires Inv(c, rules) && Step(c, Call(MarkRefreshPending(p), k), rules).reply.Marked? && Bystanders(between)
    requires ValidRecord(next, rules) && next.generation == p.expectedGeneration + 1
    requires next.familyAbsoluteExpiresAt == Opened(c).record.value.familyAbsoluteExpiresAt
    requires var now := After(Step(c, Call(MarkRefreshPending(p), k), rules).content, between, rules);
             Writable(Envelope(Some(next), Null, Opened(now).metadata), rules)
             && EnvelopeSize(Envelope(Some(next), Null, Opened(now).metadata)) <= MAX_RECORD
    ensures var now := After(Step(c, Call(MarkRefreshPending(p), k), rules).content, between, rules);
            Step(now, Call(CommitRefresh(p, next), Keychain(true, true)), rules) ==
              Outcome(Held(Envelope(Some(Kept(next)), Absent, Opened(now).metadata)), Done)
  {
    var call := Call(MarkRefreshPending(p), k);
    var marked := Step(c, call, rules).content;
    MarkAcceptedIff(c, p, k, rules);
    AcceptedLeaves(c, call, rules);
    StepKeepsInv(c, call, rules);
    BystandersLeave(marked, between, rules);
    RunKeepsInv(marked, between, rules);
    var now := After(marked, between, rules);
    CommitAcceptedIff(now, p, next, Keychain(true, true), rules);
    AcceptedLeaves(now, Call(CommitRefresh(p, next), Keychain(true, true)), rules);
  }

  lemma {:induction false} BystandersLeave(c: Content, calls: seq<Call>, rules: Rules)
    requires Inv(c, rules) && HasRecord(c) && Bystanders(calls)
    ensures var end := After(c, calls, rules);
            HasRecord(end) && Opened(end).record == Opened(c).record && Opened(end).pending == Opened(c).pending
    decreases |calls|
  {
    if calls != [] {
      StepKeepsInv(c, calls[0], rules);
      BystanderLeaves(c, calls[0], rules);
      BystandersLeave(Step(c, calls[0], rules).content, calls[1..], rules);
    }
  }

  lemma BystanderLeaves(c: Content, call: Call, rules: Rules)
    requires Inv(c, rules) && HasRecord(c) && (OnMetadata(call.request) || call.request.Load?)
    ensures var after := Step(c, call, rules).content;
            HasRecord(after) && Opened(after).record == Opened(c).record && Opened(after).pending == Opened(c).pending
  {
    PartsApart(c, call, rules);
  }

  /** The refresh marked last, unless an exchange, a delete or a rotation came after it. */
  function LastMarked(c: Content, calls: seq<Call>, rules: Rules, before: Option<Pending>): Option<Pending>
    decreases |calls|
  {
    if calls == [] then before
    else
      var out := Step(c, calls[0], rules);
      LastMarked(out.content, calls[1..], rules,
                 match calls[0].request
                 case MarkRefreshPending(p) => if out.reply.Marked? then Some(p) else before
                 case CommitExchange(_) => if out.reply.Done? then None else before
                 case CommitRefresh(_, _) => if out.reply.Done? then None else before
                 case Delete => if out.reply.Deleted? then None else before
                 case _ => before)
  }

  function PendingOf(c: Content): Option<Pending> { if Opened(c).pending.Present? then Some(Opened(c).pending.pending) else None }

  lemma {:induction false} PendingIsLastMarked(c: Content, calls: seq<Call>, rules: Rules)
    requires Inv(c, rules)
    ensures LastMarked(c, calls, rules, PendingOf(c)) == PendingOf(After(c, calls, rules))
    decreases |calls|
  {
    if calls != [] {
      var out := Step(c, calls[0], rules);
      StepKeepsInv(c, calls[0], rules);
      PendingIsLastMarked(out.content, calls[1..], rules);
      if out.reply.Refused? || out.reply.Trapped? {
        RefusedChangesNothing(c, calls[0], rules);
      } else {
        AcceptedLeaves(c, calls[0], rules);
      }
    }
  }

  /** Every rotation in every run commits exactly the refresh that was marked last, on
      the record of the generation it was marked for. */
  lemma RotationsCommitTheMark(calls: seq<Call>, call: Call, rules: Rules)
    requires Rotates(After(Missing, calls, rules), call, rules)
    ensures LastMarked(Missing, calls, rules, None) == Some(call.request.pending)
    ensures var c := After(Missing, calls, rules);
            && Opened(c).record.Some? && Opened(c).record.value.generation == call.request.pending.expectedGeneration
            && call.request.record.generation == Opened(c).record.value.generation + 1
  {
    var c := After(Missing, calls, rules);
    RunKeepsInv(Missing, calls, rules);
    PendingIsLastMarked(Missing, calls, rules);
    CommitAcceptedIff(c, call.request.pending, call.request.record, call.keychain, rules);
  }
}
