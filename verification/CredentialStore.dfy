/** The operations of the credential helper: first as steps on what the keychain
    item means, then as methods on its bytes. */
module CredentialSteps {
  import opened Common
  import opened CredentialCodec

  /** What the keychain item holds, read through the envelope decoder. */
  datatype Content = Missing | Corrupt | Held(envelope: Envelope)

  datatype Request =
    | Load
    | CommitExchange(record: Record)
    | MarkRefreshPending(pending: Pending)
    | CommitRefresh(pending: Pending, record: Record)
    | Delete
    | LoadMetadata
    | SaveMetadata(metadata: Metadata)
    | DeleteMetadata

  /** Whether the keychain answers the query, and whether it takes the change. */
  datatype Keychain = Keychain(readable: bool, writable: bool)

  datatype Call = Call(request: Request, keychain: Keychain)

  datatype Code =
    | RecordInvalid | PendingInvalid | MetadataShape | Corrupted | QueryFailed | NotFound
    | GenerationConflict | PendingConflict | CommitConflict | FamilyExpiryConflict | WriteFailed | DeleteFailed

  /** `Trapped`: the arithmetic on the generation overflows and the process ends. */
  datatype Reply =
    | Done
    | Deleted
    | Credentials(record: Option<Record>, pending: PendingSlot)
    | Marked(marked: Pending)
    | Info(info: Option<Metadata>)
    | Refused(code: Code)
    | Trapped

  datatype Outcome = Outcome(content: Content, reply: Reply)

  const EMPTY: Envelope := Envelope(None, Absent, None)

  /** What stops an operation right after it has read the item. */
  function Obstacle(c: Content, keychain: Keychain, rules: Rules): Option<Code> {
    if !keychain.readable then Some(QueryFailed)
    else match c
      case Missing => None
      case Corrupt => Some(Corrupted)
      case Held(e) => if ValidEnvelope(e, rules) then None else Some(Corrupted)
  }

  function Opened(c: Content): Envelope { if c.Held? then c.envelope else EMPTY }

  function Save(c: Content, e: Envelope, keychain: Keychain, rules: Rules, success: Reply, failure: Code): Outcome {
    if keychain.writable && EncodeEnvelope(e, rules).Some? then Outcome(Held(Stored(e)), success)
    else Outcome(c, Refused(failure))
  }

  function Remove(c: Content, keychain: Keychain): Outcome {
    if keychain.writable then Outcome(Missing, Deleted) else Outcome(c, Refused(DeleteFailed))
  }

  function OnLoad(c: Content, keychain: Keychain, rules: Rules): Reply {
    match Obstacle(c, keychain, rules)
    case Some(code) => Refused(code)
    case None => Credentials(Opened(c).record, Opened(c).pending)
  }

  function OnExchange(c: Content, record: Record, keychain: Keychain, rules: Rules): Outcome {
    if !ValidRecord(record, rules) then Outcome(c, Refused(RecordInvalid))
    else match Obstacle(c, keychain, rules)
      case Some(code) => Outcome(c, Refused(code))
      case None => Save(c, Envelope(Some(record), Null, Opened(c).metadata), keychain, rules, Done, WriteFailed)
  }

  function OnMark(c: Content, pending: Pending, keychain: Keychain, rules: Rules): Outcome {
    if !ValidPending(pending, rules) then Outcome(c, Refused(PendingInvalid))
    else match Obstacle(c, keychain, rules)
      case Some(code) => Outcome(c, Refused(code))
      case None =>
        if c.Missing? then Outcome(c, Refused(NotFound))
        else MarkIn(c, Opened(c), pending, keychain, rules)
  }

  function MarkIn(c: Content, e: Envelope, pending: Pending, keychain: Keychain, rules: Rules): Outcome {
    if e.record.None? || e.record.value.generation != pending.expectedGeneration then Outcome(c, Refused(GenerationConflict))
    else if e.pending.Present? then Outcome(c, if e.pending.pending == pending then Marked(pending) else Refused(PendingConflict))
    else Save(c, e.(pending := Present(pending)), keychain, rules, Marked(pending), WriteFailed)
  }

  function OnRefresh(c: Content, pending: Pending, next: Record, keychain: Keychain, rules: Rules): Outcome {
    if !ValidPending(pending, rules) || !ValidRecord(next, rules) then Outcome(c, Refused(RecordInvalid))
    else match Obstacle(c, keychain, rules)
      case Some(code) => Outcome(c, Refused(code))
      case None =>
        if c.Missing? then Outcome(c, Refused(NotFound))
        else RefreshIn(c, Opened(c), pending, next, keychain, rules)
  }

  function RefreshIn(c: Content, e: Envelope, pending: Pending, next: Record, keychain: Keychain, rules: Rules): Outcome {
    if e.record.None? then Outcome(c, Refused(GenerationConflict))
    else if pending.expectedGeneration == 0x7FFF_FFFF_FFFF_FFFF then Outcome(c, Trapped)
    else if next.generation != pending.expectedGeneration + 1 then Outcome(c, Refused(GenerationConflict))
    else if e.record.value.generation == next.generation && e.record.value.refreshToken == next.refreshToken && !e.pending.Present? then
      Outcome(c, Done)
    else if e.pending != Present(pending) || e.record.value.generation != pending.expectedGeneration then
      Outcome(c, Refused(CommitConflict))
    else if e.record.value.familyAbsoluteExpiresAt != next.familyAbsoluteExpiresAt then
      Outcome(c, Refused(FamilyExpiryConflict))
    else Save(c, Envelope(Some(next), Null, e.metadata), keychain, rules, Done, WriteFailed)
  }

  function OnDelete(c: Content, keychain: Keychain, rules: Rules): Outcome {
    match Obstacle(c, keychain, rules)
    case Some(code) => Outcome(c, Refused(code))
    case None =>
      if Opened(c).metadata.Some? then Save(c, EMPTY.(metadata := Opened(c).metadata), keychain, rules, Deleted, DeleteFailed)
      else Remove(c, keychain)
  }

  /** Loading the metadata does not validate the rest of the envelope. */
  function OnLoadMetadata(c: Content, keychain: Keychain, rules: Rules): Reply {
    if !keychain.readable then Refused(QueryFailed)
    else if c.Corrupt? then Refused(Corrupted)
    else match Opened(c).metadata
      case None => Info(None)
      case Some(m) => if rules.metadata(m) then Info(Some(m)) else Refused(Corrupted)
  }

  function OnSaveMetadata(c: Content, metadata: Metadata, keychain: Keychain, rules: Rules): Outcome {
    if !rules.metadata(metadata) then Outcome(c, Refused(MetadataShape))
    else match Obstacle(c, keychain, rules)
      case Some(code) => Outcome(c, Refused(code))
      case None => Save(c, Opened(c).(metadata := Some(metadata)), keychain, rules, Done, WriteFailed)
  }

  function OnDeleteMetadata(c: Content, keychain: Keychain, rules: Rules): Outcome {
    match Obstacle(c, keychain, rules)
    case Some(code) => Outcome(c, Refused(code))
    case None =>
      if Opened(c).record.Some? || Opened(c).pending.Present? then
        Save(c, Opened(c).(metadata := None), keychain, rules, Deleted, DeleteFailed)
      else Remove(c, keychain)
  }

  function Step(c: Content, call: Call, rules: Rules): Outcome {
    match call.request
    case Load => Outcome(c, OnLoad(c, call.keychain, rules))
    case CommitExchange(record) => OnExchange(c, record, call.keychain, rules)
    case MarkRefreshPending(pending) => OnMark(c, pending, call.keychain, rules)
    case CommitRefresh(pending, record) => OnRefresh(c, pending, record, call.keychain, rules)
    case Delete => OnDelete(c, call.keychain, rules)
    case LoadMetadata => Outcome(c, OnLoadMetadata(c, call.keychain, rules))
    case SaveMetadata(metadata) => OnSaveMetadata(c, metadata, call.keychain, rules)
    case DeleteMetadata => OnDeleteMetadata(c, call.keychain, rules)
  }

  /** What a run of calls, faults included, leaves behind. */
  function After(c: Content, calls: seq<Call>, rules: Rules): Content
    decreases |calls|
  {
    if calls == [] then c else After(Step(c, calls[0], rules).content, calls[1..], rules)
  }
}

/** The helper process on the bytes of its keychain item. */
module CredentialStore {
  import opened Common
  import opened Bytes
  import opened CredentialCodec
  import opened CredentialSteps

  class Helper {
    const rules: Rules
    var item: Option<seq<byte>>

    constructor (rules: Rules, item: Option<seq<byte>>)
      ensures this.rules == rules && this.item == item
    {
      this.rules := rules;
      this.item := item;
    }

    function Content(): CredentialSteps.Content
      reads this
    {
      match item
      case None => Missing
      case Some(data) => match DecodeEnvelope(data, rules) case None => Corrupt case Some(e) => Held(e)
    }

    /** `loadEnvelope` and the validity check that follows it. */
    method LoadEnvelope(keychain: Keychain) returns (r: Result<Option<Envelope>, Code>)
      ensures r == match Obstacle(Content(), keychain, rules)
                   case Some(code) => Err(code)
                   case None => Ok(if Content().Held? then Some(Content().envelope) else None)
    {
      if !keychain.readable { return Err(QueryFailed); }
      match item {
        case None => return Ok(None);
        case Some(data) =>
          var decoded := DecodeEnvelope(data, rules);
          if decoded.None? { return Err(Corrupted); }
          if !ValidEnvelope(decoded.value, rules) { return Err(Corrupted); }
          return Ok(decoded);
      }
    }

    /** The item is replaced only by a whole encoded envelope. */
    method SaveEnvelope(e: Envelope, keychain: Keychain) returns (saved: bool)
      modifies this
      ensures saved == (keychain.writable && EncodeEnvelope(e, rules).Some?)
      ensures item == if saved then EncodeEnvelope(e, rules) else old(item)
      ensures Content() == if saved then Held(Stored(e)) else old(Content())
    {
      var data := EncodeEnvelope(e, rules);
      if data.None? { return false; }
      EnvelopeRoundTrip(e, rules);
      if |data.value| > MAX_RECORD || !keychain.writable { return false; }
      item := data;
      return true;
    }

    method RemoveItem(keychain: Keychain) returns (reply: Reply)
      modifies this
      ensures Outcome(Content(), reply) == Remove(old(Content()), keychain)
      ensures reply.Refused? ==> item == old(item)
    {
      if !keychain.writable { return Refused(DeleteFailed); }
      item := None;
      return Deleted;
    }

    method CredentialLoad(keychain: Keychain) returns (reply: Reply)
      ensures reply == OnLoad(Content(), keychain, rules)
    {
      var loaded := LoadEnvelope(keychain);
      match loaded {
        case Err(code) => return Refused(code);
        case Ok(None) => return Credentials(None, Absent);
        case Ok(Some(e)) => return Credentials(e.record, e.pending);
      }
    }

    method CredentialCommitExchange(record: Record, keychain: Keychain) returns (reply: Reply)
      modifies this
      ensures Outcome(Content(), reply) == OnExchange(old(Content()), record, keychain, rules)
      ensures reply.Refused? ==> item == old(item)
    {
      if !ValidRecord(record, rules) { return Refused(RecordInvalid); }
      var loaded := LoadEnvelope(keychain);
      match loaded {
        case Err(code) => return Refused(code);
        case Ok(found) =>
          var e := if found.Some? then found.value else EMPTY;
          e := e.(record := Some(record), pending := Null);
          var saved := SaveEnvelope(e, keychain);
          return if saved then Done else Refused(WriteFailed);
      }
    }

    method CredentialMarkRefreshPending(pending: Pending, keychain: Keychain) returns (reply: Reply)
      modifies this
      ensures Outcome(Content(), reply) == OnMark(old(Content()), pending, keychain, rules)
      ensures reply.Refused? ==> item == old(item)
    {
      if !ValidPending(pending, rules) { return Refused(PendingInvalid); }
      var loaded := LoadEnvelope(keychain);
      match loaded {
        case Err(code) => return Refused(code);
        case Ok(None) => return Refused(NotFound);
        case Ok(Some(found)) =>
          var e := found;
          if e.record.None? || e.record.value.generation != pending.expectedGeneration { return Refused(GenerationConflict); }
          if e.pending.Present? {
            return if e.pending.pending == pending then Marked(e.pending.pending) else Refused(PendingConflict);
          }
          e := e.(pending := Present(pending));
          var saved := SaveEnvelope(e, keychain);
          return if saved then Marked(pending) else Refused(WriteFailed);
      }
    }

    method CredentialCommitRefresh(pending: Pending, next: Record, keychain: Keychain) returns (reply: Reply)
      modifies this
      ensures Outcome(Content(), reply) == OnRefresh(old(Content()), pending, next, keychain, rules)
      ensures reply.Refused? || reply.Trapped? ==> item == old(item)
    {
      if !ValidPending(pending, rules) || !ValidRecord(next, rules) { return Refused(RecordInvalid); }
      var loaded := LoadEnvelope(keychain);
      match loaded {
        case Err(code) => return Refused(code);
        case Ok(None) => return Refused(NotFound);
        case Ok(Some(found)) =>
          var e := found;
          if e.record.None? { return Refused(GenerationConflict); }
          var current := e.record.value;
          if pending.expectedGeneration == 0x7FFF_FFFF_FFFF_FFFF { return Trapped; }
          if next.generation != pending.expectedGeneration + 1 { return Refused(GenerationConflict); }
          if current.generation == next.generation && current.refreshToken == next.refreshToken && !e.pending.Present? { return Done; }
          if e.pending != Present(pending) || current.generation != pending.expectedGeneration { return Refused(CommitConflict); }
          if current.familyAbsoluteExpiresAt != next.familyAbsoluteExpiresAt { return Refused(FamilyExpiryConflict); }
          e := e.(record := Some(next), pending := Null);
          var saved := SaveEnvelope(e, keychain);
          return if saved then Done else Refused(WriteFailed);
      }
    }

    method CredentialDelete(keychain: Keychain) returns (reply: Reply)
      modifies this
      ensures Outcome(Content(), reply) == OnDelete(old(Content()), keychain, rules)
      ensures reply.Refused? ==> item == old(item)
    {
      var loaded := LoadEnvelope(keychain);
      match loaded {
        case Err(code) => return Refused(code);
        case Ok(found) =>
          var e := if found.Some? then found.value else EMPTY;
          e := e.(record := None, pending := Absent);
          if e.metadata.Some? {
            var saved := SaveEnvelope(e, keychain);
            return if saved then Deleted else Refused(DeleteFailed);
          }
          reply := RemoveItem(keychain);
      }
    }

    method MetadataLoad(keychain: Keychain) returns (reply: Reply)
      ensures reply == OnLoadMetadata(Content(), keychain, rules)
    {
      if !keychain.readable { return Refused(QueryFailed); }
      if item.None? { return Info(None); }
      var decoded := DecodeEnvelope(item.value, rules);
      match decoded {
        case None => return Refused(Corrupted);
        case Some(e) =>
          if e.metadata.None? { return Info(None); }
          return if rules.metadata(e.metadata.value) then Info(e.metadata) else Refused(Corrupted);
      }
    }

    method MetadataSave(metadata: Metadata, keychain: Keychain) returns (reply: Reply)
      modifies this
      ensures Outcome(Content(), reply) == OnSaveMetadata(old(Content()), metadata, keychain, rules)
      ensures reply.Refused? ==> item == old(item)
    {
      if !rules.metadata(metadata) { return Refused(MetadataShape); }
      var loaded := LoadEnvelope(keychain);
      match loaded {
        case Err(code) => return Refused(code);
        case Ok(found) =>
          var e := if found.Some? then found.value else EMPTY;
          e := e.(metadata := Some(metadata));
          var saved := SaveEnvelope(e, keychain);
          return if saved then Done else Refused(WriteFailed);
      }
    }

    method MetadataDelete(keychain: Keychain) returns (reply: Reply)
      modifies this
      ensures Outcome(Content(), reply) == OnDeleteMetadata(old(Content()), keychain, rules)
      ensures reply.Refused? ==> item == old(item)
    {
      var loaded := LoadEnvelope(keychain);
      match loaded {
        case Err(code) => return Refused(code);
        case Ok(found) =>
          var e := if found.Some? then found.value else EMPTY;
          e := e.(metadata := None);
          if e.record.Some? || e.pending.Present? {
            var saved := SaveEnvelope(e, keychain);
            return if saved then Deleted else Refused(DeleteFailed);
          }
          reply := RemoveItem(keychain);
      }
    }
  }
}
