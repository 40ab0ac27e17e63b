/** The local quarantine of one operation as a state machine.

    Every await of `executeQuarantine` and of its helpers is one step, so that
    any number of executors interleave in every possible way, and any of them
    may crash or meet an I/O error at every step. A digest is a free
    constructor over what it hashes, which makes it injective. */
module QuarantineModel {
  import opened Common

  type Time = nat

  /** Restore stays possible for 30 UTC days, in milliseconds. */
  const RETENTION_MS: nat := 30 * 24 * 60 * 60 * 1000

  const CONVERGENCE_ATTEMPTS: nat := 10

  /** A directory entry: an approved root, by its device and inode, and a path below it. */
  datatype Place = Place(rootVolume: nat, rootFile: nat, relative: string)

  datatype ObjectId = ObjectId(dev: nat, ino: nat)

  datatype Stats = Stats(size: nat, mode: nat, mtime: nat, ctime: nat)

  /** What a place holds; `tree` stands for the bytes below it. */
  datatype Node = Node(id: ObjectId, stats: Stats, tree: nat)

  datatype Digest =
    | OfTree(tree: nat)
    | OfSnapshot(snapshot: Snapshot)
    | OfDestination(reservation: Reservation)
    | OfPreflight(sourceVolume: nat, sourceFile: nat, quarantineVolume: nat, quarantineFile: nat,
                  policyVersion: string, snapshotDigest: Digest, destinationDigest: Digest)
    | OfAuthorization(authorization: Authorization)
    | OfObject(sourceObjectId: string, id: ObjectId, destination: Digest)
    | Foreign(text: string)

  datatype Snapshot = Snapshot(rootId: string, relative: string, id: ObjectId, stats: Stats, treeDigest: Digest)

  datatype Reservation = Reservation(quarantineRootId: string, relative: string, operationId: string, nonce: string)

  /** A successful preflight; its digests are computed from its fields, as preflight does. */
  datatype Preflight = Preflight(
    sourceVolume: nat, sourceFile: nat, quarantineVolume: nat, quarantineFile: nat,
    policyVersion: string, snapshot: Snapshot, reservation: Reservation)
  {
    function Source(): Place { Place(sourceVolume, sourceFile, snapshot.relative) }
    function Destination(): Place { Place(quarantineVolume, quarantineFile, reservation.relative) }
    function SnapshotDigest(): Digest { OfSnapshot(snapshot) }
    function DestinationDigest(): Digest { OfDestination(reservation) }
    function PreflightDigest(): Digest {
      OfPreflight(sourceVolume, sourceFile, quarantineVolume, quarantineFile, policyVersion,
                  SnapshotDigest(), DestinationDigest())
    }
  }

  /** The fields the executor reads; `parity` stands for the ones bound to the parity receipt. */
  datatype Authorization = Authorization(
    operationId: string, sourceObjectId: string, contentDigest: Digest,
    candidateSnapshotDigest: Digest, preflightDigest: Digest, destinationIdentityDigest: Digest,
    sourceRootId: string, sourceRelative: string, quarantineRootId: string, policyVersion: string,
    consentAt: Time, consentExpiresAt: Time, parity: seq<string>)

  /** What one call of the executor is given. `parity` is what the parity receipt says. */
  datatype Input = Input(preflight: Preflight, authorization: Authorization, parity: seq<string>)

  datatype Intent = Intent(
    operationId: string, authorizationDigest: Digest, preflightDigest: Digest,
    candidateSnapshotDigest: Digest, destinationIdentityDigest: Digest, createdAt: Time)

  /** A version 2 receipt. The receipt digest hashes all of it, so equal digests are equal receipts. */
  datatype Receipt = Receipt(
    operationId: string, authorizationDigest: Digest, preflightDigest: Digest,
    candidateSnapshotDigest: Digest, treeDigest: Digest, contentDigest: Digest, sourceObjectId: string,
    objectIdentityDigest: Digest, destinationIdentityDigest: Digest,
    quarantinedAt: Time, restoreExpiresAt: Time)

  datatype Error =
    | BindingIncomplete | Expired | IdempotencyConflict | ReplayInconsistent | CandidateStale
    | NeedsReconciliation | MoveFailed | SourceMissing | DurabilityFailed | Io

  datatype Outcome = CollisionExhausted | CrossVolume

  /** What a call does when recovery never sees the moved object. */
  datatype Fallback = Throw(error: Error) | Give(outcome: Outcome)

  /** Where one call stands. `created` is the creation time it will put into its
      receipt, `before` the identity of the source it first saw. */
  datatype Pc =
    | Ready
    | ReadReceipt(now: Time)
    | ReadIntent(now: Time)
    | StatSource(created: Time, hadIntent: bool)
    | StatDestination(created: Time, hadIntent: bool, source: Option<Node>)
    | WriteIntent(created: Time, before: ObjectId)
    | RecheckSource(created: Time, before: ObjectId)
    | DigestSource(created: Time, before: ObjectId)
    | RecheckDestination(created: Time, before: ObjectId)
    | Reauthorize(created: Time, before: ObjectId)
    | HelperObserve(created: Time, before: ObjectId)
    | HelperProbe(created: Time, before: ObjectId)
    | HelperRename(created: Time, before: ObjectId)
    | StatMoved(created: Time, before: ObjectId)
    | StatVacated(created: Time, moved: ObjectId)
    | DigestMoved(created: Time, moved: ObjectId)
    | RestatMoved(created: Time, moved: ObjectId)
    | RecoverFirst(created: Time, attempt: nat, fallback: Fallback)
    | RecoverSourceSeen(created: Time, attempt: nat, fallback: Fallback, source: Option<Node>)
    | RecoverDestinationSeen(created: Time, attempt: nat, fallback: Fallback, destination: Option<Node>)
    | RecoverDigest(created: Time, seen: ObjectId)
    | RecoverRestat(created: Time, seen: ObjectId)
    | Commit(receipt: Receipt)
    | Returned(receipt: Receipt)
    | Gave(outcome: Outcome)
    | Failed(error: Error)
    | Crashed

  /** The files every executor of the operation shares, and the wall clock. */
  datatype World = World(fs: map<Place, Node>, intent: Option<Intent>, receipt: Option<Receipt>, clock: Time)

  /** What the scheduler and the machine choose for one step: which place recovery
      looks at first, whether a sync fails after the change became visible,
      whether the rename is refused, and whether the helper's answer is lost. */
  datatype Choice = Choice(sourceFirst: bool, fault: bool, crossVolume: bool, refused: bool, lost: bool)

  datatype Turn = Turn(world: World, pc: Pc)

  function Look(w: World, p: Place): Option<Node> {
    if p in w.fs then Some(w.fs[p]) else None
  }

  predicate SameSnapshot(p: Preflight, n: Node) {
    n.id == p.snapshot.id && n.stats == p.snapshot.stats
  }

  /** The binding part of `assertAuthorization`. */
  predicate Bound(inp: Input) {
    var a, p := inp.authorization, inp.preflight;
    && a.operationId == p.reservation.operationId
    && a.candidateSnapshotDigest == p.SnapshotDigest()
    && a.preflightDigest == p.PreflightDigest()
    && a.sourceRootId == p.snapshot.rootId
    && a.sourceRelative == p.snapshot.relative
    && a.quarantineRootId == p.reservation.quarantineRootId
    && a.destinationIdentityDigest == p.DestinationDigest()
    && a.policyVersion == p.policyVersion
    && a.parity == inp.parity
  }

  /** `assertAuthorization`: which error it raises at `now`, if any. */
  function Authorize(inp: Input, now: Time): Option<Error> {
    var a := inp.authorization;
    if !Bound(inp) then Some(BindingIncomplete)
    else if a.consentAt >= a.consentExpiresAt || now >= a.consentExpiresAt then Some(Expired)
    else None
  }

  function NewIntent(inp: Input, created: Time): Intent {
    Intent(inp.authorization.operationId, OfAuthorization(inp.authorization), inp.preflight.PreflightDigest(),
           inp.preflight.SnapshotDigest(), inp.preflight.DestinationDigest(), created)
  }

  /** `validateQuarantineIntent`: the stored intent is the one this call would write, whatever its time. */
  predicate IntentMatches(inp: Input, i: Intent) {
    i == NewIntent(inp, i.createdAt)
  }

  /** `buildQuarantineReceipt`. */
  function BuildReceipt(inp: Input, created: Time, destination: ObjectId): Receipt {
    var a, p := inp.authorization, inp.preflight;
    Receipt(a.operationId, OfAuthorization(a), p.PreflightDigest(), p.SnapshotDigest(), p.snapshot.treeDigest,
            a.contentDigest, a.sourceObjectId,
            OfObject(a.sourceObjectId, destination, p.DestinationDigest()),
            p.DestinationDigest(), created, created + RETENTION_MS)
  }

  function StartRecovery(created: Time, fallback: Fallback): Pc {
    RecoverFirst(created, 0, fallback)
  }

  function FallBack(f: Fallback): Pc {
    match f
    case Throw(e) => Failed(e)
    case Give(o) => Gave(o)
  }

  /** One round of `recoverConcurrentQuarantineMove` has seen both places. */
  function Recovered(inp: Input, created: Time, attempt: nat, fallback: Fallback,
                     source: Option<Node>, destination: Option<Node>): Pc {
    if source.None? && destination.Some? then
      if destination.value.id != inp.preflight.snapshot.id then Failed(NeedsReconciliation)
      else RecoverDigest(created, destination.value.id)
    else if attempt + 1 < CONVERGENCE_ATTEMPTS then RecoverFirst(created, attempt + 1, fallback)
    else FallBack(fallback)
  }

  /** The branch taken once both places were first looked at. */
  function Decide(inp: Input, created: Time, hadIntent: bool, source: Option<Node>, destination: Option<Node>): Pc {
    if source.None? then
      if !hadIntent || destination.None? then Failed(ReplayInconsistent)
      else StartRecovery(created, Throw(ReplayInconsistent))
    else if !SameSnapshot(inp.preflight, source.value) then Failed(CandidateStale)
    else if destination.Some? then Gave(CollisionExhausted)
    else if hadIntent then RecheckSource(created, source.value.id)
    else WriteIntent(created, source.value.id)
  }

  /** One step of one call. A call that has ended stays where it is. */
  function Advance(inp: Input, w: World, pc: Pc, ch: Choice): Turn {
    var p := inp.preflight;
    var src, dst := Look(w, p.Source()), Look(w, p.Destination());
    match pc
    case Ready =>
      var refused := Authorize(inp, w.clock);
      Turn(w, if refused.Some? then Failed(refused.value) else ReadReceipt(w.clock))
    case ReadReceipt(now) =>
      Turn(w, if w.receipt.None? then ReadIntent(now)
              else if w.receipt.value.authorizationDigest != OfAuthorization(inp.authorization)
              then Failed(IdempotencyConflict)
              else Returned(w.receipt.value))
    case ReadIntent(now) =>
      Turn(w, if w.intent.None? then StatSource(now, false)
              else if !IntentMatches(inp, w.intent.value) then Failed(IdempotencyConflict)
              else StatSource(w.intent.value.createdAt, true))
    case StatSource(created, hadIntent) => Turn(w, StatDestination(created, hadIntent, src))
    case StatDestination(created, hadIntent, source) => Turn(w, Decide(inp, created, hadIntent, source, dst))
    case WriteIntent(created, before) =>
      if w.intent.None? then
        Turn(w.(intent := Some(NewIntent(inp, created))), if ch.fault then Failed(Io) else RecheckSource(created, before))
      else if !IntentMatches(inp, w.intent.value) then Turn(w, Failed(IdempotencyConflict))
      else Turn(w, RecheckSource(w.intent.value.createdAt, before))
    case RecheckSource(created, before) =>
      Turn(w, if src.None? then StartRecovery(created, Throw(SourceMissing))
              else if !SameSnapshot(p, src.value) then StartRecovery(created, Throw(CandidateStale))
              else DigestSource(created, before))
    case DigestSource(created, before) =>
      Turn(w, if src.None? then StartRecovery(created, Throw(SourceMissing))
              else if OfTree(src.value.tree) != p.snapshot.treeDigest then StartRecovery(created, Throw(CandidateStale))
              else RecheckDestination(created, before))
    case RecheckDestination(created, before) =>
      Turn(w, if dst.Some? then StartRecovery(created, Give(CollisionExhausted)) else Reauthorize(created, before))
    case Reauthorize(created, before) =>
      var refused := Authorize(inp, w.clock);
      Turn(w, if refused.Some? then Failed(refused.value) else HelperObserve(created, before))
    case HelperObserve(created, before) =>
      Turn(w, if src.None? || src.value.id != p.snapshot.id then StartRecovery(created, Throw(CandidateStale))
              else HelperProbe(created, before))
    case HelperProbe(created, before) =>
      Turn(w, if dst.Some? then StartRecovery(created, Give(CollisionExhausted)) else HelperRename(created, before))
    case HelperRename(created, before) =>
      if src.None? || ch.refused then Turn(w, StartRecovery(created, Throw(MoveFailed)))
      else if ch.crossVolume then Turn(w, Gave(CrossVolume))
      else if dst.Some? then Turn(w, StartRecovery(created, Give(CollisionExhausted)))
      else
        var moved := w.(fs := (w.fs - {p.Source()})[p.Destination() := src.value]);
        Turn(moved, if ch.lost then StartRecovery(created, Throw(MoveFailed))
                    else if ch.fault then Failed(DurabilityFailed)
                    else StatMoved(created, before))
    case StatMoved(created, before) =>
      Turn(w, if dst.None? then Failed(Io)
              else if dst.value.id != before then Failed(NeedsReconciliation)
              else StatVacated(created, dst.value.id))
    case StatVacated(created, moved) =>
      Turn(w, if src.Some? then Failed(NeedsReconciliation) else DigestMoved(created, moved))
    case DigestMoved(created, moved) =>
      Turn(w, if dst.None? || OfTree(dst.value.tree) != p.snapshot.treeDigest then Failed(NeedsReconciliation)
              else RestatMoved(created, moved))
    case RestatMoved(created, moved) =>
      Turn(w, if dst.None? || dst.value.id != moved then Failed(NeedsReconciliation)
              else Commit(BuildReceipt(inp, created, moved)))
    case RecoverFirst(created, attempt, fallback) =>
      Turn(w, if ch.sourceFirst then RecoverSourceSeen(created, attempt, fallback, src)
              else RecoverDestinationSeen(created, attempt, fallback, dst))
    case RecoverSourceSeen(created, attempt, fallback, source) =>
      Turn(w, Recovered(inp, created, attempt, fallback, source, dst))
    case RecoverDestinationSeen(created, attempt, fallback, destination) =>
      Turn(w, Recovered(inp, created, attempt, fallback, src, destination))
    case RecoverDigest(created, seen) =>
      Turn(w, if dst.None? || OfTree(dst.value.tree) != p.snapshot.treeDigest then Failed(NeedsReconciliation)
              else RecoverRestat(created, seen))
    case RecoverRestat(created, seen) =>
      Turn(w, if dst.None? || dst.value.id != seen then Failed(NeedsReconciliation)
              else Commit(BuildReceipt(inp, created, seen)))
    case Commit(receipt) =>
      if w.receipt.None? then
        Turn(w.(receipt := Some(receipt)), if ch.fault then Failed(NeedsReconciliation) else Returned(receipt))
      else if w.receipt.value != receipt then Turn(w, Failed(IdempotencyConflict))
      else Turn(w, Returned(w.receipt.value))
    case _ => Turn(w, pc)
  }

  type Exec = nat

  datatype State = State(world: World, pcs: map<Exec, Pc>)

  function At(s: State, e: Exec): Pc {
    if e in s.pcs then s.pcs[e] else Ready
  }

  /** `Touch` is a foreign process editing an object where it lies; `Stop` is a
      crash or an I/O error of one executor at whatever step it has reached. */
  datatype Action =
    | Step(e: Exec, choice: Choice)
    | Stop(e: Exec, how: Pc)
    | Tick(passed: nat)
    | Touch(place: Place, stats: Stats, tree: nat)

  predicate Ended(pc: Pc) {
    pc.Returned? || pc.Gave? || pc.Failed? || pc.Crashed?
  }

  predicate Enabled(s: State, a: Action) {
    match a
    case Step(e, _) => !Ended(At(s, e))
    case Stop(e, how) => !Ended(At(s, e)) && (how == Crashed || how == Failed(Io))
    case Tick(_) => true
    case Touch(p, _, _) => p in s.world.fs
  }

  function Next(cfg: Exec -> Input, s: State, a: Action): State
    requires Enabled(s, a)
  {
    match a
    case Step(e, ch) =>
      var t := Advance(cfg(e), s.world, At(s, e), ch);
      State(t.world, s.pcs[e := t.pc])
    case Stop(e, how) => s.(pcs := s.pcs[e := how])
    case Tick(passed) => s.(world := s.world.(clock := s.world.clock + passed))
    case Touch(p, stats, tree) =>
      s.(world := s.world.(fs := s.world.fs[p := Node(s.world.fs[p].id, stats, tree)]))
  }
}
