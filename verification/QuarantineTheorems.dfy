/** What the quarantine protocol promises, for every run from any initial placement. */
module QuarantineTheorems {
  import opened Common
  import opened QuarantineModel
  import opened QuarantineSafety

  // ---- consent ----

  /** The authorization is that of this very preflight, and of this parity receipt. */
  ghost predicate Binds(inp: Input) {
    var a, p := inp.authorization, inp.preflight;
    && a.operationId == p.reservation.operationId
    && a.candidateSnapshotDigest == OfSnapshot(p.snapshot)
    && a.destinationIdentityDigest == OfDestination(p.reservation)
    && a.preflightDigest == OfPreflight(p.sourceVolume, p.sourceFile, p.quarantineVolume, p.quarantineFile, p.policyVersion,
                                        OfSnapshot(p.snapshot), OfDestination(p.reservation))
    && a.sourceRootId == p.snapshot.rootId && a.sourceRelative == p.snapshot.relative
    && a.quarantineRootId == p.reservation.quarantineRootId
    && a.policyVersion == p.policyVersion && a.parity == inp.parity
  }

  /** The consent has been given for a period that has not ended. */
  ghost predicate InForce(inp: Input, now: Time) {
    inp.authorization.consentAt < inp.authorization.consentExpiresAt && now < inp.authorization.consentExpiresAt
  }

  // ---- safety ----

  lemma Reached(cfg: Exec -> Input, s: State, actions: seq<Action>, t: State)
    requires Apart(cfg) && Initial(s) && Run(cfg, s, actions, t)
    ensures Inv(cfg, Placement(s.world), t)
  {
    InitialInv(cfg, s);
    RunKeepsInv(cfg, Placement(s.world), s, actions, t);
  }

  /** No object is lost, doubled or made up, and at most one of them ever moves:
      the one of the snapshot, from its source to its destination. */
  lemma Conservation(cfg: Exec -> Input, s: State, actions: seq<Action>, t: State)
    requires Apart(cfg) && Initial(s) && Run(cfg, s, actions, t)
    ensures Injective(Placement(t.world))
    ensures Placement(t.world).Values == Placement(s.world).Values
    ensures Placement(t.world) == Placement(s.world) || exists e :: MovedBy(Placement(s.world), cfg(e), t.world)
  {
    Reached(cfg, s, actions, t);
    var placed := Placement(s.world);
    if Placement(t.world) != placed {
      var e :| MovedBy(placed, cfg(e), t.world);
      MoveKeepsValues(placed, cfg(e).preflight.Source(), cfg(e).preflight.Destination());
    }
  }

  lemma MoveKeepsValues(m: map<Place, ObjectId>, a: Place, b: Place)
    requires Injective(m) && a in m && b !in m
    ensures Injective((m - {a})[b := m[a]])
    ensures (m - {a})[b := m[a]].Values == m.Values
  {
    var n := (m - {a})[b := m[a]];
    forall x | x in m.Values ensures x in n.Values {
      var p :| p in m && m[p] == x;
      assert n[if p == a then b else p] == x;
    }
  }

  /** The object of a call lies in exactly one of that call's two places, in
      every state of every run in which it began at the source. */
  lemma ExactlyOnePlace(cfg: Exec -> Input, s: State, actions: seq<Action>, t: State, e: Exec)
    requires Apart(cfg) && Initial(s) && Run(cfg, s, actions, t)
    requires var p := cfg(e).preflight;
             p.Source() in s.world.fs && s.world.fs[p.Source()].id == p.snapshot.id && p.Destination() !in s.world.fs
    requires forall o :: Owns(cfg(o), t.world) ==> cfg(o).preflight == cfg(e).preflight
    ensures var p := cfg(e).preflight;
            Look(t.world, p.Source()).Some? != Look(t.world, p.Destination()).Some?
    ensures var p := cfg(e).preflight; forall q :: q in t.world.fs && t.world.fs[q].id == p.snapshot.id ==>
              q == p.Source() || q == p.Destination()
  {
    Conservation(cfg, s, actions, t);
    var p := cfg(e).preflight;
    var placed := Placement(s.world);
    assert p.Source() in placed && placed[p.Source()] == p.snapshot.id && p.Destination() !in placed;
    assert p.Source() in Placement(t.world) <==> p.Source() in t.world.fs;
    assert p.Destination() in Placement(t.world) <==> p.Destination() in t.world.fs;
    forall q | q in t.world.fs && t.world.fs[q].id == p.snapshot.id
      ensures q == p.Source() || q == p.Destination()
    {
      assert Placement(t.world)[q] == p.snapshot.id;
      var home := if p.Source() in t.world.fs then p.Source() else p.Destination();
      assert Placement(t.world)[home] == p.snapshot.id;
    }
  }

  /** An object leaves its place only by a step of a call whose own
      authorization and preflight the durable intent records. */
  lemma NoMoveWithoutIntent(cfg: Exec -> Input, s: State, actions: seq<Action>, t: State, a: Action)
    requires Apart(cfg) && Initial(s) && Run(cfg, s, actions, t) && Enabled(t, a)
    requires Placement(Next(cfg, t, a).world) != Placement(t.world)
    ensures a.Step? && t.world.intent.Some?
    ensures var i, inp := t.world.intent.value, cfg(a.e);
            && i.authorizationDigest == OfAuthorization(inp.authorization)
            && i.preflightDigest == inp.preflight.PreflightDigest()
            && i.candidateSnapshotDigest == inp.preflight.SnapshotDigest()
            && i.destinationIdentityDigest == inp.preflight.DestinationDigest()
    ensures Shifts(cfg(a.e), t.world, Next(cfg, t, a).world)
  {
    Reached(cfg, s, actions, t);
    if a.Step? {
      assert PcInv(cfg(a.e), t.world, At(t, a.e));
      RenameShifts(cfg(a.e), t.world, At(t, a.e), a.choice);
    }
  }

  /** A committed receipt is the one its intent determines, and then the source
      is empty and the destination holds the object of the snapshot. */
  lemma ReceiptMeansLanded(cfg: Exec -> Input, s: State, actions: seq<Action>, t: State)
    requires Apart(cfg) && Initial(s) && Run(cfg, s, actions, t) && t.world.receipt.Some?
    ensures exists e :: Owns(cfg(e), t.world) && t.world.receipt.value == TheReceipt(cfg(e), t.world)
                        && Landed(cfg(e).preflight, t.world)
  {
    Reached(cfg, s, actions, t);
  }

  /** All calls that return a receipt, at whatever time, return the same one,
      and each of them holds the authorization the receipt names. */
  lemma OneReceipt(cfg: Exec -> Input, s: State, first: seq<Action>, t: State, later: seq<Action>, u: State, e: Exec, o: Exec)
    requires Apart(cfg) && Initial(s) && Run(cfg, s, first, t) && Run(cfg, t, later, u)
    requires At(t, e).Returned? && At(u, o).Returned?
    ensures At(t, e) == At(u, o) && cfg(e).authorization == cfg(o).authorization
    ensures u.world.receipt == Some(At(u, o).receipt)
  {
    Reached(cfg, s, first, t);
    RunKeepsInv(cfg, Placement(s.world), t, later, u);
    ReceiptsStay(cfg, Placement(s.world), t, later, u);
    ReturnedIsStored(cfg, Placement(s.world), t, e);
    ReturnedIsStored(cfg, Placement(s.world), u, o);
  }

  lemma ReturnedIsStored(cfg: Exec -> Input, placed: map<Place, ObjectId>, s: State, e: Exec)
    requires Inv(cfg, placed, s) && At(s, e).Returned?
    ensures s.world.receipt == Some(At(s, e).receipt)
    ensures At(s, e).receipt.authorizationDigest == OfAuthorization(cfg(e).authorization)
  {
    assert PcInv(cfg(e), s.world, At(s, e));
  }

  lemma {:induction false} ReceiptsStay(cfg: Exec -> Input, placed: map<Place, ObjectId>, t: State, later: seq<Action>, u: State)
    requires Apart(cfg) && Inv(cfg, placed, t) && Run(cfg, t, later, u)
    ensures t.world.receipt.Some? ==> u.world.receipt == t.world.receipt
    ensures t.world.intent.Some? ==> u.world.intent == t.world.intent
    decreases |later|
  {
    if later != [] {
      NextKeepsInv(cfg, placed, t, later[0]);
      ReceiptsStay(cfg, placed, Next(cfg, t, later[0]), later[1..], u);
    }
  }

  /** The idempotency conflict never meets a call whose authorization and
      preflight are those of the durable intent. */
  lemma ConflictOnlyForOthers(cfg: Exec -> Input, s: State, actions: seq<Action>, t: State, e: Exec, o: Exec)
    requires Apart(cfg) && Initial(s) && Run(cfg, s, actions, t)
    requires At(t, e) == Failed(IdempotencyConflict) && Owns(cfg(o), t.world)
    ensures cfg(e).authorization != cfg(o).authorization || cfg(e).preflight != cfg(o).preflight
  {
    Reached(cfg, s, actions, t);
    assert PcInv(cfg(e), t.world, At(t, e));
  }

  // ---- recovery ----

  /** A call as late as its consent allows, after the object moved and before or
      after its receipt was written, while nobody edits the moved tree. */
  ghost predicate Recovering(inp: Input, s: State, e: Exec) { RecoveringAt(inp, s.world, At(s, e)) }

  ghost predicate RecoveringAt(inp: Input, w: World, pc: Pc) {
    var p := inp.preflight;
    && Owns(inp, w) && Landed(p, w) && OfTree(w.fs[p.Destination()].tree) == p.snapshot.treeDigest
    && match pc
       case Ready => Binds(inp) && InForce(inp, w.clock)
       case ReadReceipt(_) => true
       case ReadIntent(_) => true
       case StatSource(created, hadIntent) => hadIntent && OwnsAt(inp, w, created)
       case StatDestination(created, hadIntent, source) => hadIntent && source == None && OwnsAt(inp, w, created)
       case RecoverFirst(created, _, _) => OwnsAt(inp, w, created)
       case RecoverSourceSeen(created, _, _, source) => source == None && OwnsAt(inp, w, created)
       case RecoverDestinationSeen(created, _, _, destination) =>
         OwnsAt(inp, w, created) && destination.Some? && destination.value.id == p.snapshot.id
       case RecoverDigest(created, seen) => OwnsAt(inp, w, created) && seen == p.snapshot.id
       case RecoverRestat(created, seen) => OwnsAt(inp, w, created) && seen == p.snapshot.id
       case Commit(receipt) => receipt == TheReceipt(inp, w)
       case Returned(receipt) => receipt == TheReceipt(inp, w)
       case _ => false
  }

  /** How many steps such a call still needs. */
  ghost function Rank(pc: Pc): nat {
    match pc
    case Ready => 10
    case ReadReceipt(_) => 9
    case ReadIntent(_) => 8
    case StatSource(_, _) => 7
    case StatDestination(_, _, _) => 6
    case RecoverFirst(_, _, _) => 5
    case RecoverSourceSeen(_, _, _, _) => 4
    case RecoverDestinationSeen(_, _, _, _) => 4
    case RecoverDigest(_, _) => 3
    case RecoverRestat(_, _) => 2
    case Commit(_) => 1
    case _ => 0
  }

  /** Anything may happen beside call `e` except: `e` stopping or its disk
      failing, the moved tree being edited, and consent running out before `e` begins. */
  ghost predicate Benign(inp: Input, s: State, e: Exec, a: Action) {
    match a
    case Step(o, ch) => o == e ==> !ch.fault
    case Stop(o, _) => o != e
    case Tick(passed) => At(s, e).Ready? ==> InForce(inp, s.world.clock + passed)
    case Touch(p, _, _) => p != inp.preflight.Destination()
  }

  /** Its own step brings such a call nearer to the receipt. */
  lemma RecoveryStep(cfg: Exec -> Input, placed: map<Place, ObjectId>, s: State, e: Exec, ch: Choice)
    requires Apart(cfg) && Inv(cfg, placed, s) && Recovering(cfg(e), s, e)
    requires !Ended(At(s, e)) && !ch.fault
    ensures var s' := Next(cfg, s, Step(e, ch));
            Recovering(cfg(e), s', e) && Rank(At(s', e)) < Rank(At(s, e))
  {
    if s.world.receipt.Some? { StoredReceipt(cfg, s.world, cfg(e)); }
    if Rank(At(s, e)) >= 6 { EarlyTurn(cfg(e), s.world, At(s, e), ch); } else { LateTurn(cfg(e), s.world, At(s, e), ch); }
  }

  ghost predicate StoredIsOwn(inp: Input, w: World) {
    w.receipt.Some? ==>
      Owns(inp, w) && w.receipt.value == TheReceipt(inp, w) && w.receipt.value.authorizationDigest == OfAuthorization(inp.authorization)
  }

  lemma EarlyTurn(inp: Input, w: World, pc: Pc, ch: Choice)
    requires RecoveringAt(inp, w, pc) && StoredIsOwn(inp, w) && Rank(pc) >= 6 && !ch.fault
    ensures var t := Advance(inp, w, pc, ch); RecoveringAt(inp, t.world, t.pc) && Rank(t.pc) < Rank(pc)
  {
  }

  lemma LateTurn(inp: Input, w: World, pc: Pc, ch: Choice)
    requires RecoveringAt(inp, w, pc) && StoredIsOwn(inp, w) && 0 < Rank(pc) < 6 && !ch.fault
    ensures var t := Advance(inp, w, pc, ch); RecoveringAt(inp, t.world, t.pc) && Rank(t.pc) < Rank(pc)
  {
  }

  lemma StoredReceipt(cfg: Exec -> Input, w: World, inp: Input)
    requires ReceiptInv(cfg, w) && w.receipt.Some? && Owns(inp, w)
    ensures w.receipt.value == TheReceipt(inp, w)
    ensures w.receipt.value.authorizationDigest == OfAuthorization(inp.authorization)
  {
    var o :| Owns(cfg(o), w) && w.receipt.value == TheReceipt(cfg(o), w) && Landed(cfg(o).preflight, w);
    OneOwner(inp, cfg(o), w);
  }

  /** Nobody else's step disturbs it. */
  lemma RecoveryUndisturbed(cfg: Exec -> Input, placed: map<Place, ObjectId>, s: State, e: Exec, a: Action)
    requires Apart(cfg) && Inv(cfg, placed, s) && Recovering(cfg(e), s, e)
    requires Enabled(s, a) && Benign(cfg(e), s, e, a) && !(a.Step? && a.e == e)
    ensures var s' := Next(cfg, s, a); Recovering(cfg(e), s', e) && At(s', e) == At(s, e)
  {
    if a.Step? { OthersMoveNothing(cfg, placed, s, e, a.e, a.choice); }
  }

  lemma OthersMoveNothing(cfg: Exec -> Input, placed: map<Place, ObjectId>, s: State, e: Exec, o: Exec, ch: Choice)
    requires Apart(cfg) && Inv(cfg, placed, s) && Recovering(cfg(e), s, e) && Enabled(s, Step(o, ch))
    ensures var w' := Next(cfg, s, Step(o, ch)).world; w'.fs == s.world.fs && w'.intent == s.world.intent && w'.clock == s.world.clock
  {
    NextKeepsInv(cfg, placed, s, Step(o, ch));
    assert PcInv(cfg(o), s.world, At(s, o));
    RenameShifts(cfg(o), s.world, At(s, o), ch);
    if Next(cfg, s, Step(o, ch)).world.fs != s.world.fs { OneOwner(cfg(o), cfg(e), s.world); }
  }

  ghost function OwnSteps(e: Exec, actions: seq<Action>): nat {
    if actions == [] then 0
    else (if actions[0].Step? && actions[0].e == e then 1 else 0) + OwnSteps(e, actions[1..])
  }

  ghost predicate BenignRun(cfg: Exec -> Input, s: State, e: Exec, actions: seq<Action>, t: State)
    decreases |actions|
  {
    if actions == [] then s == t
    else
      && Enabled(s, actions[0]) && Benign(cfg(e), s, e, actions[0])
      && BenignRun(cfg, Next(cfg, s, actions[0]), e, actions[1..], t)
  }

  lemma {:induction false} RecoveryRun(cfg: Exec -> Input, placed: map<Place, ObjectId>, s: State, e: Exec, actions: seq<Action>, t: State)
    requires Apart(cfg) && Inv(cfg, placed, s) && Recovering(cfg(e), s, e) && BenignRun(cfg, s, e, actions, t)
    ensures Recovering(cfg(e), t, e) && Rank(At(t, e)) + OwnSteps(e, actions) <= Rank(At(s, e))
    ensures t.world.intent == s.world.intent
    decreases |actions|
  {
    if actions != [] {
      var a := actions[0];
      NextKeepsInv(cfg, placed, s, a);
      if a.Step? && a.e == e {
        RecoveryStep(cfg, placed, s, e, a.choice);
      } else {
        RecoveryUndisturbed(cfg, placed, s, e, a);
      }
      RecoveryRun(cfg, placed, Next(cfg, s, a), e, actions[1..], t);
    }
  }

  /** Recovery. Whatever crashes came before, once the object has moved every
      later call with the same authorization, begun before consent expires,
      returns the one receipt after at most ten steps of its own, and that
      receipt is then durable. Other calls may interleave and crash freely. */
  lemma RecoveryCompletes(cfg: Exec -> Input, s: State, first: seq<Action>, t: State, e: Exec, later: seq<Action>, u: State)
    requires Apart(cfg) && Initial(s) && Run(cfg, s, first, t)
    requires MovedBy(Placement(s.world), cfg(e), t.world) && At(t, e) == Ready
    requires Binds(cfg(e)) && InForce(cfg(e), t.world.clock)
    requires var n := Look(t.world, cfg(e).preflight.Destination());
             n.Some? && OfTree(n.value.tree) == cfg(e).preflight.snapshot.treeDigest
    requires BenignRun(cfg, t, e, later, u)
    ensures At(u, e).Returned? || (OwnSteps(e, later) < 10 && !Ended(At(u, e)))
    ensures At(u, e).Returned? ==> At(u, e).receipt == TheReceipt(cfg(e), t.world) && u.world.receipt == Some(At(u, e).receipt)
  {
    Reached(cfg, s, first, t);
    RecoveryStarts(cfg(e), Placement(s.world), t, e);
    RecoveryRun(cfg, Placement(s.world), t, e, later, u);
    RecoveryEnds(cfg(e), u, e);
    if At(u, e).Returned? {
      BenignIsRun(cfg, t, e, later, u);
      RunKeepsInv(cfg, Placement(s.world), t, later, u);
      ReturnedIsStored(cfg, Placement(s.world), u, e);
      SameIntent(cfg(e), t.world, u.world);
    }
  }

  /** A call whose object has been moved for it is recovering as soon as it begins. */
  lemma RecoveryStarts(inp: Input, placed: map<Place, ObjectId>, t: State, e: Exec)
    requires MovedBy(placed, inp, t.world) && At(t, e) == Ready && Binds(inp) && InForce(inp, t.world.clock)
    requires var n := Look(t.world, inp.preflight.Destination());
             n.Some? && OfTree(n.value.tree) == inp.preflight.snapshot.treeDigest
    ensures Recovering(inp, t, e)
  {
    var p := inp.preflight;
    assert p.Source() in Placement(t.world) <==> p.Source() in t.world.fs;
    assert Placement(t.world)[p.Destination()] == t.world.fs[p.Destination()].id;
  }

  /** Where it may stand: not yet at the end, or with the receipt. */
  lemma RecoveryEnds(inp: Input, u: State, e: Exec)
    requires Recovering(inp, u, e)
    ensures At(u, e).Returned? || (Rank(At(u, e)) > 0 && !Ended(At(u, e)))
    ensures At(u, e).Returned? ==> At(u, e).receipt == TheReceipt(inp, u.world)
    ensures Owns(inp, u.world)
  {
  }

  lemma SameIntent(inp: Input, w: World, v: World)
    requires w.intent == v.intent && Owns(inp, v)
    ensures Owns(inp, w) && TheReceipt(inp, w) == TheReceipt(inp, v)
  {
  }

  lemma {:induction false} BenignIsRun(cfg: Exec -> Input, s: State, e: Exec, actions: seq<Action>, t: State)
    requires BenignRun(cfg, s, e, actions, t)
    ensures Run(cfg, s, actions, t)
    decreases |actions|
  {
    if actions != [] { BenignIsRun(cfg, Next(cfg, s, actions[0]), e, actions[1..], t); }
  }
}
