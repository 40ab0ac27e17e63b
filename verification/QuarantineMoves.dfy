/** What a call has found out, step by step, before it moves the object and before it
    commits a receipt, in terms of the files, the clock and the fields of its input. */
module QuarantineMoves {
  import opened Common
  import opened QuarantineModel
  import opened QuarantineSafety
  import opened QuarantineTheorems

  // ---- consent ----

  /** A call that begins, or that is rechecked before the move, goes on exactly if its
      authorization binds and is in force; otherwise it fails, and changes nothing. */
  lemma GoesOnIff(inp: Input, w: World, pc: Pc, ch: Choice)
    requires pc.Ready? || pc.Reauthorize?
    ensures var t := Advance(inp, w, pc, ch);
            && t.world == w
            && (t.pc == Failed(BindingIncomplete) <==> !Binds(inp))
            && (t.pc == Failed(Expired) <==> Binds(inp) && !InForce(inp, w.clock))
            && (!Ended(t.pc) <==> Binds(inp) && InForce(inp, w.clock))
  {
  }

  lemma {:induction false} EndedStays(cfg: Exec -> Input, s: State, e: Exec, later: seq<Action>, t: State)
    requires Run(cfg, s, later, t) && Ended(At(s, e))
    ensures At(t, e) == At(s, e)
    ensures forall i :: 0 <= i < |later| ==> !(later[i].Step? && later[i].e == e)
    decreases |later|
  {
    if later != [] { EndedStays(cfg, Next(cfg, s, later[0]), e, later[1..], t); }
  }

  /** From the moment its consent has run out, a call that begins or is rechecked ends
      in a failure, for good, and takes no further step, so it moves nothing. */
  lemma ExpiredMovesNothing(cfg: Exec -> Input, s: State, e: Exec, ch: Choice, later: seq<Action>, t: State)
    requires (At(s, e).Ready? || At(s, e).Reauthorize?) && s.world.clock >= cfg(e).authorization.consentExpiresAt
    requires Run(cfg, Next(cfg, s, Step(e, ch)), later, t)
    ensures Next(cfg, s, Step(e, ch)).world == s.world
    ensures At(t, e) == Failed(Expired) || At(t, e) == Failed(BindingIncomplete)
    ensures forall i :: 0 <= i < |later| ==> !(later[i].Step? && later[i].e == e)
  {
    GoesOnIff(cfg(e), s.world, At(s, e), ch);
    EndedStays(cfg, Next(cfg, s, Step(e, ch)), e, later, t);
  }

  // ---- checks ----

  datatype Check = SourceUnchanged | TreeUnchanged | DestinationFree | Consent | SameObject | TreeArrived | ObjectArrived

  /** What a check finds of the world it is made in. */
  ghost predicate Finds(check: Check, inp: Input, w: World) {
    var p := inp.preflight;
    match check
    case SourceUnchanged =>
      p.Source() in w.fs && w.fs[p.Source()].id == p.snapshot.id && w.fs[p.Source()].stats == p.snapshot.stats
    case TreeUnchanged => p.Source() in w.fs && OfTree(w.fs[p.Source()].tree) == p.snapshot.treeDigest
    case DestinationFree => p.Destination() !in w.fs
    case Consent => Binds(inp) && InForce(inp, w.clock)
    case SameObject => p.Source() in w.fs && w.fs[p.Source()].id == p.snapshot.id
    case TreeArrived => p.Destination() in w.fs && OfTree(w.fs[p.Destination()].tree) == p.snapshot.treeDigest
    case ObjectArrived => p.Destination() in w.fs && w.fs[p.Destination()].id == p.snapshot.id
  }

  /** The intent on disk records the digests of this input. */
  ghost predicate Intended(inp: Input, w: World) {
    && w.intent.Some? && w.intent.value.operationId == inp.authorization.operationId
    && w.intent.value.authorizationDigest == OfAuthorization(inp.authorization)
    && w.intent.value.preflightDigest == inp.preflight.PreflightDigest()
    && w.intent.value.candidateSnapshotDigest == OfSnapshot(inp.preflight.snapshot)
    && w.intent.value.destinationIdentityDigest == OfDestination(inp.preflight.reservation)
  }

  ghost predicate Makes(cfg: Exec -> Input, s: State, a: Action, e: Exec, check: Check) {
    a.Step? && a.e == e && Intended(cfg(e), s.world) && Finds(check, cfg(e), s.world)
  }

  /** In these actions the call makes these checks in this order, each under its own intent. */
  ghost predicate MadeIn(cfg: Exec -> Input, s: State, actions: seq<Action>, e: Exec, checks: seq<Check>)
    decreases |actions|
  {
    checks == []
    || (actions != [] && Enabled(s, actions[0])
        && var s' := Next(cfg, s, actions[0]);
           || (Makes(cfg, s, actions[0], e, checks[0]) && MadeIn(cfg, s', actions[1..], e, checks[1..]))
           || MadeIn(cfg, s', actions[1..], e, checks))
  }

  /** The checks in front of the move, and those in front of the receipt. */
  datatype Phase = Move | Landing

  const MOVE_CHECKS := [SourceUnchanged, TreeUnchanged, DestinationFree, Consent, SameObject, DestinationFree]

  const LANDING_CHECKS := [TreeArrived, ObjectArrived]

  ghost function Checks(phase: Phase): (checks: seq<Check>)
    ensures |checks| == if phase.Move? then 6 else 2
  {
    if phase.Move? then MOVE_CHECKS else LANDING_CHECKS
  }

  /** How many of the checks lie behind a call. */
  ghost function Passed(phase: Phase, pc: Pc): (n: Option<nat>)
    ensures n.Some? ==> n.value <= |Checks(phase)|
  {
    match phase
    case Move => (
      match pc
      case RecheckSource(_, _) => Some(0)
      case DigestSource(_, _) => Some(1)
      case RecheckDestination(_, _) => Some(2)
      case Reauthorize(_, _) => Some(3)
      case HelperObserve(_, _) => Some(4)
      case HelperProbe(_, _) => Some(5)
      case HelperRename(_, _) => Some(6)
      case _ => None)
    case Landing =>
      match pc
      case DigestMoved(_, _) => Some(0)
      case RecoverDigest(_, _) => Some(0)
      case RestatMoved(_, _) => Some(1)
      case RecoverRestat(_, _) => Some(1)
      case Commit(_) => Some(2)
      case _ => None
  }

  /** One step of a call passes at most the next check, and only by making it. */
  lemma PassesNext(inp: Input, w: World, pc: Pc, ch: Choice, phase: Phase)
    requires PcInv(inp, w, pc)
    ensures var before, now := Passed(phase, pc), Passed(phase, Advance(inp, w, pc, ch).pc);
            now.Some? && now.value > 0 ==>
              && before == Some(now.value - 1) && Intended(inp, w) && Finds(Checks(phase)[now.value - 1], inp, w)
  {
    if phase.Move? { PassesMove(inp, w, pc, ch); } else { PassesLanding(inp, w, pc, ch); }
  }

  lemma PassesMove(inp: Input, w: World, pc: Pc, ch: Choice)
    requires PcInv(inp, w, pc)
    ensures var before, now := Passed(Move, pc), Passed(Move, Advance(inp, w, pc, ch).pc);
            now.Some? && now.value > 0 ==>
              && before == Some(now.value - 1) && Intended(inp, w) && Finds(MOVE_CHECKS[now.value - 1], inp, w)
  {
    if pc.Reauthorize? { GoesOnIff(inp, w, pc, ch); }
  }

  lemma PassesLanding(inp: Input, w: World, pc: Pc, ch: Choice)
    requires PcInv(inp, w, pc)
    ensures var before, now := Passed(Landing, pc), Passed(Landing, Advance(inp, w, pc, ch).pc);
            now.Some? && now.value > 0 ==>
              && before == Some(now.value - 1) && Intended(inp, w) && Finds(LANDING_CHECKS[now.value - 1], inp, w)
  {
  }

  /** Of the first `n` checks those still ahead, or all of them. */
  ghost function Ahead(c: seq<Check>, passed: Option<nat>, n: nat): seq<Check>
    requires n <= |c|
  {
    if passed.Some? && passed.value <= n then c[passed.value..n] else c[..n]
  }

  /** `b` ends with `a`. */
  ghost predicate Suffix(a: seq<Check>, b: seq<Check>) { |a| <= |b| && b[|b| - |a|..] == a }

  lemma AllAhead(c: seq<Check>, passed: Option<nat>, n: nat)
    requires n <= |c|
    ensures Suffix(Ahead(c, passed, n), c[..n])
  {
    if passed.Some? && passed.value <= n { assert c[..n][passed.value..] == c[passed.value..n]; }
  }

  /** Passing the next check takes it off those ahead; anything else leaves as many ahead. */
  lemma AheadMoves(c: seq<Check>, before: Option<nat>, now: Option<nat>, n: nat)
    requires n <= |c| && (now.Some? && now.value > 0 ==> before == Some(now.value - 1) || before == now)
    ensures var a, b := Ahead(c, before, n), Ahead(c, now, n);
            || Suffix(a, b)
            || (now.Some? && now.value > 0 && before == Some(now.value - 1) && a != [] && b == a[1..] && a[0] == c[now.value - 1])
  {
    AllAhead(c, before, n);
    if now.Some? && 0 < now.value <= n {
      if before == Some(now.value - 1) { assert c[now.value - 1..n][1..] == c[now.value..n]; }
    } else if now == Some(0) {
      assert c[0..n] == c[..n];
    }
  }

  lemma {:induction false} FewerMade(cfg: Exec -> Input, s: State, actions: seq<Action>, e: Exec, checks: seq<Check>, part: seq<Check>)
    requires MadeIn(cfg, s, actions, e, checks) && Suffix(part, checks)
    ensures MadeIn(cfg, s, actions, e, part)
    decreases |actions|, |checks|
  {
    if part != [] && part != checks {
      var s' := Next(cfg, s, actions[0]);
      if Makes(cfg, s, actions[0], e, checks[0]) && MadeIn(cfg, s', actions[1..], e, checks[1..]) {
        assert Suffix(part, checks[1..]);
        FewerMade(cfg, s', actions[1..], e, checks[1..], part);
      } else {
        FewerMade(cfg, s', actions[1..], e, checks, part);
      }
    }
  }

  lemma {:induction false} RunMakes(cfg: Exec -> Input, placed: map<Place, ObjectId>, s: State, actions: seq<Action>, t: State,
                                    e: Exec, phase: Phase, n: nat)
    requires Apart(cfg) && Inv(cfg, placed, s) && Run(cfg, s, actions, t) && Passed(phase, At(t, e)) == Some(n)
    ensures n <= |Checks(phase)| && MadeIn(cfg, s, actions, e, Ahead(Checks(phase), Passed(phase, At(s, e)), n))
    decreases |actions|
  {
    if actions == [] {
      assert Checks(phase)[n..n] == [];
    } else {
      var s' := Next(cfg, s, actions[0]);
      NextKeepsInv(cfg, placed, s, actions[0]);
      RunMakes(cfg, placed, s', actions[1..], t, e, phase, n);
      StepMakes(cfg, placed, s, actions[0], e, phase, n);
      MoreMade(cfg, s, actions, e, Ahead(Checks(phase), Passed(phase, At(s, e)), n), Ahead(Checks(phase), Passed(phase, At(s', e)), n));
    }
  }

  lemma StepMakes(cfg: Exec -> Input, placed: map<Place, ObjectId>, s: State, a: Action, e: Exec, phase: Phase, n: nat)
    requires Inv(cfg, placed, s) && Enabled(s, a) && n <= |Checks(phase)|
    ensures var before, now := Ahead(Checks(phase), Passed(phase, At(s, e)), n), Ahead(Checks(phase), Passed(phase, At(Next(cfg, s, a), e)), n);
            Suffix(before, now) || (before != [] && now == before[1..] && Makes(cfg, s, a, e, before[0]))
  {
    StepPasses(cfg, placed, s, a, e, phase);
    AheadMoves(Checks(phase), Passed(phase, At(s, e)), Passed(phase, At(Next(cfg, s, a), e)), n);
  }

  lemma StepPasses(cfg: Exec -> Input, placed: map<Place, ObjectId>, s: State, a: Action, e: Exec, phase: Phase)
    requires Inv(cfg, placed, s) && Enabled(s, a)
    ensures var before, now := Passed(phase, At(s, e)), Passed(phase, At(Next(cfg, s, a), e));
            now.Some? && now.value > 0 ==>
              before == now || (before == Some(now.value - 1) && Makes(cfg, s, a, e, Checks(phase)[now.value - 1]))
  {
    assert PcInv(cfg(e), s.world, At(s, e));
    if a.Step? && a.e == e { PassesNext(cfg(e), s.world, At(s, e), a.choice, phase); }
  }

  lemma MoreMade(cfg: Exec -> Input, s: State, actions: seq<Action>, e: Exec, before: seq<Check>, now: seq<Check>)
    requires actions != [] && Enabled(s, actions[0]) && MadeIn(cfg, Next(cfg, s, actions[0]), actions[1..], e, now)
    requires Suffix(before, now) || (before != [] && now == before[1..] && Makes(cfg, s, actions[0], e, before[0]))
    ensures MadeIn(cfg, s, actions, e, before)
  {
    if Suffix(before, now) { FewerMade(cfg, Next(cfg, s, actions[0]), actions[1..], e, now, before); }
  }

  /** Before a call moves the object it has, in this order and each time under its own
      intent, found the source as in the snapshot, its tree unchanged, the destination
      free, its bound consent in force, the same object still at the source, and the
      destination still free. */
  lemma MovesAreChecked(cfg: Exec -> Input, s: State, actions: seq<Action>, t: State, a: Action)
    requires Apart(cfg) && Initial(s) && Run(cfg, s, actions, t) && Enabled(t, a)
    requires Placement(Next(cfg, t, a).world) != Placement(t.world)
    ensures a.Step?
    ensures MadeIn(cfg, s, actions, a.e, [SourceUnchanged, TreeUnchanged, DestinationFree, Consent, SameObject, DestinationFree])
  {
    InitialInv(cfg, s);
    NoMoveWithoutIntent(cfg, s, actions, t, a);
    MoverRenames(cfg(a.e), t.world, At(t, a.e), a.choice);
    RunMakes(cfg, Placement(s.world), s, actions, t, a.e, Move, 6);
    assert MOVE_CHECKS[..6] == MOVE_CHECKS;
  }

  lemma MoverRenames(inp: Input, w: World, pc: Pc, ch: Choice)
    requires Placement(Advance(inp, w, pc, ch).world) != Placement(w)
    ensures pc.HelperRename?
  {
  }

  /** The move renames the object of the snapshot, whole and as it is, from the path of
      the snapshot below the source root to the reserved path below the quarantine root,
      where nothing was, and touches nothing else on disk. */
  lemma MoveSays(cfg: Exec -> Input, s: State, actions: seq<Action>, t: State, a: Action)
    requires Apart(cfg) && Initial(s) && Run(cfg, s, actions, t) && Enabled(t, a)
    requires Placement(Next(cfg, t, a).world) != Placement(t.world)
    ensures a.Step?
    ensures var p, w := cfg(a.e).preflight, t.world;
            var from := Place(p.sourceVolume, p.sourceFile, p.snapshot.relative);
            var to := Place(p.quarantineVolume, p.quarantineFile, p.reservation.relative);
            && from in w.fs && w.fs[from].id == p.snapshot.id && to !in w.fs
            && Next(cfg, t, a).world == w.(fs := (w.fs - {from})[to := w.fs[from]])
  {
    InitialInv(cfg, s);
    RunKeepsInv(cfg, Placement(s.world), s, actions, t);
    NoMoveWithoutIntent(cfg, s, actions, t, a);
    assert PcInv(cfg(a.e), t.world, At(t, a.e));
    MoverRenames(cfg(a.e), t.world, At(t, a.e), a.choice);
    var p, w := cfg(a.e).preflight, t.world;
    assert Place(p.sourceVolume, p.sourceFile, p.snapshot.relative) in w.fs;
  }

  /** Before a call writes the receipt it has found the tree of the snapshot at the
      destination and then the object itself. */
  lemma ReceiptsAreChecked(cfg: Exec -> Input, s: State, actions: seq<Action>, t: State, a: Action)
    requires Apart(cfg) && Initial(s) && Run(cfg, s, actions, t) && Enabled(t, a)
    requires Next(cfg, t, a).world.receipt != t.world.receipt
    ensures a.Step? && t.world.receipt.None?
    ensures MadeIn(cfg, s, actions, a.e, [TreeArrived, ObjectArrived])
  {
    InitialInv(cfg, s);
    WriterCommits(cfg(a.e), t.world, At(t, a.e), a.choice);
    RunMakes(cfg, Placement(s.world), s, actions, t, a.e, Landing, 2);
    assert LANDING_CHECKS[..2] == LANDING_CHECKS;
  }

  lemma WriterCommits(inp: Input, w: World, pc: Pc, ch: Choice)
    requires Advance(inp, w, pc, ch).world.receipt != w.receipt
    ensures pc.Commit? && w.receipt.None?
  {
  }

  // ---- records ----

  /** The times a call carries before its intent is on disk are times at which its consent was in force. */
  ghost predicate Timed(inp: Input, w: World, pc: Pc) {
    match pc
    case ReadReceipt(now) => Begun(inp, now, w)
    case ReadIntent(now) => Begun(inp, now, w)
    case StatSource(created, hadIntent) => !hadIntent ==> Begun(inp, created, w)
    case StatDestination(created, hadIntent, _) => !hadIntent ==> Begun(inp, created, w)
    case WriteIntent(created, _) => Begun(inp, created, w)
    case _ => true
  }

  ghost predicate Begun(inp: Input, now: Time, w: World) { Binds(inp) && InForce(inp, now) && now <= w.clock }

  ghost predicate IntentTimed(cfg: Exec -> Input, w: World) {
    w.intent.Some? ==> exists e :: Intended(cfg(e), w) && Begun(cfg(e), w.intent.value.createdAt, w)
  }

  ghost predicate AllTimed(cfg: Exec -> Input, s: State) {
    IntentTimed(cfg, s.world) && forall e :: Timed(cfg(e), s.world, At(s, e))
  }

  lemma StepTimed(inp: Input, w: World, pc: Pc, ch: Choice)
    requires Timed(inp, w, pc)
    ensures var t := Advance(inp, w, pc, ch);
            && Timed(inp, t.world, t.pc) && t.world.clock == w.clock
            && (t.world.intent != w.intent ==>
                  w.intent.None? && t.world.intent.Some? && Intended(inp, t.world) && Begun(inp, t.world.intent.value.createdAt, w))
  {
    if pc.Ready? { GoesOnIff(inp, w, pc, ch); }
  }

  lemma NextTimed(cfg: Exec -> Input, s: State, a: Action)
    requires AllTimed(cfg, s) && Enabled(s, a)
    ensures AllTimed(cfg, Next(cfg, s, a))
  {
    var s' := Next(cfg, s, a);
    if a.Step? {
      assert Timed(cfg(a.e), s.world, At(s, a.e));
      StepTimed(cfg(a.e), s.world, At(s, a.e), a.choice);
    }
    forall e ensures Timed(cfg(e), s'.world, At(s', e)) { assert Timed(cfg(e), s.world, At(s, e)); }
    if s'.world.intent.Some? {
      if s'.world.intent == s.world.intent {
        var e :| Intended(cfg(e), s.world) && Begun(cfg(e), s.world.intent.value.createdAt, s.world);
        assert Intended(cfg(e), s'.world) && Begun(cfg(e), s'.world.intent.value.createdAt, s'.world);
      } else {
        assert Intended(cfg(a.e), s'.world) && Begun(cfg(a.e), s'.world.intent.value.createdAt, s'.world);
      }
    }
  }

  lemma {:induction false} RunTimed(cfg: Exec -> Input, s: State, actions: seq<Action>, t: State)
    requires AllTimed(cfg, s) && Run(cfg, s, actions, t)
    ensures AllTimed(cfg, t)
    decreases |actions|
  {
    if actions != [] {
      NextTimed(cfg, s, actions[0]);
      RunTimed(cfg, Next(cfg, s, actions[0]), actions[1..], t);
    }
  }

  /** The durable intent records the digests of a call, and a time, not in the future,
      at which that call's bound consent was in force. */
  lemma IntentSays(cfg: Exec -> Input, s: State, actions: seq<Action>, t: State)
    requires Initial(s) && Run(cfg, s, actions, t) && t.world.intent.Some?
    ensures exists e :: Intended(cfg(e), t.world) && Begun(cfg(e), t.world.intent.value.createdAt, t.world)
  {
    RunTimed(cfg, s, actions, t);
  }

  /** What the receipt on disk says, field by field, of a call whose object has landed. */
  ghost predicate Says(r: Receipt, inp: Input, w: World) {
    var a, p := inp.authorization, inp.preflight;
    && w.intent.Some? && r.quarantinedAt == w.intent.value.createdAt && r.restoreExpiresAt == r.quarantinedAt + 2_592_000_000
    && r.operationId == a.operationId && r.authorizationDigest == OfAuthorization(a) && r.preflightDigest == p.PreflightDigest()
    && r.candidateSnapshotDigest == OfSnapshot(p.snapshot) && r.treeDigest == p.snapshot.treeDigest
    && r.contentDigest == a.contentDigest && r.sourceObjectId == a.sourceObjectId
    && r.objectIdentityDigest == OfObject(a.sourceObjectId, p.snapshot.id, OfDestination(p.reservation))
    && r.destinationIdentityDigest == OfDestination(p.reservation)
    && p.Source() !in w.fs && p.Destination() in w.fs && w.fs[p.Destination()].id == p.snapshot.id
  }

  lemma ReceiptSays(cfg: Exec -> Input, s: State, actions: seq<Action>, t: State)
    requires Apart(cfg) && Initial(s) && Run(cfg, s, actions, t) && t.world.receipt.Some?
    ensures exists e :: Intended(cfg(e), t.world) && Says(t.world.receipt.value, cfg(e), t.world)
  {
    Reached(cfg, s, actions, t);
    var e :| Owns(cfg(e), t.world) && t.world.receipt.value == TheReceipt(cfg(e), t.world) && Landed(cfg(e).preflight, t.world);
    assert Intended(cfg(e), t.world) && Says(t.world.receipt.value, cfg(e), t.world);
  }
}
