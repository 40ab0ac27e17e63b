/** The undisturbed call: nothing fails, nobody interferes, and the object is moved. */
module QuarantineFirstCall {
  import opened Common
  import opened QuarantineModel
  import opened QuarantineSafety
  import opened QuarantineTheorems

  /** The object lies at the source as in the snapshot, and the destination is free. */
  ghost predicate Untouched(p: Preflight, w: World) {
    && p.Source() in w.fs && w.fs[p.Source()].id == p.snapshot.id && w.fs[p.Source()].stats == p.snapshot.stats
    && OfTree(w.fs[p.Source()].tree) == p.snapshot.treeDigest && p.Destination() !in w.fs
  }

  /** The object lies at the destination, with the tree of the snapshot, and the source is empty. */
  ghost predicate Arrived(p: Preflight, w: World) {
    && p.Source() !in w.fs && p.Destination() in w.fs && w.fs[p.Destination()].id == p.snapshot.id
    && OfTree(w.fs[p.Destination()].tree) == p.snapshot.treeDigest
  }

  /** Nobody else's intent is on disk. */
  ghost predicate Unclaimed(inp: Input, w: World) { w.intent.Some? ==> Owns(inp, w) }

  ghost predicate Consents(inp: Input, w: World) { Binds(inp) && InForce(inp, w.clock) }

  /** Where an undisturbed call stands, and what it then finds. */
  ghost predicate Undisturbed(inp: Input, w: World, pc: Pc) {
    var p := inp.preflight;
    match pc
    case Ready => Untouched(p, w) && Unclaimed(inp, w) && w.receipt.None? && Consents(inp, w)
    case ReadReceipt(_) => Untouched(p, w) && Unclaimed(inp, w) && w.receipt.None? && Consents(inp, w)
    case ReadIntent(_) => Untouched(p, w) && Unclaimed(inp, w) && w.receipt.None? && Consents(inp, w)
    case StatSource(created, hadIntent) =>
      Untouched(p, w) && w.receipt.None? && Consents(inp, w) && if hadIntent then OwnsAt(inp, w, created) else w.intent.None?
    case StatDestination(created, hadIntent, source) =>
      && Untouched(p, w) && w.receipt.None? && Consents(inp, w) && source == Some(w.fs[p.Source()])
      && if hadIntent then OwnsAt(inp, w, created) else w.intent.None?
    case WriteIntent(_, before) =>
      Untouched(p, w) && w.receipt.None? && Consents(inp, w) && w.intent.None? && before == p.snapshot.id
    case StatMoved(created, before) => Arrived(p, w) && w.receipt.None? && OwnsAt(inp, w, created) && before == p.snapshot.id
    case StatVacated(created, moved) => Arrived(p, w) && w.receipt.None? && OwnsAt(inp, w, created) && moved == p.snapshot.id
    case DigestMoved(created, moved) => Arrived(p, w) && w.receipt.None? && OwnsAt(inp, w, created) && moved == p.snapshot.id
    case RestatMoved(created, moved) => Arrived(p, w) && w.receipt.None? && OwnsAt(inp, w, created) && moved == p.snapshot.id
    case Commit(receipt) => Arrived(p, w) && w.receipt.None? && Owns(inp, w) && receipt == TheReceipt(inp, w)
    case Returned(receipt) => Arrived(p, w) && w.receipt == Some(receipt) && Owns(inp, w) && receipt == TheReceipt(inp, w)
    case _ => Checking(inp, w, pc)
  }

  /** Between its intent and the move. */
  ghost predicate Checking(inp: Input, w: World, pc: Pc) {
    && (pc.RecheckSource? || pc.DigestSource? || pc.RecheckDestination? || pc.Reauthorize? || pc.HelperObserve?
        || pc.HelperProbe? || pc.HelperRename?)
    && Untouched(inp.preflight, w) && w.receipt.None? && (Left(pc) >= 9 ==> Consents(inp, w))
    && OwnsAt(inp, w, pc.created) && pc.before == inp.preflight.snapshot.id
  }

  /** How many steps such a call still needs. */
  ghost function Left(pc: Pc): nat {
    match pc
    case Ready => 18
    case ReadReceipt(_) => 17
    case ReadIntent(_) => 16
    case StatSource(_, _) => 15
    case StatDestination(_, _, _) => 14
    case WriteIntent(_, _) => 13
    case RecheckSource(_, _) => 12
    case DigestSource(_, _) => 11
    case RecheckDestination(_, _) => 10
    case Reauthorize(_, _) => 9
    case HelperObserve(_, _) => 8
    case HelperProbe(_, _) => 7
    case HelperRename(_, _) => 6
    case StatMoved(_, _) => 5
    case StatVacated(_, _) => 4
    case DigestMoved(_, _) => 3
    case RestatMoved(_, _) => 2
    case Commit(_) => 1
    case _ => 0
  }

  predicate Smooth(ch: Choice) { !ch.fault && !ch.crossVolume && !ch.refused && !ch.lost }

  /** What may happen beside the call: time may pass, within its consent up to the
      last check of it, other objects may be edited, and other calls may read, fail and crash, but write nothing. */
  ghost predicate Calm(cfg: Exec -> Input, s: State, e: Exec, a: Action)
    requires Enabled(s, a)
  {
    match a
    case Step(o, ch) => if o == e then Smooth(ch) else Next(cfg, s, a).world == s.world
    case Stop(o, _) => o != e
    case Tick(passed) => Left(At(s, e)) >= 9 ==> InForce(cfg(e), s.world.clock + passed)
    case Touch(p, _, _) => p != cfg(e).preflight.Source() && p != cfg(e).preflight.Destination()
  }

  ghost predicate CalmRun(cfg: Exec -> Input, s: State, e: Exec, actions: seq<Action>, t: State)
    decreases |actions|
  {
    if actions == [] then s == t
    else Enabled(s, actions[0]) && Calm(cfg, s, e, actions[0]) && CalmRun(cfg, Next(cfg, s, actions[0]), e, actions[1..], t)
  }

  lemma OpeningTurn(inp: Input, w: World, pc: Pc, ch: Choice)
    requires Undisturbed(inp, w, pc) && Left(pc) >= 13 && Smooth(ch)
    ensures var t := Advance(inp, w, pc, ch); Undisturbed(inp, t.world, t.pc) && Left(t.pc) < Left(pc)
  {
  }

  lemma CheckingTurn(inp: Input, w: World, pc: Pc, ch: Choice)
    requires Undisturbed(inp, w, pc) && 7 <= Left(pc) <= 12 && Smooth(ch)
    ensures var t := Advance(inp, w, pc, ch); Undisturbed(inp, t.world, t.pc) && Left(t.pc) < Left(pc)
  {
  }

  lemma MovingTurn(inp: Input, w: World, pc: Pc, ch: Choice)
    requires inp.preflight.Source() != inp.preflight.Destination()
    requires Undisturbed(inp, w, pc) && pc.HelperRename? && Smooth(ch)
    ensures var t := Advance(inp, w, pc, ch); Undisturbed(inp, t.world, t.pc) && Left(t.pc) < Left(pc)
  {
  }

  lemma ClosingTurn(inp: Input, w: World, pc: Pc, ch: Choice)
    requires Undisturbed(inp, w, pc) && 0 < Left(pc) <= 5 && Smooth(ch)
    ensures var t := Advance(inp, w, pc, ch); Undisturbed(inp, t.world, t.pc) && Left(t.pc) < Left(pc)
  {
  }

  lemma OwnTurn(inp: Input, w: World, pc: Pc, ch: Choice)
    requires inp.preflight.Source() != inp.preflight.Destination()
    requires Undisturbed(inp, w, pc) && !Ended(pc) && Smooth(ch)
    ensures var t := Advance(inp, w, pc, ch); Undisturbed(inp, t.world, t.pc) && Left(t.pc) < Left(pc)
  {
    if Left(pc) >= 13 {
      OpeningTurn(inp, w, pc, ch);
    } else if Left(pc) >= 7 {
      CheckingTurn(inp, w, pc, ch);
    } else if pc.HelperRename? {
      MovingTurn(inp, w, pc, ch);
    } else {
      ClosingTurn(inp, w, pc, ch);
    }
  }

  lemma OthersTurn(cfg: Exec -> Input, s: State, e: Exec, a: Action)
    requires Undisturbed(cfg(e), s.world, At(s, e)) && Enabled(s, a) && Calm(cfg, s, e, a) && !(a.Step? && a.e == e)
    ensures Undisturbed(cfg(e), Next(cfg, s, a).world, At(s, e)) && At(Next(cfg, s, a), e) == At(s, e)
  {
  }

  lemma {:induction false} CalmKeeps(cfg: Exec -> Input, s: State, e: Exec, actions: seq<Action>, t: State)
    requires Apart(cfg) && Undisturbed(cfg(e), s.world, At(s, e)) && CalmRun(cfg, s, e, actions, t)
    ensures Undisturbed(cfg(e), t.world, At(t, e)) && Left(At(t, e)) + OwnSteps(e, actions) <= Left(At(s, e))
    decreases |actions|
  {
    if actions != [] {
      var a := actions[0];
      if a.Step? && a.e == e {
        OwnTurn(cfg(e), s.world, At(s, e), a.choice);
      } else {
        OthersTurn(cfg, s, e, a);
      }
      CalmKeeps(cfg, Next(cfg, s, a), e, actions[1..], t);
    }
  }

  lemma Standing(inp: Input, w: World, pc: Pc)
    requires Undisturbed(inp, w, pc)
    ensures pc.Returned? || (Left(pc) > 0 && !Ended(pc))
  {
  }

  /** With the source as in the snapshot, the destination free, nobody else's intent, no
      receipt and a bound consent in force, an undisturbed call returns a receipt within
      eighteen of its own steps: then the object has arrived, and the receipt is on disk. */
  lemma FirstCallSucceeds(cfg: Exec -> Input, s: State, e: Exec, actions: seq<Action>, t: State)
    requires Apart(cfg) && At(s, e) == Ready && Untouched(cfg(e).preflight, s.world) && Unclaimed(cfg(e), s.world)
    requires s.world.receipt.None? && Binds(cfg(e)) && InForce(cfg(e), s.world.clock)
    requires CalmRun(cfg, s, e, actions, t)
    ensures At(t, e).Returned? || (OwnSteps(e, actions) < 18 && !Ended(At(t, e)))
    ensures At(t, e).Returned? ==> Arrived(cfg(e).preflight, t.world) && t.world.receipt == Some(At(t, e).receipt) && Owns(cfg(e), t.world)
  {
    CalmKeeps(cfg, s, e, actions, t);
    Standing(cfg(e), t.world, At(t, e));
  }
}
