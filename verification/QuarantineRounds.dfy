/** How often a call looks for a concurrent move before it gives up. */
module QuarantineRounds {
  import opened Common
  import opened QuarantineModel
  import opened QuarantineSafety

  /** The looks of a call, one for each time it turns to the two places again. */
  ghost function Looks(cfg: Exec -> Input, s: State, actions: seq<Action>, e: Exec): nat
    decreases |actions|
  {
    if actions == [] || !Enabled(s, actions[0]) then 0
    else
      (if actions[0].Step? && actions[0].e == e && At(s, e).RecoverFirst? then 1 else 0)
      + Looks(cfg, Next(cfg, s, actions[0]), actions[1..], e)
  }

  ghost predicate Recovering(pc: Pc) { pc.RecoverFirst? || pc.RecoverSourceSeen? || pc.RecoverDestinationSeen? }

  /** Behind recovery, one way or the other. */
  ghost predicate Past(pc: Pc) { pc.RecoverDigest? || pc.RecoverRestat? || pc.Commit? || Ended(pc) }

  /** The looks behind a call that is recovering. */
  ghost function Behind(pc: Pc): nat {
    match pc
    case RecoverFirst(_, attempt, _) => attempt
    case RecoverSourceSeen(_, attempt, _, _) => attempt + 1
    case RecoverDestinationSeen(_, attempt, _, _) => attempt + 1
    case _ => 0
  }

  ghost predicate Bounded(pc: Pc) { Behind(pc) <= if pc.RecoverFirst? then 9 else 10 }

  lemma StepCounts(inp: Input, w: World, pc: Pc, ch: Choice)
    requires Bounded(pc)
    ensures var next := Advance(inp, w, pc, ch).pc;
            && Bounded(next) && (Past(pc) ==> Past(next))
            && (Past(next) || Behind(next) == Behind(pc) + if pc.RecoverFirst? then 1 else 0)
  {
  }

  lemma {:induction false} PastStays(cfg: Exec -> Input, s: State, actions: seq<Action>, t: State, e: Exec)
    requires Run(cfg, s, actions, t) && Past(At(s, e))
    ensures Past(At(t, e))
    decreases |actions|
  {
    if actions != [] { PastStays(cfg, Next(cfg, s, actions[0]), actions[1..], t, e); }
  }

  lemma {:induction false} RunCounts(cfg: Exec -> Input, s: State, actions: seq<Action>, t: State, e: Exec)
    requires Run(cfg, s, actions, t) && Bounded(At(s, e)) && !Past(At(t, e))
    ensures Bounded(At(t, e)) && Behind(At(t, e)) == Behind(At(s, e)) + Looks(cfg, s, actions, e)
    decreases |actions|
  {
    if actions != [] {
      var s' := Next(cfg, s, actions[0]);
      if actions[0].Step? && actions[0].e == e { StepCounts(cfg(e), s.world, At(s, e), actions[0].choice); }
      if Past(At(s', e)) { PastStays(cfg, s', actions[1..], t, e); }
      RunCounts(cfg, s', actions[1..], t, e);
    }
  }

  /** A call that looks for a concurrent move goes on looking until its tenth look, and
      gives up exactly then; before that only a foreign object at the destination ends it. */
  lemma TenLooks(cfg: Exec -> Input, s: State, actions: seq<Action>, t: State, e: Exec, ch: Choice)
    requires At(s, e) == Ready && Run(cfg, s, actions, t) && (At(t, e).RecoverSourceSeen? || At(t, e).RecoverDestinationSeen?)
    ensures var looks, next := Looks(cfg, s, actions, e), Advance(cfg(e), t.world, At(t, e), ch).pc;
            && 1 <= looks <= 10
            && (next.RecoverFirst? ==> looks < 10)
            && (Ended(next) && next != Failed(NeedsReconciliation) ==> looks == 10)
            && (Ended(next) || next.RecoverFirst? || next.RecoverDigest?)
  {
    RunCounts(cfg, s, actions, t, e);
  }
}
