/** Safety of the quarantine protocol over every run: any number of executors,
    with any inputs, interleaved in any order, each free to crash at any step. */
module QuarantineSafety {
  import opened Common
  import opened QuarantineModel

  /** Where every object lies. */
  ghost function Placement(w: World): map<Place, ObjectId> {
    map p | p in w.fs :: w.fs[p].id
  }

  /** What preflight establishes: the two roots do not contain each other. */
  ghost predicate Apart(cfg: Exec -> Input) {
    forall e :: cfg(e).preflight.Source() != cfg(e).preflight.Destination()
  }

  ghost predicate Injective(m: map<Place, ObjectId>) {
    forall p, q :: p in m && q in m && m[p] == m[q] ==> p == q
  }

  /** No record exists yet and no call has begun. */
  ghost predicate Initial(s: State) {
    s.world.intent == None && s.world.receipt == None && s.pcs == map[] && Injective(Placement(s.world))
  }

  ghost predicate Run(cfg: Exec -> Input, s: State, actions: seq<Action>, t: State)
    decreases |actions|
  {
    if actions == [] then s == t
    else Enabled(s, actions[0]) && Run(cfg, Next(cfg, s, actions[0]), actions[1..], t)
  }

  /** The durable intent is bound to this input's own authorization and preflight. */
  ghost predicate Owns(inp: Input, w: World) {
    w.intent.Some? && IntentMatches(inp, w.intent.value)
  }

  /** The source is empty and the destination holds the object of the snapshot. */
  ghost predicate Landed(p: Preflight, w: World) {
    p.Source() !in w.fs && p.Destination() in w.fs && w.fs[p.Destination()].id == p.snapshot.id
  }

  /** The one receipt the durable intent allows this input. */
  ghost function TheReceipt(inp: Input, w: World): Receipt
    requires w.intent.Some?
  {
    BuildReceipt(inp, w.intent.value.createdAt, inp.preflight.snapshot.id)
  }

  ghost predicate OwnsAt(inp: Input, w: World, created: Time) {
    Owns(inp, w) && created == w.intent.value.createdAt
  }

  /** What holds of one call at each of its steps. */
  ghost predicate PcInv(inp: Input, w: World, pc: Pc) {
    var p := inp.preflight;
    match pc
    case StatSource(created, hadIntent) => hadIntent ==> OwnsAt(inp, w, created)
    case StatDestination(created, hadIntent, _) => hadIntent ==> OwnsAt(inp, w, created)
    case WriteIntent(_, before) => before == p.snapshot.id
    case RecheckSource(created, before) => OwnsAt(inp, w, created) && before == p.snapshot.id
    case DigestSource(created, before) => OwnsAt(inp, w, created) && before == p.snapshot.id
    case RecheckDestination(created, before) => OwnsAt(inp, w, created) && before == p.snapshot.id
    case Reauthorize(created, before) => OwnsAt(inp, w, created) && before == p.snapshot.id
    case HelperObserve(created, before) => OwnsAt(inp, w, created) && before == p.snapshot.id
    case HelperProbe(created, before) => AboutToMove(inp, w, created, before)
    case HelperRename(created, before) => AboutToMove(inp, w, created, before)
    case StatMoved(created, before) => OwnsAt(inp, w, created) && before == p.snapshot.id && Landed(p, w)
    case StatVacated(created, moved) => OwnsAt(inp, w, created) && moved == p.snapshot.id && Landed(p, w)
    case DigestMoved(created, moved) => OwnsAt(inp, w, created) && moved == p.snapshot.id && Landed(p, w)
    case RestatMoved(created, moved) => OwnsAt(inp, w, created) && moved == p.snapshot.id && Landed(p, w)
    case RecoverFirst(created, _, fallback) => OwnsAt(inp, w, created) && fallback != Throw(IdempotencyConflict)
    case RecoverSourceSeen(created, _, fallback, source) =>
      && OwnsAt(inp, w, created) && fallback != Throw(IdempotencyConflict)
      && (source.None? ==> p.Source() !in w.fs)
    case RecoverDestinationSeen(created, _, fallback, destination) =>
      && OwnsAt(inp, w, created) && fallback != Throw(IdempotencyConflict)
      && (destination.Some? ==> p.Destination() in w.fs && w.fs[p.Destination()].id == destination.value.id)
    case RecoverDigest(created, seen) => OwnsAt(inp, w, created) && seen == p.snapshot.id && Landed(p, w)
    case RecoverRestat(created, seen) => OwnsAt(inp, w, created) && seen == p.snapshot.id && Landed(p, w)
    case Commit(receipt) => Owns(inp, w) && receipt == TheReceipt(inp, w) && Landed(p, w)
    case Returned(receipt) =>
      w.receipt == Some(receipt) && receipt.authorizationDigest == OfAuthorization(inp.authorization)
    case Failed(error) => error == IdempotencyConflict ==> w.intent.Some? && !Owns(inp, w)
    case _ => true
  }

  ghost predicate AboutToMove(inp: Input, w: World, created: Time, before: ObjectId) {
    var p := inp.preflight;
    && OwnsAt(inp, w, created) && before == p.snapshot.id
    && (p.Source() in w.fs ==> w.fs[p.Source()].id == p.snapshot.id)
  }

  /** `placed` is where the objects lay at first; `inp` has moved its object, and nothing else moved. */
  ghost predicate MovedBy(placed: map<Place, ObjectId>, inp: Input, w: World) {
    var p := inp.preflight;
    && Owns(inp, w)
    && p.Source() in placed && p.Destination() !in placed && placed[p.Source()] == p.snapshot.id
    && Placement(w) == (placed - {p.Source()})[p.Destination() := p.snapshot.id]
  }

  ghost predicate ReceiptInv(cfg: Exec -> Input, w: World) {
    w.receipt.Some? ==>
      exists e :: Owns(cfg(e), w) && w.receipt.value == TheReceipt(cfg(e), w) && Landed(cfg(e).preflight, w)
  }

  ghost predicate PlaceInv(cfg: Exec -> Input, placed: map<Place, ObjectId>, w: World) {
    Placement(w) == placed || exists e :: MovedBy(placed, cfg(e), w)
  }

  ghost predicate Inv(cfg: Exec -> Input, placed: map<Place, ObjectId>, s: State) {
    && ReceiptInv(cfg, s.world)
    && PlaceInv(cfg, placed, s.world)
    && forall e :: PcInv(cfg(e), s.world, At(s, e))
  }

  /** One durable intent has one owner input: its digests determine authorization and preflight. */
  lemma OneOwner(a: Input, b: Input, w: World)
    requires Owns(a, w) && Owns(b, w)
    ensures a.authorization == b.authorization && a.preflight == b.preflight
  {
  }

  /** How the world may change under the feet of a call: records are write-once,
      and places change only by the move of an input that owns the intent. */
  ghost predicate Evolves(w: World, w': World) {
    && (w.intent.Some? ==> w'.intent == w.intent)
    && (w.receipt.Some? ==> w'.receipt == w.receipt)
    && (Placement(w') == Placement(w) || exists mover :: Shifts(mover, w, w'))
  }

  ghost predicate Shifts(mover: Input, w: World, w': World) {
    var p := mover.preflight;
    && Owns(mover, w) && w'.intent == w.intent
    && p.Source() != p.Destination()
    && p.Source() in w.fs && p.Destination() !in w.fs && w.fs[p.Source()].id == p.snapshot.id
    && Placement(w') == (Placement(w) - {p.Source()})[p.Destination() := p.snapshot.id]
  }

  lemma PlacementAt(w: World, w': World, p: Place)
    requires Placement(w') == Placement(w)
    ensures p in w'.fs <==> p in w.fs
    ensures p in w.fs ==> w'.fs[p].id == w.fs[p].id
  {
    assert p in Placement(w) <==> p in w.fs;
    assert p in Placement(w') <==> p in w'.fs;
    if p in w.fs { assert Placement(w')[p] == w'.fs[p].id && Placement(w)[p] == w.fs[p].id; }
  }

  lemma ShiftAt(mover: Input, w: World, w': World, p: Place)
    requires Shifts(mover, w, w')
    ensures p == mover.preflight.Source() ==> p !in w'.fs
    ensures p == mover.preflight.Destination() ==> p in w'.fs && w'.fs[p].id == mover.preflight.snapshot.id
    ensures p != mover.preflight.Source() && p != mover.preflight.Destination() ==>
              (p in w'.fs <==> p in w.fs) && (p in w.fs ==> w'.fs[p].id == w.fs[p].id)
  {
    assert p in Placement(w) <==> p in w.fs;
    assert p in Placement(w') <==> p in w'.fs;
    if p in w'.fs { assert Placement(w')[p] == w'.fs[p].id; }
    if p in w.fs { assert Placement(w)[p] == w.fs[p].id; }
  }

  /** What a call knows stays true while others move on. */
  lemma Stable(inp: Input, w: World, w': World, pc: Pc)
    requires Evolves(w, w') && PcInv(inp, w, pc)
    requires inp.preflight.Source() != inp.preflight.Destination()
    ensures PcInv(inp, w', pc)
  {
    var p := inp.preflight;
    if Placement(w') == Placement(w) {
      PlacementAt(w, w', p.Source());
      PlacementAt(w, w', p.Destination());
    } else {
      var mover :| Shifts(mover, w, w');
      if Owns(inp, w) { OneOwner(inp, mover, w); }
      ShiftAt(mover, w, w', p.Source());
      ShiftAt(mover, w, w', p.Destination());
    }
  }

  lemma StableReceipt(cfg: Exec -> Input, w: World, w': World)
    requires Apart(cfg) && Evolves(w, w') && ReceiptInv(cfg, w) && w'.receipt == w.receipt
    ensures ReceiptInv(cfg, w')
  {
    if w.receipt.Some? {
      var e :| Owns(cfg(e), w) && w.receipt.value == TheReceipt(cfg(e), w) && Landed(cfg(e).preflight, w);
      Stable(cfg(e), w, w', Commit(w.receipt.value));
    }
  }

  lemma StablePlaces(cfg: Exec -> Input, placed: map<Place, ObjectId>, w: World, w': World)
    requires PlaceInv(cfg, placed, w) && Placement(w') == Placement(w) && (w.intent.Some? ==> w'.intent == w.intent)
    ensures PlaceInv(cfg, placed, w')
  {
    if Placement(w) != placed {
      var e :| MovedBy(placed, cfg(e), w);
      assert MovedBy(placed, cfg(e), w');
    }
  }

  /** The moving step is the only one that moves, and it moves for the owner of the intent. */
  lemma RenameShifts(inp: Input, w: World, pc: Pc, ch: Choice)
    requires PcInv(inp, w, pc) && inp.preflight.Source() != inp.preflight.Destination()
    ensures var w' := Advance(inp, w, pc, ch).world;
            w'.fs != w.fs ==> pc.HelperRename? && Shifts(inp, w, w') && w'.receipt == w.receipt
  {
    var p := inp.preflight;
    var w' := Advance(inp, w, pc, ch).world;
    if w'.fs != w.fs {
      var m := (w.fs - {p.Source()})[p.Destination() := w.fs[p.Source()]];
      assert w'.fs == m;
      assert Placement(w') == (Placement(w) - {p.Source()})[p.Destination() := p.snapshot.id];
    }
  }

  lemma StepEvolves(inp: Input, w: World, pc: Pc, ch: Choice)
    requires PcInv(inp, w, pc) && inp.preflight.Source() != inp.preflight.Destination()
    ensures Evolves(w, Advance(inp, w, pc, ch).world)
  {
    RenameShifts(inp, w, pc, ch);
    var w' := Advance(inp, w, pc, ch).world;
    if w'.fs != w.fs { assert Shifts(inp, w, w'); }
  }

  ghost predicate Opening(pc: Pc) {
    pc.Ready? || pc.ReadIntent? || pc.StatSource? || pc.StatDestination? || pc.WriteIntent?
  }

  ghost predicate Moving(pc: Pc) {
    || pc.RecheckSource? || pc.DigestSource? || pc.RecheckDestination? || pc.Reauthorize?
    || pc.HelperObserve? || pc.HelperProbe? || pc.HelperRename?
  }

  /** Steps that only read, up to the decision to go on. */
  lemma OpeningReads(inp: Input, w: World, pc: Pc, ch: Choice)
    requires Opening(pc) && PcInv(inp, w, pc) && Advance(inp, w, pc, ch).world == w
    ensures PcInv(inp, w, Advance(inp, w, pc, ch).pc)
  {
  }

  lemma MovingReads(inp: Input, w: World, pc: Pc, ch: Choice)
    requires Moving(pc) && PcInv(inp, w, pc) && Advance(inp, w, pc, ch).world == w
    ensures PcInv(inp, w, Advance(inp, w, pc, ch).pc)
  {
  }

  /** Steps after the move, and recovery, which end in the one receipt. */
  lemma ClosingReads(inp: Input, w: World, pc: Pc, ch: Choice)
    requires !Opening(pc) && !Moving(pc) && !pc.ReadReceipt? && !pc.Commit?
    requires PcInv(inp, w, pc) && Advance(inp, w, pc, ch).world == w
    ensures PcInv(inp, w, Advance(inp, w, pc, ch).pc)
  {
  }

  /** A call that meets a receipt returns it, or is not the one the intent binds. */
  lemma ReceiptReads(cfg: Exec -> Input, e: Exec, w: World, pc: Pc, ch: Choice)
    requires pc.ReadReceipt? || pc.Commit?
    requires PcInv(cfg(e), w, pc) && ReceiptInv(cfg, w) && w.receipt.Some?
    ensures PcInv(cfg(e), w, Advance(cfg(e), w, pc, ch).pc)
  {
    var o :| Owns(cfg(o), w) && w.receipt.value == TheReceipt(cfg(o), w) && Landed(cfg(o).preflight, w);
    OwnReceiptReads(cfg(e), cfg(o), w, pc, ch);
  }

  lemma OwnReceiptReads(mine: Input, owner: Input, w: World, pc: Pc, ch: Choice)
    requires pc.ReadReceipt? || pc.Commit?
    requires PcInv(mine, w, pc) && w.receipt.Some?
    requires Owns(owner, w) && w.receipt.value == TheReceipt(owner, w) && Landed(owner.preflight, w)
    ensures PcInv(mine, w, Advance(mine, w, pc, ch).pc)
  {
    if Owns(mine, w) { OneOwner(mine, owner, w); }
  }

  /** A step that only reads. */
  lemma ReadKeepsPc(cfg: Exec -> Input, e: Exec, w: World, pc: Pc, ch: Choice)
    requires PcInv(cfg(e), w, pc) && ReceiptInv(cfg, w)
    requires Advance(cfg(e), w, pc, ch).world == w
    ensures PcInv(cfg(e), w, Advance(cfg(e), w, pc, ch).pc)
  {
    if Opening(pc) {
      OpeningReads(cfg(e), w, pc, ch);
    } else if Moving(pc) {
      MovingReads(cfg(e), w, pc, ch);
    } else if !pc.ReadReceipt? && !pc.Commit? {
      ClosingReads(cfg(e), w, pc, ch);
    } else if w.receipt.Some? {
      ReceiptReads(cfg, e, w, pc, ch);
    }
  }

  /** The acting call keeps its own knowledge. */
  lemma StepKeepsPc(cfg: Exec -> Input, e: Exec, w: World, pc: Pc, ch: Choice)
    requires Apart(cfg) && PcInv(cfg(e), w, pc) && ReceiptInv(cfg, w)
    ensures var t := Advance(cfg(e), w, pc, ch); PcInv(cfg(e), t.world, t.pc)
  {
    var inp := cfg(e);
    var t := Advance(inp, w, pc, ch);
    if t.world == w {
      ReadKeepsPc(cfg, e, w, pc, ch);
    } else if pc.HelperRename? {
      RenameShifts(inp, w, pc, ch);
      ShiftAt(inp, w, t.world, inp.preflight.Source());
      ShiftAt(inp, w, t.world, inp.preflight.Destination());
    } else if pc.WriteIntent? {
      assert t.pc.Failed? || t.pc.RecheckSource?;
    } else {
      assert pc.Commit?;
    }
  }

  lemma StepKeepsReceipt(cfg: Exec -> Input, e: Exec, w: World, pc: Pc, ch: Choice)
    requires Apart(cfg) && PcInv(cfg(e), w, pc) && ReceiptInv(cfg, w)
    ensures ReceiptInv(cfg, Advance(cfg(e), w, pc, ch).world)
  {
    var w' := Advance(cfg(e), w, pc, ch).world;
    StepEvolves(cfg(e), w, pc, ch);
    if w'.receipt == w.receipt {
      StableReceipt(cfg, w, w');
    } else {
      assert Owns(cfg(e), w') && w'.receipt.value == TheReceipt(cfg(e), w') && Landed(cfg(e).preflight, w');
    }
  }

  lemma NotYetMoved(cfg: Exec -> Input, placed: map<Place, ObjectId>, inp: Input, w: World)
    requires Apart(cfg) && PlaceInv(cfg, placed, w) && Owns(inp, w) && inp.preflight.Source() in w.fs
    ensures Placement(w) == placed
  {
    assert inp.preflight.Source() in Placement(w);
  }

  lemma StepKeepsPlaces(cfg: Exec -> Input, placed: map<Place, ObjectId>, e: Exec, w: World, pc: Pc, ch: Choice)
    requires Apart(cfg) && PcInv(cfg(e), w, pc) && PlaceInv(cfg, placed, w)
    ensures PlaceInv(cfg, placed, Advance(cfg(e), w, pc, ch).world)
  {
    var w' := Advance(cfg(e), w, pc, ch).world;
    RenameShifts(cfg(e), w, pc, ch);
    var p := cfg(e).preflight;
    if w'.fs == w.fs {
      assert Placement(w') == Placement(w);
      StablePlaces(cfg, placed, w, w');
    } else {
      NotYetMoved(cfg, placed, cfg(e), w);
      assert p.Source() in Placement(w) && Placement(w)[p.Source()] == w.fs[p.Source()].id;
      assert MovedBy(placed, cfg(e), w');
    }
  }

  lemma StepKeepsInv(cfg: Exec -> Input, placed: map<Place, ObjectId>, s: State, e: Exec, ch: Choice)
    requires Apart(cfg) && Inv(cfg, placed, s) && Enabled(s, Step(e, ch))
    ensures Inv(cfg, placed, Next(cfg, s, Step(e, ch))) && Evolves(s.world, Next(cfg, s, Step(e, ch)).world)
  {
    var s' := Next(cfg, s, Step(e, ch));
    var pc := At(s, e);
    assert PcInv(cfg(e), s.world, pc);
    StepEvolves(cfg(e), s.world, pc, ch);
    StepKeepsPc(cfg, e, s.world, pc, ch);
    StepKeepsReceipt(cfg, e, s.world, pc, ch);
    StepKeepsPlaces(cfg, placed, e, s.world, pc, ch);
    forall o ensures PcInv(cfg(o), s'.world, At(s', o)) {
      assert PcInv(cfg(o), s.world, At(s, o));
      if o != e { Stable(cfg(o), s.world, s'.world, At(s, o)); }
    }
  }

  lemma NextKeepsInv(cfg: Exec -> Input, placed: map<Place, ObjectId>, s: State, a: Action)
    requires Apart(cfg) && Inv(cfg, placed, s) && Enabled(s, a)
    ensures Inv(cfg, placed, Next(cfg, s, a)) && Evolves(s.world, Next(cfg, s, a).world)
  {
    var s' := Next(cfg, s, a);
    match a
    case Step(e, ch) =>
      StepKeepsInv(cfg, placed, s, e, ch);
    case Stop(e, how) =>
      assert s'.world == s.world;
      forall o ensures PcInv(cfg(o), s'.world, At(s', o)) { assert PcInv(cfg(o), s.world, At(s, o)); }
    case _ =>
      assert Placement(s'.world) == Placement(s.world);
      QuietKeepsInv(cfg, placed, s, s');
  }

  lemma QuietKeepsInv(cfg: Exec -> Input, placed: map<Place, ObjectId>, s: State, s': State)
    requires Apart(cfg) && Inv(cfg, placed, s) && s'.pcs == s.pcs
    requires Placement(s'.world) == Placement(s.world)
    requires s'.world.intent == s.world.intent && s'.world.receipt == s.world.receipt
    ensures Inv(cfg, placed, s')
  {
    StableReceipt(cfg, s.world, s'.world);
    StablePlaces(cfg, placed, s.world, s'.world);
    forall o ensures PcInv(cfg(o), s'.world, At(s', o)) {
      assert PcInv(cfg(o), s.world, At(s, o));
      Stable(cfg(o), s.world, s'.world, At(s, o));
    }
  }

  lemma {:induction false} RunKeepsInv(cfg: Exec -> Input, placed: map<Place, ObjectId>, s: State, actions: seq<Action>, t: State)
    requires Apart(cfg) && Inv(cfg, placed, s) && Run(cfg, s, actions, t)
    ensures Inv(cfg, placed, t)
    decreases |actions|
  {
    if actions != [] {
      NextKeepsInv(cfg, placed, s, actions[0]);
      RunKeepsInv(cfg, placed, Next(cfg, s, actions[0]), actions[1..], t);
    }
  }

  lemma InitialInv(cfg: Exec -> Input, s: State)
    requires Initial(s)
    ensures Inv(cfg, Placement(s.world), s)
  {
  }
}
