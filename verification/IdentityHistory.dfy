/** Identity state over any sequence of scans, adopted moves and approvals. */
module IdentityHistory {
  import opened Common
  import opened Sequences
  import opened Sorting
  import opened Utf16
  import opened IdentityModel

  /** `seen` collects every id that was ever in an inventory. */
  datatype World = World(registry: Registry, inventory: Option<Inventory>, seen: set<Id>)

  const START: World := World(NO_REGISTRY, None, {})

  /** `found` are the issues a scan has of its own; `recorded` is the open issue an
      adopted move was taken from, if there was one. */
  datatype Action =
    | Scan(skills: seq<Skill>, found: seq<Issue>)
    | Adopt(receipt: MoveReceipt, recorded: Option<Issue>)
    | ApproveNew(approval: Approval)

  // ---- the registry writes ----

  /** `persistIdentityMoveReceipt`. */
  function Adopted(r: Registry, receipt: MoveReceipt, collate: Collation): Registry {
    Registry(SortBy(Filter(r.moves, (m: MoveReceipt) => !(m.from == receipt.from && m.to == receipt.to)) + [receipt],
                    (a: MoveReceipt, b: MoveReceipt) => MoveEarlier(a, b, collate)),
             Except(r.tombstones, receipt.from), r.approvals)
  }

  predicate MoveEarlier(a: MoveReceipt, b: MoveReceipt, collate: Collation) {
    collate(a.approvedAt) < collate(b.approvedAt) || (collate(a.approvedAt) == collate(b.approvedAt) && collate(a.from) < collate(b.from))
  }

  /** `persistApprovedNewIdentityReceipt`. */
  function Approved(r: Registry, approval: Approval, collate: Collation): Registry {
    r.(approvals := SortBy(Filter(r.approvals, (a: Approval) => a.id != approval.id) + [approval],
                           (a: Approval, b: Approval) => ApprovalEarlier(a, b, collate)))
  }

  predicate ApprovalEarlier(a: Approval, b: Approval, collate: Collation) {
    collate(a.approvedAt) < collate(b.approvedAt) || (collate(a.approvedAt) == collate(b.approvedAt) && collate(a.id) < collate(b.id))
  }

  lemma SourceAfterAdopt(r: Registry, receipt: MoveReceipt, collate: Collation, id: Id)
    ensures Source(Adopted(r, receipt, collate).moves, id) <==> Source(r.moves, id) || id == receipt.from
  {
    var others := Filter(r.moves, (m: MoveReceipt) => !(m.from == receipt.from && m.to == receipt.to));
    var all := others + [receipt];
    var sorted := Adopted(r, receipt, collate).moves;
    SortPermutes(all, (a: MoveReceipt, b: MoveReceipt) => MoveEarlier(a, b, collate));
    MembersOf(sorted, all);
    SourceIs(sorted, id);
    SourceIs(all, id);
    SourceIs(r.moves, id);
    forall m ensures m in others <==> m in r.moves && !(m.from == receipt.from && m.to == receipt.to) {
      FilterMembers(r.moves, (x: MoveReceipt) => !(x.from == receipt.from && x.to == receipt.to), m);
    }
    assert receipt in all;
  }

  lemma SourceIs(moves: seq<MoveReceipt>, id: Id)
    ensures Source(moves, id) <==> exists m :: m in moves && m.from == id
  {
    if m :| m in moves && m.from == id {
      var i :| 0 <= i < |moves| && moves[i] == m;
    }
  }

  function Except(tombstones: seq<Tombstone>, from: Id): seq<Tombstone> { Filter(tombstones, (t: Tombstone) => t.id != from) }

  lemma {:induction false} BuriedAfterAdopt(tombstones: seq<Tombstone>, from: Id)
    ensures forall id :: Buried(Except(tombstones, from), id) <==> Buried(tombstones, id) && id != from
    ensures BuriedOnce(tombstones) ==> BuriedOnce(Except(tombstones, from))
  {
    if tombstones != [] {
      var first, rest := tombstones[0], tombstones[1..];
      BuriedAfterAdopt(rest, from);
      assert tombstones == [first] + rest;
      BuriedSplit(first, rest);
      OnceSplit(first, rest);
      if first.id != from {
        BuriedSplit(first, Except(rest, from));
        OnceSplit(first, Except(rest, from));
      } else {
        assert Except(tombstones, from) == Except(rest, from);
      }
    }
  }

  lemma BuriedSplit(first: Tombstone, rest: seq<Tombstone>)
    ensures forall id :: Buried([first] + rest, id) <==> first.id == id || Buried(rest, id)
  {
    var all := [first] + rest;
    assert all[0] == first;
    forall id ensures Buried(all, id) <==> first.id == id || Buried(rest, id) {
      if i :| 0 <= i < |rest| && rest[i].id == id { assert all[i + 1].id == id; }
      if i :| 0 <= i < |all| && all[i].id == id && i > 0 { assert rest[i - 1].id == id; }
    }
  }

  lemma OnceSplit(first: Tombstone, rest: seq<Tombstone>)
    ensures BuriedOnce([first] + rest) <==> BuriedOnce(rest) && !Buried(rest, first.id)
  {
    var all := [first] + rest;
    if BuriedOnce(all) {
      forall i, j | 0 <= i < j < |rest| ensures rest[i].id != rest[j].id { assert all[i + 1].id != all[j + 1].id; }
      forall i | 0 <= i < |rest| ensures rest[i].id != first.id { assert all[0].id != all[i + 1].id; }
    }
  }

  // ---- steps ----

  function IdsOf(skills: seq<Skill>): set<Id> { set s | s in skills :: s.id }

  /** A scan in the domain of the inventory before it, compared when that is a version 2 one. */
  ghost predicate ScanStep(w: World, skills: seq<Skill>, found: seq<Issue>, next: World) {
    && next.inventory.Some? && next.inventory.value.version2 && next.inventory.value.skills == skills
    && next.seen == w.seen + IdsOf(skills)
    && next.registry.moves == w.registry.moves && next.registry.approvals == w.registry.approvals
    && match w.inventory
       case None => next.registry == w.registry && next.inventory.value.issues == found
       case Some(previous) =>
         && Compared(w.inventory, skills)
         && BuriesRight(next.registry.tombstones, w.registry.tombstones, previous.skills, skills, w.registry.moves)
         && next.inventory.value.issues == found + ScanIssues(previous, skills, w.registry, next.registry.tombstones)
  }

  function WithoutIssue(inventory: Option<Inventory>, recorded: Option<Issue>): Option<Inventory> {
    match (inventory, recorded)
    case (Some(i), Some(issue)) => Some(i.(issues := Filter(i.issues, (x: Issue) => x != issue)))
    case _ => inventory
  }

  function WithoutTarget(inventory: Option<Inventory>, id: Id): Option<Inventory> {
    match inventory
    case None => None
    case Some(i) => Some(i.(issues := Filter(i.issues, (x: Issue) => x.to != id)))
  }

  ghost predicate Step(w: World, a: Action, next: World, collate: Collation) {
    match a
    case Scan(skills, found) => ScanStep(w, skills, found, next)
    case Adopt(receipt, recorded) =>
      next == World(Adopted(w.registry, receipt, collate), WithoutIssue(w.inventory, recorded), w.seen)
    case ApproveNew(approval) =>
      next == World(Approved(w.registry, approval, collate), WithoutTarget(w.inventory, approval.id), w.seen)
  }

  predicate Present(w: World, id: Id) { w.inventory.Some? && HasSkill(w.inventory.value.skills, id) }

  /** Every id that was ever seen is there now, buried, or the source of an adopted
      move; the buried are buried once and are neither of the others. */
  ghost predicate Inv(w: World) {
    && BuriedOnce(w.registry.tombstones)
    && (forall id :: id in w.seen ==> Present(w, id) || Buried(w.registry.tombstones, id) || Source(w.registry.moves, id))
    && (forall id :: Buried(w.registry.tombstones, id) ==> !Present(w, id) && !Source(w.registry.moves, id) && id in w.seen)
    && (forall id :: Present(w, id) ==> id in w.seen)
    && (w.inventory.Some? ==> w.inventory.value.version2)
  }

  lemma ScanKeepsInv(w: World, skills: seq<Skill>, found: seq<Issue>, next: World)
    requires Inv(w) && ScanStep(w, skills, found, next)
    requires w.inventory.None? ==> w == START
    ensures Inv(next)
  {
    forall id ensures HasSkill(skills, id) <==> id in IdsOf(skills) {
      if i :| 0 <= i < |skills| && skills[i].id == id { assert skills[i] in skills; }
    }
  }

  lemma AdoptKeepsInv(w: World, receipt: MoveReceipt, recorded: Option<Issue>, next: World, collate: Collation)
    requires Inv(w) && Step(w, Adopt(receipt, recorded), next, collate)
    ensures Inv(next)
  {
    BuriedAfterAdopt(w.registry.tombstones, receipt.from);
    forall id ensures Source(next.registry.moves, id) <==> Source(w.registry.moves, id) || id == receipt.from {
      SourceAfterAdopt(w.registry, receipt, collate, id);
    }
    forall id ensures Present(next, id) == Present(w, id) {
    }
  }

  lemma StepKeepsInv(w: World, a: Action, next: World, collate: Collation)
    requires Inv(w) && Step(w, a, next, collate) && (a.Scan? && w.inventory.None? ==> w == START)
    ensures Inv(next)
  {
    match a {
      case Scan(skills, found) => ScanKeepsInv(w, skills, found, next);
      case Adopt(receipt, recorded) => AdoptKeepsInv(w, receipt, recorded, next, collate);
      case ApproveNew(approval) => assert forall id :: Present(next, id) == Present(w, id);
    }
  }

  /** A run: the worlds it goes through, one more than it has actions. */
  ghost predicate Run(worlds: seq<World>, actions: seq<Action>, collate: Collation) {
    && |worlds| == |actions| + 1 && worlds[0] == START
    && (actions != [] ==> actions[0].Scan?)
    && forall i :: 0 <= i < |actions| ==> StepAt(worlds, actions, i, collate)
  }

  ghost predicate StepAt(worlds: seq<World>, actions: seq<Action>, i: nat, collate: Collation)
    requires |worlds| == |actions| + 1 && i < |actions|
  {
    Step(worlds[i], actions[i], worlds[i + 1], collate)
  }

  lemma {:induction false} InventoryStays(worlds: seq<World>, actions: seq<Action>, collate: Collation, k: nat)
    requires Run(worlds, actions, collate) && 1 <= k < |worlds|
    ensures worlds[k].inventory.Some?
  {
    if k > 1 { InventoryStays(worlds, actions, collate, k - 1); }
    assert StepAt(worlds, actions, k - 1, collate);
  }

  /** In every world of every run no identity is forgotten, none is buried twice, and
      none is buried while it is there or after it moved. */
  lemma {:induction false} NothingForgotten(worlds: seq<World>, actions: seq<Action>, collate: Collation, k: nat)
    requires Run(worlds, actions, collate) && k < |worlds|
    ensures Inv(worlds[k])
  {
    if k > 0 {
      NothingForgotten(worlds, actions, collate, k - 1);
      assert StepAt(worlds, actions, k - 1, collate);
      if k > 1 { InventoryStays(worlds, actions, collate, k - 1); }
      StepKeepsInv(worlds[k - 1], actions[k - 1], worlds[k], collate);
    }
  }

  // ---- open issues ----

  predicate KeyIn(issues: seq<Issue>, i: Issue) { exists j :: 0 <= j < |issues| && SameKey(issues[j], i) }

  lemma {:induction false} ReplaceKeeps(issues: seq<Issue>, i: Issue)
    ensures forall x :: KeyIn(Replace(issues, i), x) <==> KeyIn(issues, x) || SameKey(i, x)
    ensures forall x :: x in Replace(issues, i) ==> x in issues || x == i
  {
    var r := Replace(issues, i);
    if issues == [] {
      assert r[0] == i;
    } else if SameKey(issues[0], i) {
      assert r[0] == i;
      forall x ensures KeyIn(r, x) <==> KeyIn(issues, x) || SameKey(i, x) {
        if j :| 0 <= j < |issues| && SameKey(issues[j], x) { assert SameKey(r[j], x); }
        if j :| 0 <= j < |r| && SameKey(r[j], x) && j > 0 { assert SameKey(issues[j], x); }
      }
    } else {
      ReplaceKeeps(issues[1..], i);
      KeySplit(issues);
      KeySplit(r);
      assert r[1..] == Replace(issues[1..], i);
    }
  }

  lemma KeySplit(issues: seq<Issue>)
    requires issues != []
    ensures forall x :: KeyIn(issues, x) <==> SameKey(issues[0], x) || KeyIn(issues[1..], x)
  {
    forall x ensures KeyIn(issues, x) <==> SameKey(issues[0], x) || KeyIn(issues[1..], x) {
      if j :| 0 <= j < |issues| && SameKey(issues[j], x) && j > 0 { assert SameKey(issues[1..][j - 1], x); }
      if j :| 0 <= j < |issues[1..]| && SameKey(issues[1..][j], x) { assert SameKey(issues[j + 1], x); }
    }
  }

  /** Keeping one issue per key loses no key and invents no issue. */
  lemma {:induction false} OnePerKeyKeeps(issues: seq<Issue>)
    ensures forall x :: KeyIn(OnePerKey(issues), x) <==> KeyIn(issues, x)
    ensures forall x :: x in OnePerKey(issues) ==> x in issues
  {
    if issues != [] {
      var before, last := issues[..|issues| - 1], issues[|issues| - 1];
      OnePerKeyKeeps(before);
      ReplaceKeeps(OnePerKey(before), last);
      assert issues == before + [last];
      forall x ensures KeyIn(issues, x) <==> KeyIn(before, x) || SameKey(last, x) {
        if j :| 0 <= j < |before| && SameKey(before[j], x) { assert SameKey(issues[j], x); }
        if SameKey(last, x) { assert SameKey(issues[|before|], x); }
      }
    }
  }

  lemma {:induction false} CarryAllHas(issues: seq<Issue>, current: seq<Skill>, r: Registry, i: Issue)
    requires i in issues
    ensures forall x :: x in Carry(i, current, r) ==> x in CarryAll(issues, current, r)
  {
    var before, last := issues[..|issues| - 1], issues[|issues| - 1];
    if i != last {
      assert i in before;
      CarryAllHas(before, current, r, i);
    }
  }

  /** An undecided issue over a target that is there. */
  predicate Undecided(i: Issue, current: seq<Skill>, r: Registry) {
    && LastSkill(current, i.to).Some? && !HasApproval(r.approvals, LastSkill(current, i.to).value)
    && (i.kind.Pending? ==>
          !HasReceipt(r.moves, i.kind.from, i.to, LastSkill(current, i.to).value.name, LastSkill(current, i.to).value.revision))
  }

  lemma ScanKeepsOpen(previous: Inventory, current: seq<Skill>, r: Registry, tombstones: seq<Tombstone>, i: Issue)
    requires i in previous.issues && (CompletePending(i) || CompleteAmbiguous(i)) && Undecided(i, current, r)
    ensures KeyIn(ScanIssues(previous, current, r, tombstones), Updated(i, LastSkill(current, i.to).value))
  {
    var x := Updated(i, LastSkill(current, i.to).value);
    var pending, ambiguous := PendingOf(previous.issues), AmbiguousOf(previous.issues);
    if CompletePending(i) {
      FilterMembers(previous.issues, (y: Issue) => CompletePending(y), i);
      CarryAllHas(pending, current, r, i);
    } else {
      FilterMembers(previous.issues, (y: Issue) => CompleteAmbiguous(y), i);
      CarryAllHas(ambiguous, current, r, i);
    }
    var added := Filter(current, (s: Skill) => !HasSkill(previous.skills, s.id));
    var all := CarryAll(pending, current, r) + CarryAll(ambiguous, current, r) + DetectAll(added, tombstones, pending, r);
    assert x in all;
    var j :| 0 <= j < |all| && all[j] == x;
    assert SameKey(all[j], x);
    OnePerKeyKeeps(all);
  }

  /** The inventory has an open issue of this kind about this target. */
  ghost predicate Open(w: World, kind: Kind, to: Id) {
    w.inventory.Some? && exists i :: i in w.inventory.value.issues && i.kind == kind && i.to == to && (CompletePending(i) || CompleteAmbiguous(i))
  }

  /** An action that leaves the move undecided: a scan that finds the target, named,
      without a receipt or an approval for it as it is; an adoption taken from another
      issue; an approval of another skill. */
  ghost predicate Leaves(w: World, a: Action, kind: Kind, to: Id) {
    match a
    case Scan(skills, _) =>
      && LastSkill(skills, to).Some? && !HasApproval(w.registry.approvals, LastSkill(skills, to).value)
      && LastSkill(skills, to).value.name != [] && LastSkill(skills, to).value.revision != []
      && (kind.Pending? ==>
            !HasReceipt(w.registry.moves, kind.from, to, LastSkill(skills, to).value.name, LastSkill(skills, to).value.revision))
    case Adopt(_, recorded) => recorded.Some? ==> recorded.value.kind != kind || recorded.value.to != to
    case ApproveNew(approval) => approval.id != to
  }

  lemma {:induction false} IssuesComplete(issues: seq<Issue>, x: Issue)
    requires KeyIn(issues, x)
    ensures exists y :: y in issues && SameKey(y, x)
  {
    var j :| 0 <= j < |issues| && SameKey(issues[j], x);
    assert issues[j] in issues;
  }

  lemma {:induction false} CarriedName(issues: seq<Issue>, current: seq<Skill>, r: Registry, x: Issue)
    requires x in CarryAll(issues, current, r)
    ensures LastSkill(current, x.to).Some? && x.name == LastSkill(current, x.to).value.name
  {
    var before, last := issues[..|issues| - 1], issues[|issues| - 1];
    if x in CarryAll(before, current, r) { CarriedName(before, current, r, x); }
  }

  lemma {:induction false} DetectedName(added: seq<Skill>, tombstones: seq<Tombstone>, pending: seq<Issue>, r: Registry, x: Issue)
    requires x in DetectAll(added, tombstones, pending, r)
    ensures exists s :: s in added && s.id == x.to && s.name == x.name
  {
    var before, last := added[..|added| - 1], added[|added| - 1];
    if x in DetectAll(before, tombstones, pending, r) {
      DetectedName(before, tombstones, pending, r, x);
      var s :| s in before && s.id == x.to && s.name == x.name;
      assert s in added;
    } else {
      assert last in added && x in Detect(last, tombstones, pending, r);
    }
  }

  /** Every skill of a scan has a name. */
  predicate Named(skills: seq<Skill>) { forall i :: 0 <= i < |skills| ==> skills[i].name != [] }

  lemma {:induction false} LastSkillIn(skills: seq<Skill>, id: Id)
    ensures LastSkill(skills, id).Some? ==> LastSkill(skills, id).value in skills && LastSkill(skills, id).value.id == id
  {
    if skills != [] { LastSkillIn(skills[..|skills| - 1], id); }
  }

  lemma ScanIssuesNamed(previous: Inventory, current: seq<Skill>, r: Registry, tombstones: seq<Tombstone>, x: Issue)
    requires Named(current) && x in ScanIssues(previous, current, r, tombstones)
    ensures x.name != []
  {
    var pending, ambiguous := PendingOf(previous.issues), AmbiguousOf(previous.issues);
    var added := Filter(current, (s: Skill) => !HasSkill(previous.skills, s.id));
    OnePerKeyKeeps(CarryAll(pending, current, r) + CarryAll(ambiguous, current, r) + DetectAll(added, tombstones, pending, r));
    LastSkillIn(current, x.to);
    if x in CarryAll(pending, current, r) {
      CarriedName(pending, current, r, x);
    } else if x in CarryAll(ambiguous, current, r) {
      CarriedName(ambiguous, current, r, x);
    } else {
      DetectedName(added, tombstones, pending, r, x);
      var s :| s in added && s.id == x.to && s.name == x.name;
      FilterMembers(current, (t: Skill) => !HasSkill(previous.skills, t.id), s);
    }
  }

  lemma OpenStep(w: World, a: Action, next: World, kind: Kind, to: Id, collate: Collation)
    requires Step(w, a, next, collate) && Open(w, kind, to) && Leaves(w, a, kind, to)
    requires a.Scan? ==> Named(a.skills)
    ensures Open(next, kind, to)
  {
    var i :| i in w.inventory.value.issues && i.kind == kind && i.to == to && (CompletePending(i) || CompleteAmbiguous(i));
    match a {
      case Scan(skills, found) =>
        var previous := w.inventory.value;
        ScanKeepsOpen(previous, skills, w.registry, next.registry.tombstones, i);
        var x := Updated(i, LastSkill(skills, to).value);
        var issues := ScanIssues(previous, skills, w.registry, next.registry.tombstones);
        IssuesComplete(issues, x);
        var y :| y in issues && SameKey(y, x);
        ScanIssuesNamed(previous, skills, w.registry, next.registry.tombstones, y);
        assert y in next.inventory.value.issues;
      case Adopt(receipt, recorded) =>
        if recorded.Some? { FilterMembers(w.inventory.value.issues, (x: Issue) => x != recorded.value, i); }
        assert i in next.inventory.value.issues;
      case ApproveNew(approval) =>
        FilterMembers(w.inventory.value.issues, (x: Issue) => x.to != approval.id, i);
        assert i in next.inventory.value.issues;
    }
  }

  /** An issue stays open through any sequence of scans, adoptions and approvals that
      leave it undecided and keep its target in place. */
  lemma {:induction false} OpenUntilDecided(worlds: seq<World>, actions: seq<Action>, kind: Kind, to: Id, collate: Collation, k: nat)
    requires |worlds| == |actions| + 1 && k < |worlds| && Open(worlds[0], kind, to)
    requires forall i :: 0 <= i < k ==>
               StepAt(worlds, actions, i, collate) && Leaves(worlds[i], actions[i], kind, to)
               && (actions[i].Scan? ==> Named(actions[i].skills))
    ensures Open(worlds[k], kind, to)
  {
    if k > 0 {
      OpenUntilDecided(worlds, actions, kind, to, collate, k - 1);
      assert StepAt(worlds, actions, k - 1, collate);
      OpenStep(worlds[k - 1], actions[k - 1], worlds[k], kind, to, collate);
    }
  }
}
