/** When a move that a scan reported stays open, and when it does not. */
module IdentityOpen {
  import opened Common
  import opened Sequences
  import opened Utf16
  import opened IdentityModel
  import opened IdentityHistory

  /** No two of the issues are about the same move, and every target is there. */
  ghost predicate Tidy(w: World) {
    w.inventory.Some? ==>
      && OneEach(w.inventory.value.issues)
      && forall x :: x in w.inventory.value.issues && !x.kind.Unrelated? ==> HasSkill(w.inventory.value.skills, x.to)
  }

  ghost predicate OneEach(issues: seq<Issue>) {
    forall i, j :: 0 <= i < j < |issues| ==> !SameMove(issues[i], issues[j])
  }

  predicate SameMove(x: Issue, y: Issue) { !x.kind.Unrelated? && x.kind == y.kind && x.to == y.to }

  /** A scan whose skills have names and different ids, and whose own issues are not about moves. */
  ghost predicate Orderly(a: Action) {
    a.Scan? ==> Named(a.skills) && OneSkillEach(a.skills) && forall x :: x in a.found ==> x.kind.Unrelated?
  }

  ghost predicate OneSkillEach(skills: seq<Skill>) {
    forall i, j :: 0 <= i < |skills| && 0 <= j < |skills| && skills[i].id == skills[j].id ==> i == j
  }

  // ---- what a scan returns ----

  lemma {:induction false} CarriedFrom(issues: seq<Issue>, current: seq<Skill>, r: Registry, x: Issue)
    requires x in CarryAll(issues, current, r)
    ensures exists y :: y in issues && x in Carry(y, current, r)
  {
    var before, last := issues[..|issues| - 1], issues[|issues| - 1];
    if x in CarryAll(before, current, r) {
      CarriedFrom(before, current, r, x);
      var y :| y in before && x in Carry(y, current, r);
      assert y in issues;
    } else {
      assert last in issues && x in Carry(last, current, r);
    }
  }

  lemma {:induction false} DetectedFrom(added: seq<Skill>, tombstones: seq<Tombstone>, pending: seq<Issue>, r: Registry, x: Issue)
    requires x in DetectAll(added, tombstones, pending, r)
    ensures exists s :: s in added && s.id == x.to && s.revision == x.revision
    ensures !x.kind.Unrelated?
  {
    var before, last := added[..|added| - 1], added[|added| - 1];
    if x in DetectAll(before, tombstones, pending, r) {
      DetectedFrom(before, tombstones, pending, r, x);
      var s :| s in before && s.id == x.to && s.revision == x.revision;
      assert s in added;
    } else {
      assert last in added && x in Detect(last, tombstones, pending, r);
    }
  }

  /** Where an issue of a scan comes from: an issue before it, or an added skill. */
  ghost predicate Carried(previous: Inventory, current: seq<Skill>, r: Registry, x: Issue) {
    exists y :: y in previous.issues && (CompletePending(y) || CompleteAmbiguous(y)) && x in Carry(y, current, r)
  }

  ghost predicate Added(previous: Inventory, current: seq<Skill>, x: Issue) {
    exists s :: s in current && !HasSkill(previous.skills, s.id) && s.id == x.to && s.revision == x.revision
  }

  lemma CarriedHere(previous: Inventory, current: seq<Skill>, r: Registry, issues: seq<Issue>, p: Issue -> bool, x: Issue)
    requires issues == Filter(previous.issues, p) && x in CarryAll(issues, current, r)
    requires forall y :: p(y) ==> CompletePending(y) || CompleteAmbiguous(y)
    ensures Carried(previous, current, r, x)
  {
    CarriedFrom(issues, current, r, x);
    var y :| y in issues && x in Carry(y, current, r);
    FilterMembers(previous.issues, p, y);
  }

  lemma ScanIssueFrom(previous: Inventory, current: seq<Skill>, r: Registry, tombstones: seq<Tombstone>, x: Issue)
    requires x in ScanIssues(previous, current, r, tombstones)
    ensures Carried(previous, current, r, x) || (Added(previous, current, x) && !x.kind.Unrelated?)
  {
    var pending, ambiguous := PendingOf(previous.issues), AmbiguousOf(previous.issues);
    var added := Filter(current, (s: Skill) => !HasSkill(previous.skills, s.id));
    OnePerKeyKeeps(CarryAll(pending, current, r) + CarryAll(ambiguous, current, r) + DetectAll(added, tombstones, pending, r));
    if x in CarryAll(pending, current, r) {
      CarriedHere(previous, current, r, pending, (i: Issue) => CompletePending(i), x);
    } else if x in CarryAll(ambiguous, current, r) {
      CarriedHere(previous, current, r, ambiguous, (i: Issue) => CompleteAmbiguous(i), x);
    } else {
      DetectedFrom(added, tombstones, pending, r, x);
      var s :| s in added && s.id == x.to && s.revision == x.revision;
      FilterMembers(current, (t: Skill) => !HasSkill(previous.skills, t.id), s);
    }
  }

  lemma HasIf(skills: seq<Skill>, s: Skill)
    requires s in skills
    ensures HasSkill(skills, s.id)
  {
    var i :| 0 <= i < |skills| && skills[i] == s;
  }

  /** Every issue of a scan is about a skill that is there, as it is. */
  lemma ScanIssueTarget(previous: Inventory, current: seq<Skill>, r: Registry, tombstones: seq<Tombstone>, x: Issue)
    requires OneSkillEach(current) && x in ScanIssues(previous, current, r, tombstones)
    ensures HasSkill(current, x.to)
    ensures exists s :: s in current && s.id == x.to && s.revision == x.revision
  {
    ScanIssueFrom(previous, current, r, tombstones, x);
    if Carried(previous, current, r, x) {
      var y :| y in previous.issues && (CompletePending(y) || CompleteAmbiguous(y)) && x in Carry(y, current, r);
      LastSkillIn(current, y.to);
      HasIf(current, LastSkill(current, y.to).value);
    } else {
      var s :| s in current && !HasSkill(previous.skills, s.id) && s.id == x.to && s.revision == x.revision;
      HasIf(current, s);
    }
  }

  // ---- one issue for each move ----

  ghost predicate KeysApart(issues: seq<Issue>) {
    forall i, j :: 0 <= i < j < |issues| ==> !SameKey(issues[i], issues[j])
  }

  lemma {:induction false} ReplaceApart(issues: seq<Issue>, x: Issue)
    requires KeysApart(issues)
    ensures KeysApart(Replace(issues, x))
  {
    if issues != [] && !SameKey(issues[0], x) {
      var rest := issues[1..];
      ReplaceApart(rest, x);
      ReplaceKeeps(rest, x);
      var all := Replace(issues, x);
      forall i, j | 0 <= i < j < |all| ensures !SameKey(all[i], all[j]) {
        if i == 0 { ApartFrom(issues[0], rest, x, all[j]); } else { assert all[i] == Replace(rest, x)[i - 1]; }
      }
    }
  }

  lemma ApartFrom(first: Issue, rest: seq<Issue>, x: Issue, y: Issue)
    requires KeysApart([first] + rest) && !SameKey(first, x) && y in Replace(rest, x)
    ensures !SameKey(first, y)
  {
    ReplaceKeeps(rest, x);
    if y != x {
      var k :| 0 <= k < |rest| && rest[k] == y;
      assert ([first] + rest)[0] == first && ([first] + rest)[k + 1] == y;
    }
  }

  lemma {:induction false} OnePerKeyApart(issues: seq<Issue>)
    ensures KeysApart(OnePerKey(issues))
  {
    if issues != [] {
      OnePerKeyApart(issues[..|issues| - 1]);
      ReplaceApart(OnePerKey(issues[..|issues| - 1]), issues[|issues| - 1]);
    }
  }

  lemma ScanOneEach(previous: Inventory, current: seq<Skill>, r: Registry, tombstones: seq<Tombstone>)
    requires OneSkillEach(current)
    ensures OneEach(ScanIssues(previous, current, r, tombstones))
  {
    var issues := ScanIssues(previous, current, r, tombstones);
    var pending := PendingOf(previous.issues);
    var added := Filter(current, (s: Skill) => !HasSkill(previous.skills, s.id));
    OnePerKeyApart(CarryAll(pending, current, r) + CarryAll(AmbiguousOf(previous.issues), current, r)
                   + DetectAll(added, tombstones, pending, r));
    forall i, j | 0 <= i < j < |issues| ensures !SameMove(issues[i], issues[j]) {
      if issues[i].to == issues[j].to {
        ScanIssueTarget(previous, current, r, tombstones, issues[i]);
        ScanIssueTarget(previous, current, r, tombstones, issues[j]);
        assert issues[i].revision == issues[j].revision;
        assert !SameKey(issues[i], issues[j]);
      }
    }
  }

  lemma AfterUnrelated(found: seq<Issue>, issues: seq<Issue>)
    requires OneEach(issues) && forall x :: x in found ==> x.kind.Unrelated?
    ensures OneEach(found + issues)
  {
    var all := found + issues;
    forall i, j | 0 <= i < j < |all| ensures !SameMove(all[i], all[j]) {
      if i < |found| { assert all[i] in found; } else { assert all[i] == issues[i - |found|] && all[j] == issues[j - |found|]; }
    }
  }

  lemma {:induction false} FilterOneEach(issues: seq<Issue>, p: Issue -> bool)
    requires OneEach(issues)
    ensures OneEach(Filter(issues, p))
  {
    if issues != [] {
      var rest := issues[1..];
      FilterOneEach(rest, p);
      var kept := Filter(rest, p);
      forall x | x in kept ensures !SameMove(issues[0], x) {
        FilterMembers(rest, p, x);
        var k :| 0 <= k < |rest| && rest[k] == x;
        assert issues[k + 1] == x;
      }
    }
  }

  lemma ScanKeepsTidy(w: World, skills: seq<Skill>, found: seq<Issue>, next: World)
    requires ScanStep(w, skills, found, next) && Orderly(Scan(skills, found))
    ensures Tidy(next)
  {
    match w.inventory
    case None => AfterUnrelated(found, []); assert found + [] == found;
    case Some(previous) =>
      var issues := ScanIssues(previous, skills, w.registry, next.registry.tombstones);
      ScanOneEach(previous, skills, w.registry, next.registry.tombstones);
      AfterUnrelated(found, issues);
      forall x | x in found + issues && !x.kind.Unrelated? ensures HasSkill(skills, x.to) {
        ScanIssueTarget(previous, skills, w.registry, next.registry.tombstones, x);
      }
  }

  lemma FilteredTidy(w: World, p: Issue -> bool, next: World)
    requires Tidy(w) && w.inventory.Some?
    requires next.inventory == Some(w.inventory.value.(issues := Filter(w.inventory.value.issues, p)))
    ensures Tidy(next)
  {
    FilterOneEach(w.inventory.value.issues, p);
    forall x | x in next.inventory.value.issues ensures x in w.inventory.value.issues {
      FilterMembers(w.inventory.value.issues, p, x);
    }
  }

  lemma StepKeepsTidy(w: World, a: Action, next: World, collate: Collation)
    requires Tidy(w) && Step(w, a, next, collate) && Orderly(a)
    ensures Tidy(next)
  {
    match a
    case Scan(skills, found) => ScanKeepsTidy(w, skills, found, next);
    case Adopt(receipt, recorded) =>
      if w.inventory.Some? && recorded.Some? { FilteredTidy(w, (x: Issue) => x != recorded.value, next); }
    case ApproveNew(approval) =>
      if w.inventory.Some? { FilteredTidy(w, (x: Issue) => x.to != approval.id, next); }
  }

  // ---- what closes an issue ----

  lemma NotAdded(previous: Inventory, current: seq<Skill>, x: Issue)
    requires HasSkill(previous.skills, x.to)
    ensures !Added(previous, current, x)
  {
  }

  lemma ScanOpens(w: World, skills: seq<Skill>, found: seq<Issue>, next: World, kind: Kind, to: Id)
    requires ScanStep(w, skills, found, next) && Orderly(Scan(skills, found)) && Present(w, to) && Open(next, kind, to)
    ensures Open(w, kind, to) && Leaves(w, Scan(skills, found), kind, to)
  {
    var previous := w.inventory.value;
    var x :| x in next.inventory.value.issues && x.kind == kind && x.to == to && (CompletePending(x) || CompleteAmbiguous(x));
    ScanIssueFrom(previous, skills, w.registry, next.registry.tombstones, x);
    NotAdded(previous, skills, x);
    var y :| y in previous.issues && (CompletePending(y) || CompleteAmbiguous(y)) && x in Carry(y, skills, w.registry);
    CarriedLeaves(w, skills, found, y, x);
  }

  /** An issue is carried on only by a scan that leaves it undecided. */
  lemma CarriedLeaves(w: World, skills: seq<Skill>, found: seq<Issue>, y: Issue, x: Issue)
    requires (CompletePending(y) || CompleteAmbiguous(y)) && x in Carry(y, skills, w.registry)
    requires CompletePending(x) || CompleteAmbiguous(x)
    ensures y.kind == x.kind && y.to == x.to && Leaves(w, Scan(skills, found), x.kind, x.to)
  {
  }

  lemma AdoptOpens(w: World, recorded: Option<Issue>, next: World, kind: Kind, to: Id)
    requires Tidy(w) && next.inventory == WithoutIssue(w.inventory, recorded) && Open(next, kind, to)
    requires recorded.Some? ==> w.inventory.Some? && recorded.value in w.inventory.value.issues
    ensures Open(w, kind, to) && (recorded.Some? ==> recorded.value.kind != kind || recorded.value.to != to)
  {
    var x :| x in next.inventory.value.issues && x.kind == kind && x.to == to && (CompletePending(x) || CompleteAmbiguous(x));
    if recorded.Some? {
      var issues := w.inventory.value.issues;
      FilterMembers(issues, (y: Issue) => y != recorded.value, x);
      var i :| 0 <= i < |issues| && issues[i] == x;
      var j :| 0 <= j < |issues| && issues[j] == recorded.value;
      if i < j { assert !SameMove(issues[i], issues[j]); } else { assert !SameMove(issues[j], issues[i]); }
    }
  }

  /** An adoption is taken from an issue of the inventory, or from none. */
  ghost predicate TakenFrom(w: World, a: Action) {
    a.Adopt? && a.recorded.Some? ==> w.inventory.Some? && a.recorded.value in w.inventory.value.issues
  }

  /** Of a target that was there, an issue is open after a step if and only if it was
      open and the step leaves it undecided. */
  lemma OpenIff(w: World, a: Action, next: World, kind: Kind, to: Id, collate: Collation)
    requires Tidy(w) && Step(w, a, next, collate) && Orderly(a) && TakenFrom(w, a) && Present(w, to)
    ensures Open(next, kind, to) <==> Open(w, kind, to) && Leaves(w, a, kind, to)
  {
    if Open(w, kind, to) && Leaves(w, a, kind, to) { OpenStep(w, a, next, kind, to, collate); }
    if Open(next, kind, to) {
      match a
      case Scan(skills, found) => ScanOpens(w, skills, found, next, kind, to);
      case Adopt(receipt, recorded) => AdoptOpens(w, recorded, next, kind, to);
      case ApproveNew(approval) =>
        var x :| x in next.inventory.value.issues && x.kind == kind && x.to == to && (CompletePending(x) || CompleteAmbiguous(x));
        FilterMembers(w.inventory.value.issues, (y: Issue) => y.to != approval.id, x);
    }
  }

  /** An adoption taken from an ambiguous issue closes it, and scans that still find the
      target do not open it again. */
  lemma AdoptionCloses(w: World, receipt: MoveReceipt, i: Issue, next: World, skills: seq<Skill>, found: seq<Issue>, later: World,
                       collate: Collation)
    requires Tidy(w) && w.inventory.Some? && i in w.inventory.value.issues && i.kind.Ambiguous?
    requires Step(w, Adopt(receipt, Some(i)), next, collate)
    requires Step(next, Scan(skills, found), later, collate) && Orderly(Scan(skills, found))
    ensures !Open(next, Ambiguous, i.to) && !Open(later, Ambiguous, i.to)
  {
    OpenIff(w, Adopt(receipt, Some(i)), next, Ambiguous, i.to, collate);
    StepKeepsTidy(w, Adopt(receipt, Some(i)), next, collate);
    OpenIff(next, Scan(skills, found), later, Ambiguous, i.to, collate);
  }

  /** Over a whole run: while the target stays there, an issue is open in the end if
      and only if it was open and every step left it undecided. */
  lemma {:induction false} OpenThroughout(worlds: seq<World>, actions: seq<Action>, kind: Kind, to: Id, collate: Collation, k: nat)
    requires |worlds| == |actions| + 1 && k < |worlds| && Tidy(worlds[0])
    requires forall i :: 0 <= i < k ==>
               StepAt(worlds, actions, i, collate) && Orderly(actions[i]) && TakenFrom(worlds[i], actions[i]) && Present(worlds[i], to)
    ensures Tidy(worlds[k])
    ensures Open(worlds[k], kind, to) <==>
              Open(worlds[0], kind, to) && forall i :: 0 <= i < k ==> Leaves(worlds[i], actions[i], kind, to)
  {
    if k > 0 {
      OpenThroughout(worlds, actions, kind, to, collate, k - 1);
      assert StepAt(worlds, actions, k - 1, collate);
      StepKeepsTidy(worlds[k - 1], actions[k - 1], worlds[k], collate);
      OpenIff(worlds[k - 1], actions[k - 1], worlds[k], kind, to, collate);
    }
  }

  // ---- moves of moves ----

  lemma {:induction false} AncestorIs(pending: seq<Issue>, i: Issue)
    requires i in pending && forall x :: x in pending && x.to == i.to ==> x.kind == i.kind
    ensures Ancestor(pending, i.to).Some? && Ancestor(pending, i.to).value.kind == i.kind
  {
    if pending[0].to != i.to { AncestorIs(pending[1..], i); }
  }

  lemma {:induction false} DetectAllHas(added: seq<Skill>, tombstones: seq<Tombstone>, pending: seq<Issue>, r: Registry, s: Skill)
    requires s in added
    ensures forall x :: x in Detect(s, tombstones, pending, r) ==> x in DetectAll(added, tombstones, pending, r)
  {
    var before, last := added[..|added| - 1], added[|added| - 1];
    if s != last {
      assert s in before;
      DetectAllHas(before, tombstones, pending, r, s);
    }
  }

  /** A move on from a skill whose own move is still undecided is reported from where
      that move began. */
  lemma MovesChain(previous: Inventory, current: seq<Skill>, r: Registry, tombstones: seq<Tombstone>, i: Issue, t: Tombstone, c: Skill)
    requires i in previous.issues && CompletePending(i) && t.id == i.to
    requires forall x :: x in previous.issues && CompletePending(x) && x.to == i.to ==> x.kind == i.kind
    requires c in current && !HasSkill(previous.skills, c.id) && CandidatesFor(c, tombstones) == [t]
    requires !HasApproval(r.approvals, c) && !HasReceipt(r.moves, i.kind.from, c.id, c.name, c.revision)
    ensures exists x :: x in ScanIssues(previous, current, r, tombstones) && x.kind == i.kind && x.to == c.id && x.revision == c.revision
  {
    var pending := PendingOf(previous.issues);
    forall x ensures x in pending <==> x in previous.issues && CompletePending(x) {
      FilterMembers(previous.issues, (y: Issue) => CompletePending(y), x);
    }
    AncestorIs(pending, i);
    var issue := MoveIssue(t, c, pending);
    var added := Filter(current, (s: Skill) => !HasSkill(previous.skills, s.id));
    FilterMembers(current, (s: Skill) => !HasSkill(previous.skills, s.id), c);
    assert Detect(c, tombstones, pending, r) == [issue];
    DetectAllHas(added, tombstones, pending, r, c);
    var all := CarryAll(pending, current, r) + CarryAll(AmbiguousOf(previous.issues), current, r) + DetectAll(added, tombstones, pending, r);
    assert issue in all;
    var k :| 0 <= k < |all| && all[k] == issue;
    assert SameKey(all[k], issue);
    OnePerKeyKeeps(all);
    IssuesComplete(OnePerKey(all), issue);
  }
}
