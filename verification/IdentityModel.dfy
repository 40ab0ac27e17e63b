/** Skill identities over repeated scans: moves, tombstones and open issues. */
module IdentityModel {
  import opened Common
  import opened Sequences
  import opened Sorting
  import opened Utf16

  type Id = Text

  datatype Skill = Skill(id: Id, name: Text, revision: Text, root: Text, path: Text, fixture: bool)

  datatype MoveReceipt = MoveReceipt(from: Id, to: Id, name: Text, revision: Text, approvedAt: Text)

  datatype Approval = Approval(id: Id, name: Text, revision: Text, approvedAt: Text)

  datatype Tombstone = Tombstone(id: Id, name: Text, revision: Text, root: Text, path: Text, removedAt: Text)

  /** Issues of other codes are not about moves. */
  datatype Kind = Pending(from: Id) | Ambiguous | Unrelated

  datatype Issue = Issue(kind: Kind, to: Id, name: Text, revision: Text, involved: seq<Id>, roots: seq<Text>, paths: seq<Text>)

  /** The registry file; every entry in it is valid, else reading it fails. */
  datatype Registry = Registry(moves: seq<MoveReceipt>, tombstones: seq<Tombstone>, approvals: seq<Approval>)

  const NO_REGISTRY: Registry := Registry([], [], [])

  /** `version2` is false for an inventory without qualified identities. */
  datatype Inventory = Inventory(version2: bool, skills: seq<Skill>, issues: seq<Issue>)

  type Collation = Text -> real

  predicate HasSkill(skills: seq<Skill>, id: Id) { exists i :: 0 <= i < |skills| && skills[i].id == id }

  predicate FixtureDomain(skills: seq<Skill>) { exists i :: 0 <= i < |skills| && skills[i].fixture }

  /** Of skills with one id the last is looked up. */
  function LastSkill(skills: seq<Skill>, id: Id): Option<Skill> {
    if skills == [] then None
    else if skills[|skills| - 1].id == id then Some(skills[|skills| - 1])
    else LastSkill(skills[..|skills| - 1], id)
  }

  predicate HasReceipt(moves: seq<MoveReceipt>, from: Id, to: Id, name: Text, revision: Text) {
    exists i :: 0 <= i < |moves| && moves[i].from == from && moves[i].to == to && moves[i].name == name && moves[i].revision == revision
  }

  predicate HasApproval(approvals: seq<Approval>, s: Skill) {
    exists i :: 0 <= i < |approvals| && approvals[i].id == s.id && approvals[i].name == s.name && approvals[i].revision == s.revision
  }

  predicate Source(moves: seq<MoveReceipt>, id: Id) { exists i :: 0 <= i < |moves| && moves[i].from == id }

  // ---- carrying issues ----

  /** Without later repetitions. */
  function Distinct(s: seq<Text>): seq<Text> {
    if s == [] then []
    else
      var before := Distinct(s[..|s| - 1]);
      if s[|s| - 1] in before then before else before + [s[|s| - 1]]
  }

  /** An open issue with the present name and revision of its target. */
  function Updated(i: Issue, target: Skill): Issue {
    i.(name := target.name, revision := target.revision, roots := Distinct(i.roots + [target.root]),
       paths := Distinct(i.paths + [target.path]))
  }

  predicate CompletePending(i: Issue) { i.kind.Pending? && i.kind.from != [] && i.to != [] && i.name != [] && i.revision != [] }

  predicate CompleteAmbiguous(i: Issue) { i.kind.Ambiguous? && i.to != [] && i.name != [] && i.revision != [] }

  /** The issue that is carried on, if it is still open. */
  function Carry(i: Issue, current: seq<Skill>, r: Registry): seq<Issue> {
    match LastSkill(current, i.to)
    case None => []
    case Some(target) =>
      if HasApproval(r.approvals, target) then []
      else if i.kind.Pending? && HasReceipt(r.moves, i.kind.from, i.to, target.name, target.revision) then []
      else [Updated(i, target)]
  }

  function CarryAll(issues: seq<Issue>, current: seq<Skill>, r: Registry): seq<Issue> {
    if issues == [] then [] else CarryAll(issues[..|issues| - 1], current, r) + Carry(issues[|issues| - 1], current, r)
  }

  function PendingOf(issues: seq<Issue>): seq<Issue> { Filter(issues, (i: Issue) => CompletePending(i)) }

  function AmbiguousOf(issues: seq<Issue>): seq<Issue> { Filter(issues, (i: Issue) => CompleteAmbiguous(i)) }

  // ---- tombstones ----

  predicate Buried(tombstones: seq<Tombstone>, id: Id) { exists i :: 0 <= i < |tombstones| && tombstones[i].id == id }

  predicate BuriedOnce(tombstones: seq<Tombstone>) {
    forall i, j :: 0 <= i < j < |tombstones| ==> tombstones[i].id != tombstones[j].id
  }

  predicate Earlier(a: Tombstone, b: Tombstone, collate: Collation) {
    collate(a.removedAt) < collate(b.removedAt) || (collate(a.removedAt) == collate(b.removedAt) && collate(a.id) < collate(b.id))
  }

  // ---- detecting moves ----

  /** The tombstones a new skill may have come from. */
  function CandidatesFor(target: Skill, tombstones: seq<Tombstone>): seq<Tombstone> {
    var available := Filter(tombstones, (t: Tombstone) => t.id != target.id);
    var named := Filter(available, (t: Tombstone) => t.name == target.name);
    var exact := Filter(named, (t: Tombstone) => t.revision == target.revision);
    var revised := Filter(available, (t: Tombstone) => t.revision == target.revision);
    if named != [] then if |exact| == 1 then exact else named
    else if revised != [] then revised
    else if |available| == 1 then available
    else []
  }

  /** The first open move into the skill a tombstone stands for. */
  function Ancestor(pending: seq<Issue>, id: Id): Option<Issue> {
    if pending == [] then None else if pending[0].to == id then Some(pending[0]) else Ancestor(pending[1..], id)
  }

  function First(s: seq<Text>, otherwise: Text): Text { if s == [] then otherwise else s[0] }

  /** `moveIssue`, from where an unfinished move into the source started. */
  function MoveIssue(source: Tombstone, target: Skill, pending: seq<Issue>): Issue {
    match Ancestor(pending, source.id)
    case Some(a) =>
      if a.kind.Pending? then NewIssue(a.kind.from, target, First(a.paths, source.path), First(a.roots, source.root))
      else NewIssue(source.id, target, source.path, source.root)
    case None => NewIssue(source.id, target, source.path, source.root)
  }

  function NewIssue(from: Id, target: Skill, fromPath: Text, fromRoot: Text): Issue {
    Issue(Pending(from), target.id, target.name, target.revision, [from, target.id], Distinct([fromRoot, target.root]), [fromPath, target.path])
  }

  /** Texts in the default order. */
  function Sorted(s: seq<Text>): seq<Text> { SortBy(s, TextBelow) }

  function AmbiguousIssue(candidates: seq<Tombstone>, target: Skill): Issue {
    Issue(Ambiguous, target.id, target.name, target.revision,
          Sorted(Distinct(Map(candidates, (t: Tombstone) => t.id) + [target.id])),
          Sorted(Distinct(Map(candidates, (t: Tombstone) => t.root) + [target.root])),
          Sorted(Map(candidates, (t: Tombstone) => t.path) + [target.path]))
  }

  /** What one added skill gives rise to. */
  function Detect(target: Skill, tombstones: seq<Tombstone>, pending: seq<Issue>, r: Registry): seq<Issue> {
    var candidates := CandidatesFor(target, tombstones);
    if HasApproval(r.approvals, target) || candidates == [] then []
    else if |candidates| != 1 then [AmbiguousIssue(candidates, target)]
    else
      var issue := MoveIssue(candidates[0], target, pending);
      if issue.kind.Pending? && HasReceipt(r.moves, issue.kind.from, issue.to, issue.name, issue.revision) then [] else [issue]
  }

  function DetectAll(added: seq<Skill>, tombstones: seq<Tombstone>, pending: seq<Issue>, r: Registry): seq<Issue> {
    if added == [] then []
    else DetectAll(added[..|added| - 1], tombstones, pending, r) + Detect(added[|added| - 1], tombstones, pending, r)
  }

  // ---- one issue per move ----

  predicate SameKey(a: Issue, b: Issue) { a.kind == b.kind && a.to == b.to && a.revision == b.revision }

  function Replace(issues: seq<Issue>, i: Issue): seq<Issue> {
    if issues == [] then [i]
    else if SameKey(issues[0], i) then [i] + issues[1..]
    else [issues[0]] + Replace(issues[1..], i)
  }

  /** Issues with one key keep the first place and the last value. */
  function OnePerKey(issues: seq<Issue>): seq<Issue> {
    if issues == [] then [] else Replace(OnePerKey(issues[..|issues| - 1]), issues[|issues| - 1])
  }

  /** A scan that is compared with the one before it. */
  predicate Compared(previous: Option<Inventory>, current: seq<Skill>) {
    previous.Some? && previous.value.version2 && FixtureDomain(previous.value.skills) == FixtureDomain(current)
  }

  /** The issues a compared scan returns, given the tombstones it leaves. */
  function ScanIssues(previous: Inventory, current: seq<Skill>, r: Registry, tombstones: seq<Tombstone>): seq<Issue> {
    var pending := PendingOf(previous.issues);
    var added := Filter(current, (s: Skill) => !HasSkill(previous.skills, s.id));
    OnePerKey(CarryAll(pending, current, r) + CarryAll(AmbiguousOf(previous.issues), current, r)
              + DetectAll(added, tombstones, pending, r))
  }

  /** The tombstones a compared scan leaves: those before it and the skills removed,
      without the skills that are there and the sources of receipts. */
  ghost predicate BuriesRight(after: seq<Tombstone>, before: seq<Tombstone>, previous: seq<Skill>, current: seq<Skill>, moves: seq<MoveReceipt>) {
    && BuriedOnce(after)
    && (forall id :: Buried(after, id) <==>
          (Buried(before, id) || (HasSkill(previous, id) && !HasSkill(current, id))) && !HasSkill(current, id) && !Source(moves, id))
    && (forall t :: t in after ==> t in before || OfSkill(t, previous))
    && (forall t :: t in after && Buried(before, t.id) ==> t in before)
  }

  ghost predicate OfSkill(t: Tombstone, skills: seq<Skill>) {
    exists s :: s in skills && t == Tombstone(s.id, s.name, s.revision, s.root, s.path, t.removedAt)
  }
}
