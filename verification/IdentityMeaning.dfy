/** When an issue is carried on, where a new skill is taken to have come from, and
    what the issues about it say, in terms of the registry and the skills themselves. */
module IdentityMeaning {
  import opened Common
  import opened Lexical
  import opened Sequences
  import opened Sorting
  import opened Utf16
  import opened IdentityModel
  import opened IdentityHistory
  import opened IdentityOpen

  // ---- decisions ----

  /** An approval names this skill as it is. */
  ghost predicate Approved(s: Skill, r: Registry) {
    exists a :: a in r.approvals && a.id == s.id && a.name == s.name && a.revision == s.revision
  }

  /** A receipt confirms the move from `from` to this skill as it is. */
  ghost predicate Confirmed(from: Id, s: Skill, r: Registry) {
    exists m :: m in r.moves && m.from == from && m.to == s.id && m.name == s.name && m.revision == s.revision
  }

  lemma ApprovedIff(s: Skill, r: Registry)
    ensures HasApproval(r.approvals, s) <==> Approved(s, r)
  {
    if a :| a in r.approvals && a.id == s.id && a.name == s.name && a.revision == s.revision {
      var k :| 0 <= k < |r.approvals| && r.approvals[k] == a;
    }
  }

  lemma ConfirmedIff(from: Id, s: Skill, r: Registry)
    ensures HasReceipt(r.moves, from, s.id, s.name, s.revision) <==> Confirmed(from, s, r)
  {
    if m :| m in r.moves && m.from == from && m.to == s.id && m.name == s.name && m.revision == s.revision {
      var k :| 0 <= k < |r.moves| && r.moves[k] == m;
    }
  }

  /** `s` is the last of the skills with this id. */
  ghost predicate LastWith(skills: seq<Skill>, id: Id, s: Skill) {
    exists k :: 0 <= k < |skills| && skills[k] == s && s.id == id && forall j :: k < j < |skills| ==> skills[j].id != id
  }

  lemma LastMore(before: seq<Skill>, last: Skill, id: Id, s: Skill)
    ensures LastWith(before + [last], id, s) <==> if last.id == id then s == last else LastWith(before, id, s)
  {
    var skills := before + [last];
    assert skills[|before|] == last;
    if last.id != id {
      if k :| 0 <= k < |before| && before[k] == s && s.id == id && forall j :: k < j < |before| ==> before[j].id != id {
        assert skills[k] == s && forall j :: k < j < |skills| ==> skills[j].id != id;
      }
      if k :| 0 <= k < |skills| && skills[k] == s && s.id == id && forall j :: k < j < |skills| ==> skills[j].id != id {
        assert before[k] == s;
        forall j | k < j < |before| ensures before[j].id != id { assert before[j] == skills[j]; }
      }
    }
  }

  lemma {:induction false} LastSkillIff(skills: seq<Skill>, id: Id, s: Skill)
    ensures LastSkill(skills, id) == Some(s) <==> LastWith(skills, id, s)
    ensures LastSkill(skills, id).None? <==> forall x :: x in skills ==> x.id != id
  {
    if skills != [] {
      var before, last := skills[..|skills| - 1], skills[|skills| - 1];
      LastSkillIff(before, id, s);
      LastMore(before, last, id, s);
      assert skills == before + [last];
    }
  }

  // ---- carrying ----

  /** No text twice. */
  ghost predicate Once(s: seq<Text>) { forall i, j :: 0 <= i < j < |s| ==> s[i] != s[j] }

  lemma {:induction false} DistinctMeans(s: seq<Text>)
    ensures Once(Distinct(s)) && forall x :: x in Distinct(s) <==> x in s
  {
    if s != [] {
      DistinctMeans(s[..|s| - 1]);
      assert s == s[..|s| - 1] + [s[|s| - 1]];
    }
  }

  /** `j` is `i` with the name and revision its target now has, and where it now is. */
  ghost predicate Follows(j: Issue, i: Issue, s: Skill) {
    && j.kind == i.kind && j.to == i.to && j.name == s.name && j.revision == s.revision && j.involved == i.involved
    && Once(j.roots) && (forall x :: x in j.roots <==> x in i.roots || x == s.root)
    && Once(j.paths) && (forall x :: x in j.paths <==> x in i.paths || x == s.path)
  }

  /** An open issue is dropped when its target is gone, approved as it is, or, for a
      move, confirmed as it is; otherwise it follows its target. */
  lemma CarriedMeans(i: Issue, current: seq<Skill>, r: Registry, s: Skill)
    ensures (forall x :: x in current ==> x.id != i.to) ==> Carry(i, current, r) == []
    ensures LastWith(current, i.to, s) ==>
              if Approved(s, r) || (i.kind.Pending? && Confirmed(i.kind.from, s, r)) then Carry(i, current, r) == []
              else |Carry(i, current, r)| == 1 && Follows(Carry(i, current, r)[0], i, s)
  {
    LastSkillIff(current, i.to, s);
    ApprovedIff(s, r);
    if i.kind.Pending? { ConfirmedIff(i.kind.from, s, r); }
    DistinctMeans(i.roots + [s.root]);
    DistinctMeans(i.paths + [s.path]);
  }

  /** Which issues a scan carries on at all. */
  lemma CompleteIff(issues: seq<Issue>, i: Issue)
    ensures i in PendingOf(issues) <==>
              i in issues && i.kind.Pending? && i.kind.from != [] && i.to != [] && i.name != [] && i.revision != []
    ensures i in AmbiguousOf(issues) <==> i in issues && i.kind.Ambiguous? && i.to != [] && i.name != [] && i.revision != []
  {
    FilterMembers(issues, (x: Issue) => CompletePending(x), i);
    FilterMembers(issues, (x: Issue) => CompleteAmbiguous(x), i);
  }

  // ---- suspects ----

  predicate Other(t: Tombstone, s: Skill, tombstones: seq<Tombstone>) { t in tombstones && t.id != s.id }

  predicate Namesake(t: Tombstone, s: Skill, tombstones: seq<Tombstone>) { Other(t, s, tombstones) && t.name == s.name }

  predicate SameContent(t: Tombstone, s: Skill, tombstones: seq<Tombstone>) { Other(t, s, tombstones) && t.revision == s.revision }

  predicate Twin(t: Tombstone, s: Skill, tombstones: seq<Tombstone>) {
    Namesake(t, s, tombstones) && t.revision == s.revision
  }

  ghost predicate OnlyTwin(t: Tombstone, s: Skill, tombstones: seq<Tombstone>) {
    Twin(t, s, tombstones) && forall u :: Twin(u, s, tombstones) ==> u == t
  }

  /** A new skill may have come from its only twin in name and content, else from any
      namesake, else from anything with its content, else from the only one gone. */
  ghost predicate Suspect(t: Tombstone, s: Skill, tombstones: seq<Tombstone>) {
    if exists u :: OnlyTwin(u, s, tombstones) then OnlyTwin(t, s, tombstones)
    else if exists u :: Namesake(u, s, tombstones) then Namesake(t, s, tombstones)
    else if exists u :: SameContent(u, s, tombstones) then SameContent(t, s, tombstones)
    else Other(t, s, tombstones) && forall u :: Other(u, s, tombstones) ==> u == t
  }

  /** One of each tombstone. */
  ghost predicate EachOnce(s: seq<Tombstone>) { forall i, j :: 0 <= i < j < |s| ==> s[i] != s[j] }

  lemma OnlyMember(s: seq<Tombstone>, t: Tombstone)
    requires EachOnce(s) && t in s
    ensures |s| == 1 <==> forall u :: u in s ==> u == t
  {
    if |s| > 1 { assert s[0] in s && s[1] in s && s[0] != s[1]; }
  }

  lemma {:induction false} FilterEachOnce(s: seq<Tombstone>, keep: Tombstone -> bool)
    requires EachOnce(s)
    ensures EachOnce(Filter(s, keep))
  {
    if s != [] {
      var rest := s[1..];
      assert forall i, j :: 0 <= i < j < |rest| ==> rest[i] == s[i + 1] && rest[j] == s[j + 1];
      FilterEachOnce(rest, keep);
      FilterMembers(rest, keep, s[0]);
      assert s[0] !in rest;
    }
  }

  /** The others, the namesakes, the twins and those with the same content, each once. */
  ghost predicate Divided(available: seq<Tombstone>, named: seq<Tombstone>, exact: seq<Tombstone>, revised: seq<Tombstone>,
                          s: Skill, tombstones: seq<Tombstone>) {
    && EachOnce(available) && EachOnce(named) && EachOnce(exact) && EachOnce(revised)
    && forall t :: (t in available <==> Other(t, s, tombstones)) && (t in named <==> Namesake(t, s, tombstones))
                   && (t in exact <==> Twin(t, s, tombstones)) && (t in revised <==> SameContent(t, s, tombstones))
  }

  lemma Parts(s: Skill, tombstones: seq<Tombstone>)
    requires BuriedOnce(tombstones)
    ensures var available := Filter(tombstones, (t: Tombstone) => t.id != s.id);
            var named := Filter(available, (t: Tombstone) => t.name == s.name);
            Divided(available, named, Filter(named, (t: Tombstone) => t.revision == s.revision),
                    Filter(available, (t: Tombstone) => t.revision == s.revision), s, tombstones)
  {
    var available := Filter(tombstones, (t: Tombstone) => t.id != s.id);
    var named := Filter(available, (t: Tombstone) => t.name == s.name);
    FilterEachOnce(tombstones, (t: Tombstone) => t.id != s.id);
    FilterEachOnce(available, (t: Tombstone) => t.name == s.name);
    FilterEachOnce(named, (t: Tombstone) => t.revision == s.revision);
    FilterEachOnce(available, (t: Tombstone) => t.revision == s.revision);
    forall t: Tombstone
      ensures t in available <==> Other(t, s, tombstones)
      ensures t in named <==> Namesake(t, s, tombstones)
      ensures t in Filter(named, (t: Tombstone) => t.revision == s.revision) <==> Twin(t, s, tombstones)
      ensures t in Filter(available, (t: Tombstone) => t.revision == s.revision) <==> SameContent(t, s, tombstones)
    {
      FilterMembers(tombstones, (t: Tombstone) => t.id != s.id, t);
      FilterMembers(available, (t: Tombstone) => t.name == s.name, t);
      FilterMembers(named, (t: Tombstone) => t.revision == s.revision, t);
      FilterMembers(available, (t: Tombstone) => t.revision == s.revision, t);
    }
  }

  /** There is an only twin exactly if the list of twins has one entry. */
  lemma OnlyTwinIff(exact: seq<Tombstone>, s: Skill, tombstones: seq<Tombstone>)
    requires EachOnce(exact) && forall t :: t in exact <==> Twin(t, s, tombstones)
    ensures (exists u :: OnlyTwin(u, s, tombstones)) <==> |exact| == 1
    ensures |exact| == 1 ==> forall t :: t in exact <==> OnlyTwin(t, s, tombstones)
  {
    if |exact| == 1 {
      assert exact[0] in exact && OnlyTwin(exact[0], s, tombstones);
    } else if u :| OnlyTwin(u, s, tombstones) {
      OnlyMember(exact, u);
    }
  }

  lemma OnlyOtherIff(available: seq<Tombstone>, s: Skill, tombstones: seq<Tombstone>, t: Tombstone)
    requires EachOnce(available) && forall t :: t in available <==> Other(t, s, tombstones)
    ensures |available| == 1 && t in available <==> Other(t, s, tombstones) && forall u :: Other(u, s, tombstones) ==> u == t
  {
    if Other(t, s, tombstones) { OnlyMember(available, t); }
  }

  /** The list that is picked is that of the suspects. */
  lemma PickedMeans(available: seq<Tombstone>, named: seq<Tombstone>, exact: seq<Tombstone>, revised: seq<Tombstone>,
                    s: Skill, tombstones: seq<Tombstone>, t: Tombstone)
    requires Divided(available, named, exact, revised, s, tombstones)
    ensures (if named != [] then if |exact| == 1 then t in exact else t in named
             else if revised != [] then t in revised
             else |available| == 1 && t in available) <==> Suspect(t, s, tombstones)
  {
    OnlyTwinIff(exact, s, tombstones);
    if |exact| == 1 {
      assert exact[0] in exact && exact[0] in named;
    } else if named != [] {
      assert named[0] in named;
    } else if revised != [] {
      assert revised[0] in revised;
    } else {
      OnlyOtherIff(available, s, tombstones, t);
    }
  }

  lemma SuspectsMean(s: Skill, tombstones: seq<Tombstone>)
    requires BuriedOnce(tombstones)
    ensures EachOnce(CandidatesFor(s, tombstones))
    ensures forall t :: t in CandidatesFor(s, tombstones) <==> Suspect(t, s, tombstones)
  {
    Parts(s, tombstones);
    var available := Filter(tombstones, (t: Tombstone) => t.id != s.id);
    var named := Filter(available, (t: Tombstone) => t.name == s.name);
    var exact := Filter(named, (t: Tombstone) => t.revision == s.revision);
    var revised := Filter(available, (t: Tombstone) => t.revision == s.revision);
    forall t ensures t in CandidatesFor(s, tombstones) <==> Suspect(t, s, tombstones) {
      PickedMeans(available, named, exact, revised, s, tombstones, t);
    }
  }

  // ---- detected moves ----

  /** Nothing is reported of a skill that is approved or comes from nowhere. */
  lemma NothingFound(s: Skill, tombstones: seq<Tombstone>, pending: seq<Issue>, r: Registry)
    requires BuriedOnce(tombstones)
    requires Approved(s, r) || forall t :: !Suspect(t, s, tombstones)
    ensures Detect(s, tombstones, pending, r) == []
  {
    ApprovedIff(s, r);
    SuspectsMean(s, tombstones);
    var candidates := CandidatesFor(s, tombstones);
    if candidates != [] { assert candidates[0] in candidates; }
  }

  ghost predicate OnlySuspect(t: Tombstone, s: Skill, tombstones: seq<Tombstone>) {
    Suspect(t, s, tombstones) && forall u :: Suspect(u, s, tombstones) ==> u == t
  }

  lemma OneCandidate(s: Skill, tombstones: seq<Tombstone>, t: Tombstone)
    requires BuriedOnce(tombstones) && OnlySuspect(t, s, tombstones)
    ensures CandidatesFor(s, tombstones) == [t]
  {
    SuspectsMean(s, tombstones);
    OnlyMember(CandidatesFor(s, tombstones), t);
  }

  /** The issue of a move from `from`, once at `path` below `root`, to `s`. */
  ghost predicate ReportsMove(i: Issue, from: Id, root: Text, path: Text, s: Skill) {
    && i.kind == Pending(from) && i.to == s.id && i.name == s.name && i.revision == s.revision && i.involved == [from, s.id]
    && i.roots == (if root == s.root then [root] else [root, s.root]) && i.paths == [path, s.path]
  }

  /** A new skill with one suspect is reported to have come from it, unless that move is confirmed. */
  lemma MoveFound(s: Skill, tombstones: seq<Tombstone>, pending: seq<Issue>, r: Registry, t: Tombstone)
    requires BuriedOnce(tombstones) && !Approved(s, r) && OnlySuspect(t, s, tombstones)
    requires forall i :: i in pending ==> i.to != t.id
    ensures if Confirmed(t.id, s, r) then Detect(s, tombstones, pending, r) == []
            else |Detect(s, tombstones, pending, r)| == 1
                 && ReportsMove(Detect(s, tombstones, pending, r)[0], t.id, t.root, t.path, s)
  {
    ApprovedIff(s, r);
    ConfirmedIff(t.id, s, r);
    OneCandidate(s, tombstones, t);
    NoAncestor(pending, t.id);
    TwoRoots(t.root, s.root);
  }

  /** If an open move leads into the suspect, the move is reported from where that one started. */
  lemma ChainFound(s: Skill, tombstones: seq<Tombstone>, pending: seq<Issue>, r: Registry, t: Tombstone, k: nat)
    requires BuriedOnce(tombstones) && !Approved(s, r) && OnlySuspect(t, s, tombstones)
    requires k < |pending| && pending[k].to == t.id && pending[k].kind.Pending? && forall j :: 0 <= j < k ==> pending[j].to != t.id
    ensures var i := pending[k];
            var root, path := if i.roots == [] then t.root else i.roots[0], if i.paths == [] then t.path else i.paths[0];
            if Confirmed(i.kind.from, s, r) then Detect(s, tombstones, pending, r) == []
            else |Detect(s, tombstones, pending, r)| == 1
                 && ReportsMove(Detect(s, tombstones, pending, r)[0], i.kind.from, root, path, s)
  {
    var i := pending[k];
    ApprovedIff(s, r);
    ConfirmedIff(i.kind.from, s, r);
    OneCandidate(s, tombstones, t);
    AncestorAt(pending, t.id, k);
    TwoRoots(if i.roots == [] then t.root else i.roots[0], s.root);
  }

  lemma {:induction false} NoAncestor(pending: seq<Issue>, id: Id)
    requires forall i :: i in pending ==> i.to != id
    ensures Ancestor(pending, id).None?
  {
    if pending != [] { NoAncestor(pending[1..], id); }
  }

  lemma {:induction false} AncestorAt(pending: seq<Issue>, id: Id, k: nat)
    requires k < |pending| && pending[k].to == id && forall j :: 0 <= j < k ==> pending[j].to != id
    ensures Ancestor(pending, id) == Some(pending[k])
  {
    if k > 0 { AncestorAt(pending[1..], id, k - 1); }
  }

  lemma TwoRoots(a: Text, b: Text)
    ensures Distinct([a, b]) == if a == b then [a] else [a, b]
  {
    assert [a, b][..1] == [a] && [a][..0] == [];
    assert Distinct([a]) == [a];
  }

  /** Rising by code units. */
  ghost predicate Rising(s: seq<Text>) { forall i, j :: 0 <= i < j < |s| ==> !Below(s[j], s[i]) }

  lemma SortedMeans(s: seq<Text>)
    ensures Rising(Sorted(s)) && multiset(Sorted(s)) == multiset(s) && forall x :: x in Sorted(s) <==> x in s
  {
    TextOrders();
    SortAscends(s, TextBelow);
    SortPermutes(s, TextBelow);
    MembersOf(Sorted(s), s);
    forall i, j | 0 <= i < j < |Sorted(s)| ensures !Below(Sorted(s)[j], Sorted(s)[i]) {
      assert !TextBelow(Sorted(s)[j], Sorted(s)[i]);
    }
  }

  lemma SortedOnce(s: seq<Text>)
    requires Once(s)
    ensures Once(Sorted(s))
  {
    SortPermutes(s, TextBelow);
    DistinctPermutes(s, Sorted(s), (t: Text) => t);
    assert DistinctBy(s, (t: Text) => t);
  }

  /** All the texts `f` gives of the suspects, and one more. */
  ghost predicate Gathers(s: seq<Text>, f: Tombstone -> Text, last: Text, target: Skill, tombstones: seq<Tombstone>) {
    Rising(s) && forall x :: x in s <==> x == last || exists t :: Suspect(t, target, tombstones) && f(t) == x
  }

  lemma GatherMembers(candidates: seq<Tombstone>, f: Tombstone -> Text, last: Text)
    ensures forall x :: x in Map(candidates, f) + [last] <==> x == last || exists t :: t in candidates && f(t) == x
  {
    var all := Map(candidates, f) + [last];
    forall x ensures x in all <==> x == last || exists t :: t in candidates && f(t) == x {
      if x in all {
        var k :| 0 <= k < |all| && all[k] == x;
        if k < |candidates| { assert candidates[k] in candidates && f(candidates[k]) == x; }
      }
      if t :| t in candidates && f(t) == x {
        var k :| 0 <= k < |candidates| && candidates[k] == t;
        assert all[k] == x;
      }
      assert all[|candidates|] == last;
    }
  }

  lemma GatherAll(target: Skill, tombstones: seq<Tombstone>, f: Tombstone -> Text, last: Text, s: seq<Text>)
    requires BuriedOnce(tombstones) && Rising(s)
    requires forall x :: x in s <==> x in Map(CandidatesFor(target, tombstones), f) + [last]
    ensures Gathers(s, f, last, target, tombstones)
  {
    SuspectsMean(target, tombstones);
    GatherMembers(CandidatesFor(target, tombstones), f, last);
    forall x ensures x in s <==> x == last || exists t :: Suspect(t, target, tombstones) && f(t) == x {
      if x in s && x != last {
        var t :| t in CandidatesFor(target, tombstones) && f(t) == x;
        assert Suspect(t, target, tombstones);
      }
      if t :| Suspect(t, target, tombstones) && f(t) == x { assert t in CandidatesFor(target, tombstones); }
    }
  }

  /** A new skill with several suspects is reported with all of them, in order. */
  lemma AmbiguityFound(s: Skill, tombstones: seq<Tombstone>, pending: seq<Issue>, r: Registry, t: Tombstone, u: Tombstone)
    requires BuriedOnce(tombstones) && !Approved(s, r) && t != u && Suspect(t, s, tombstones) && Suspect(u, s, tombstones)
    ensures |Detect(s, tombstones, pending, r)| == 1
    ensures var i := Detect(s, tombstones, pending, r)[0];
            && i.kind == Ambiguous && i.to == s.id && i.name == s.name && i.revision == s.revision
            && Once(i.involved) && Gathers(i.involved, (t: Tombstone) => t.id, s.id, s, tombstones)
            && Once(i.roots) && Gathers(i.roots, (t: Tombstone) => t.root, s.root, s, tombstones)
            && Gathers(i.paths, (t: Tombstone) => t.path, s.path, s, tombstones)
  {
    ApprovedIff(s, r);
    SuspectsMean(s, tombstones);
    var candidates := CandidatesFor(s, tombstones);
    assert t in candidates && u in candidates;
    SeveralCandidates(candidates, t, u);
    GatherOnce(s, tombstones, (t: Tombstone) => t.id, s.id);
    GatherOnce(s, tombstones, (t: Tombstone) => t.root, s.root);
    var paths := Map(candidates, (t: Tombstone) => t.path) + [s.path];
    SortedMeans(paths);
    GatherAll(s, tombstones, (t: Tombstone) => t.path, s.path, Sorted(paths));
  }

  lemma SeveralCandidates(candidates: seq<Tombstone>, t: Tombstone, u: Tombstone)
    requires t in candidates && u in candidates && t != u
    ensures |candidates| > 1
  {
  }

  lemma GatherOnce(s: Skill, tombstones: seq<Tombstone>, f: Tombstone -> Text, last: Text)
    requires BuriedOnce(tombstones)
    ensures var all := Sorted(Distinct(Map(CandidatesFor(s, tombstones), f) + [last]));
            Once(all) && Gathers(all, f, last, s, tombstones)
  {
    var all := Map(CandidatesFor(s, tombstones), f) + [last];
    DistinctMeans(all);
    SortedMeans(Distinct(all));
    SortedOnce(Distinct(all));
    GatherAll(s, tombstones, f, last, Sorted(Distinct(all)));
  }

  // ---- scans ----

  /** Only scans of two inventories with qualified identities are compared, either
      both with fixtures in them or both without. */
  lemma ComparedIff(previous: Option<Inventory>, current: seq<Skill>)
    ensures Compared(previous, current) <==>
              previous.Some? && previous.value.version2
              && ((exists s :: s in previous.value.skills && s.fixture) <==> (exists s :: s in current && s.fixture))
  {
    FixtureIff(current);
    if previous.Some? { FixtureIff(previous.value.skills); }
  }

  lemma FixtureIff(skills: seq<Skill>)
    ensures FixtureDomain(skills) <==> exists s :: s in skills && s.fixture
  {
    if k :| 0 <= k < |skills| && skills[k].fixture { assert skills[k] in skills; }
  }

  /** Of the issues gathered, one is kept for each kind, target and revision. */
  lemma OneIssueEach(issues: seq<Issue>, i: Issue)
    ensures i in issues ==> exists j :: j in OnePerKey(issues) && j.kind == i.kind && j.to == i.to && j.revision == i.revision
    ensures i in OnePerKey(issues) ==> i in issues
    ensures forall a, b :: 0 <= a < b < |OnePerKey(issues)| ==>
              var x, y := OnePerKey(issues)[a], OnePerKey(issues)[b];
              x.kind != y.kind || x.to != y.to || x.revision != y.revision
  {
    OnePerKeyKeeps(issues);
    OnePerKeyApart(issues);
    if i in issues {
      var k :| 0 <= k < |issues| && issues[k] == i;
      assert SameKey(issues[k], i) && KeyIn(issues, i);
      var j :| 0 <= j < |OnePerKey(issues)| && SameKey(OnePerKey(issues)[j], i);
    }
    var kept := OnePerKey(issues);
    forall a, b | 0 <= a < b < |kept|
      ensures kept[a].kind != kept[b].kind || kept[a].to != kept[b].to || kept[a].revision != kept[b].revision
    {
      assert !SameKey(kept[a], kept[b]);
    }
  }

  /** A skill that left one place and turned up in another under the same name with the
      same content is reported as moved, unless the owner has decided already. */
  lemma MovedSkillIsReported(previous: Inventory, current: seq<Skill>, r: Registry, tombstones: seq<Tombstone>, t: Tombstone, s: Skill)
    requires BuriedOnce(tombstones) && t in tombstones && s in current && t.id != s.id
    requires forall x :: x in previous.skills ==> x.id != s.id
    requires t.name == s.name && t.revision == s.revision
    requires forall u :: u in tombstones && u != t && u.id != s.id ==> u.name != s.name || u.revision != s.revision
    requires forall i :: i in previous.issues && i.kind.Pending? ==> i.to != t.id
    requires !Approved(s, r) && !Confirmed(t.id, s, r)
    ensures exists i :: i in ScanIssues(previous, current, r, tombstones) && i.kind == Pending(t.id) && i.to == s.id && i.revision == s.revision
  {
    var pending := PendingOf(previous.issues);
    forall i | i in pending ensures i.to != t.id { CompleteIff(previous.issues, i); }
    assert OnlyTwin(t, s, tombstones);
    MoveFound(s, tombstones, pending, r, t);
    var i := Detect(s, tombstones, pending, r)[0];
    var added := Filter(current, (x: Skill) => !HasSkill(previous.skills, x.id));
    FilterMembers(current, (x: Skill) => !HasSkill(previous.skills, x.id), s);
    DetectAllHas(added, tombstones, pending, r, s);
    var all := CarryAll(pending, current, r) + CarryAll(AmbiguousOf(previous.issues), current, r) + DetectAll(added, tombstones, pending, r);
    assert i in all;
    OneIssueEach(all, i);
  }
}
