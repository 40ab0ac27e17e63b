/** Decisions between the skills of a duplicated name. */
module PolicyDecision {
  import opened Common
  import opened Sequences
  import opened Sorting
  import opened Utf16
  import opened PolicyModel
  import R = RankerModel

  datatype Request = Request(displayName: Text, selectedSkillId: Text, actor: Text, reason: Text, decidedAt: Text)

  /** The checks of `createDuplicateDecision`, in its order, up to the copy of the policy. */
  function Objection(inventory: Inventory, q: Request, formats: Formats): Option<PolicyError> {
    if !AllIdentified(inventory, formats) then Some(Unqualified)
    else if !UniqueIds(inventory) then Some(IdCollision)
    else if |Variants(inventory, q.displayName)| < 2 then Some(NotDuplicate)
    else if !exists i :: 0 <= i < |Variants(inventory, q.displayName)| && Variants(inventory, q.displayName)[i].skillId == q.selectedSkillId
      then Some(NotAVariant)
    else if Trim(q.actor) == [] then Some(NoActor)
    else if |Trim(q.reason)| < 12 then Some(ThinReason)
    else None
  }

  function DecisionOf(inventory: Inventory, q: Request, formats: Formats): Decision {
    var body := DecisionBody(q.displayName, q.selectedSkillId, ComparedOf(Variants(inventory, q.displayName), formats),
                             Trim(q.actor), Trim(q.reason), q.decidedAt);
    Decision(body, DigestOf(body))
  }

  /** The entry the selected skill ends up with: its own, else the one migrated
      under its name, else a plain specialist. */
  function EntryAfter(policy: Policy, q: Request): Entry
    requires policy.V2?
  {
    if q.selectedSkillId in policy.skillsById then policy.skillsById[q.selectedSkillId]
    else if q.displayName in policy.unresolvedEntries then policy.unresolvedEntries[q.displayName]
    else NO_ENTRY.(tier := Some(R.Specialist))
  }

  /** What a decision changes, and that it changes nothing else. */
  ghost predicate Decides(before: Policy, after: Policy, inventory: Inventory, q: Request, formats: Formats) {
    && before.V2? && after.V2?
    && after.canonicalByName == before.canonicalByName[q.displayName := q.selectedSkillId]
    && after.duplicateDecisions == before.duplicateDecisions[q.displayName := DecisionOf(inventory, q, formats)]
    && after.skillsById == before.skillsById[q.selectedSkillId := EntryAfter(before, q)]
    && after.unresolvedNames == Filter(before.unresolvedNames, (n: Text) => n != q.displayName)
    && after.unresolvedEntries == before.unresolvedEntries - {q.displayName}
  }

  /** `createDuplicateDecision`. */
  method CreateDecision(policy: Policy, inventory: Inventory, q: Request, formats: Formats)
    returns (r: Result<(Policy, Decision), PolicyError>)
    requires policy.V2?
    ensures r.Err? <==> Objection(inventory, q, formats).Some? || !ValidV2(policy, formats)
    ensures r.Err? ==>
              r.error == if Objection(inventory, q, formats).Some? then Objection(inventory, q, formats).value else InvalidPolicy
    ensures r.Ok? ==> Decides(policy, r.value.0, inventory, q, formats) && r.value.1 == DecisionOf(inventory, q, formats)
  {
    if !AllIdentified(inventory, formats) { return Err(Unqualified); }
    if !UniqueIds(inventory) { return Err(IdCollision); }
    var variants := Variants(inventory, q.displayName);
    if |variants| < 2 { return Err(NotDuplicate); }
    if !exists i :: 0 <= i < |variants| && variants[i].skillId == q.selectedSkillId { return Err(NotAVariant); }
    if Trim(q.actor) == [] { return Err(NoActor); }
    if |Trim(q.reason)| < 12 { return Err(ThinReason); }
    var decision := DecisionOf(inventory, q, formats);
    if !ValidV2(policy, formats) { return Err(InvalidPolicy); }
    var next := policy;
    next := next.(canonicalByName := next.canonicalByName[q.displayName := q.selectedSkillId]);
    next := next.(duplicateDecisions := next.duplicateDecisions[q.displayName := decision]);
    if q.selectedSkillId !in next.skillsById {
      var entry := if q.displayName in next.unresolvedEntries then next.unresolvedEntries[q.displayName]
                   else NO_ENTRY.(tier := Some(R.Specialist));
      next := next.(skillsById := next.skillsById[q.selectedSkillId := entry]);
    }
    next := next.(unresolvedNames := Filter(next.unresolvedNames, (n: Text) => n != q.displayName),
                  unresolvedEntries := next.unresolvedEntries - {q.displayName});
    return Ok((next, decision));
  }

  // ---- when a decision still holds ----

  function Pairs(variants: seq<Found>): seq<Compared> { Map(variants, (f: Found) => Compared(f.skillId, f.contentRevision)) }

  lemma SortsVariants(s: seq<Compared>, formats: Formats)
    ensures Orders((a: Compared, b: Compared) => formats.collate(a.skillId) < formats.collate(b.skillId))
    ensures multiset(SortVariants(s, formats)) == multiset(s) && |SortVariants(s, formats)| == |s|
    ensures SortVariants(SortVariants(s, formats), formats) == SortVariants(s, formats)
  {
    var less := (a: Compared, b: Compared) => formats.collate(a.skillId) < formats.collate(b.skillId);
    SortPermutes(s, less);
    SortAscends(s, less);
    SortKeepsAscending(SortVariants(s, formats), less);
  }

  predicate ProperIds(s: seq<Compared>, formats: Formats) {
    UniqueVariants(s) && forall i :: 0 <= i < |s| ==> formats.skillId(s[i].skillId)
  }

  /** With proper ids on one side, equal sorted lists are equal multisets. */
  lemma SortedAlike(a: seq<Compared>, b: seq<Compared>, formats: Formats)
    requires IdsSeparate(formats) && ProperIds(a, formats)
    ensures SortVariants(a, formats) == SortVariants(b, formats) <==> multiset(a) == multiset(b)
  {
    var less := (x: Compared, y: Compared) => formats.collate(x.skillId) < formats.collate(y.skillId);
    SortsVariants(a, formats);
    SortsVariants(b, formats);
    if multiset(a) == multiset(b) {
      forall x, y | x in a && y in a && !less(x, y) && !less(y, x) ensures x == y {
        var i :| 0 <= i < |a| && a[i] == x;
        var j :| 0 <= j < |a| && a[j] == y;
        assert a[i].skillId == a[j].skillId;
        assert i == j;
      }
      SortForgetsOrder(a, b, less);
    }
  }

  lemma VariantsProper(inventory: Inventory, name: Text, formats: Formats)
    requires Qualified(inventory, formats)
    ensures ProperIds(Pairs(Variants(inventory, name)), formats)
    ensures AllIdentified(Variants(inventory, name), formats)
  {
    VariantsUnique(inventory, name);
    forall i | 0 <= i < |Variants(inventory, name)| ensures Identified(Variants(inventory, name)[i], formats) {
      FilterMembers(inventory, (f: Found) => f.name == name, Variants(inventory, name)[i]);
    }
  }

  lemma {:induction false} VariantsUnique(inventory: Inventory, name: Text)
    requires UniqueIds(inventory)
    ensures UniqueIds(Variants(inventory, name))
  {
    if inventory != [] {
      VariantsUnique(inventory[1..], name);
      var rest := Variants(inventory[1..], name);
      forall i | 0 <= i < |rest| ensures rest[i].skillId != inventory[0].skillId {
        FilterMembers(inventory[1..], (f: Found) => f.name == name, rest[i]);
        var k :| 0 <= k < |inventory[1..]| && inventory[1..][k] == rest[i];
        assert inventory[k + 1] == rest[i];
      }
    }
  }

  lemma UniqueAfterSort(s: seq<Compared>, formats: Formats)
    requires UniqueVariants(s)
    ensures UniqueVariants(SortVariants(s, formats))
  {
    var id := (c: Compared) => c.skillId;
    SortsVariants(s, formats);
    assert DistinctBy(s, id);
    DistinctPermutes(s, SortVariants(s, formats), id);
    var t := SortVariants(s, formats);
    forall i, j | 0 <= i < j < |t| ensures t[i].skillId != t[j].skillId { assert id(t[i]) != id(t[j]); }
  }

  lemma ComparesSorted(s: seq<Compared>, id: Text, formats: Formats)
    ensures Compares(SortVariants(s, formats), id) <==> Compares(s, id)
  {
    var t := SortVariants(s, formats);
    SortsVariants(s, formats);
    MembersOf(t, s);
    if i :| 0 <= i < |s| && s[i].skillId == id { assert s[i] in t; }
    if i :| 0 <= i < |t| && t[i].skillId == id { assert t[i] in s; }
  }

  /** A decision as it was made is valid. */
  lemma FreshDecisionValid(inventory: Inventory, q: Request, formats: Formats)
    requires Objection(inventory, q, formats).None? && q.decidedAt != []
    ensures ValidDecision(DecisionOf(inventory, q, formats), q.displayName, formats)
  {
    var variants := Variants(inventory, q.displayName);
    var pairs := Pairs(variants);
    VariantsProper(inventory, q.displayName, formats);
    SortsVariants(pairs, formats);
    UniqueAfterSort(pairs, formats);
    ComparesSorted(pairs, q.selectedSkillId, formats);
    var k :| 0 <= k < |variants| && variants[k].skillId == q.selectedSkillId;
    assert pairs[k].skillId == q.selectedSkillId;
    var t := SortVariants(pairs, formats);
    MembersOf(t, pairs);
    forall i | 0 <= i < |t| ensures formats.skillId(t[i].skillId) && formats.revision(t[i].contentRevision) {
      assert t[i] in pairs;
      var j :| 0 <= j < |pairs| && pairs[j] == t[i];
      assert Identified(variants[j], formats);
    }
    TrimIdempotent(q.actor);
    TrimIdempotent(q.reason);
  }

  /** A fresh decision holds for an inventory exactly when the name has the same
      skills with the same revisions as when it was made, in any order. */
  lemma DecisionHoldsIff(before: Policy, after: Policy, inventory: Inventory, q: Request, later: Inventory, formats: Formats)
    requires IdsSeparate(formats) && !formats.skillId([]) && q.decidedAt != []
    requires Objection(inventory, q, formats).None? && Decides(before, after, inventory, q, formats)
    requires AllIdentified(Variants(later, q.displayName), formats)
    ensures DecisionMatches(after, later, q.displayName, formats) == Ok(true) <==>
              multiset(Pairs(Variants(later, q.displayName))) == multiset(Pairs(Variants(inventory, q.displayName)))
  {
    var made, now := Pairs(Variants(inventory, q.displayName)), Pairs(Variants(later, q.displayName));
    FreshDecisionValid(inventory, q, formats);
    VariantsProper(inventory, q.displayName, formats);
    SortedAlike(made, now, formats);
    assert SortVariants(made, formats) == after.duplicateDecisions[q.displayName].body.comparedVariants;
  }

  // ---- what a decision does to routing ----

  lemma SelectedIsVariant(inventory: Inventory, q: Request, formats: Formats, f: Found)
    requires Objection(inventory, q, formats).None? && f in inventory && f.skillId == q.selectedSkillId
    ensures f.name == q.displayName
  {
    var variants := Variants(inventory, q.displayName);
    var k :| 0 <= k < |variants| && variants[k].skillId == q.selectedSkillId;
    FilterMembers(inventory, (g: Found) => g.name == q.displayName, variants[k]);
    var i :| 0 <= i < |inventory| && inventory[i] == variants[k];
    var j :| 0 <= j < |inventory| && inventory[j] == f;
    assert i == j;
  }

  /** A decision on one name leaves the standing of every other name alone. */
  lemma MatchesElsewhere(before: Policy, after: Policy, inventory: Inventory, q: Request, formats: Formats, name: Text)
    requires Decides(before, after, inventory, q, formats) && name != q.displayName
    ensures DecisionMatches(after, inventory, name, formats) == DecisionMatches(before, inventory, name, formats)
    ensures CanonicalOf(name, inventory, after, formats) == CanonicalOf(name, inventory, before, formats)
  {
  }

  lemma EntryElsewhere(before: Policy, after: Policy, inventory: Inventory, q: Request, formats: Formats, f: Found)
    requires Objection(inventory, q, formats).None? && Decides(before, after, inventory, q, formats)
    requires f in inventory && f.name != q.displayName
    ensures EntryOf(f, after) == EntryOf(f, before)
  {
    if f.skillId == q.selectedSkillId { SelectedIsVariant(inventory, q, formats, f); }
  }

  /** Skills of other names are untouched. */
  lemma DecisionIsLocal(before: Policy, after: Policy, inventory: Inventory, q: Request, formats: Formats, f: Found)
    requires Objection(inventory, q, formats).None? && Decides(before, after, inventory, q, formats)
    requires f in inventory && f.name != q.displayName
    ensures EffectiveSkill(f, inventory, after, formats) == EffectiveSkill(f, inventory, before, formats)
  {
    EntryElsewhere(before, after, inventory, q, formats, f);
    MatchesElsewhere(before, after, inventory, q, formats, f.name);
  }

  /** Of the decided name the selected skill is canonical and routes on its entry, and
      every other skill is shadowed and does not route. */
  lemma DecisionRoutesSelected(before: Policy, after: Policy, inventory: Inventory, q: Request, formats: Formats, f: Found)
    requires IdsSeparate(formats) && !formats.skillId([]) && q.decidedAt != []
    requires Objection(inventory, q, formats).None? && Decides(before, after, inventory, q, formats)
    requires f in inventory && f.name == q.displayName
    ensures var s := EffectiveSkill(f, inventory, after, formats);
            if f.skillId == q.selectedSkillId then
              var tier := TierOf(Some(EntryAfter(before, q)));
              s.variantState.Canonical? && s.tier == tier
              && (s.routeEligible <==> f.implicitAllowed && f.frontmatterValid && !tier.Archived? && !tier.Blocked?)
            else s.variantState.Shadowed? && !s.routeEligible
  {
    VariantsProper(inventory, q.displayName, formats);
    DecisionHoldsIff(before, after, inventory, q, inventory, formats);
  }
}
