/** Which policies that the operations produce pass the validation of version 2. */
module PolicyValidity {
  import opened Common
  import opened Lexical
  import opened Sequences
  import opened Sorting
  import opened Utf16
  import opened PolicyModel
  import PolicyDecision
  import PolicyMigration
  import R = RankerModel

  // ---- migration ----

  predicate TiersNamed(skills: map<Text, Entry>) { forall n :: n in skills ==> skills[n].tier != Some(R.NoTier) }

  /** Every name that several skills bear is a name. */
  ghost predicate DuplicatesNamed(inventory: Inventory) { forall n :: |Variants(inventory, n)| > 1 ==> Named(n) }

  /** A migrated policy passes its own validation exactly if no tier of the old policy
      is the empty text and no blank name is borne by several skills. */
  lemma MigratedValidIff(policy: Policy, inventory: Inventory, skills: map<Text, Entry>, formats: Formats)
    requires PolicyMigration.Migrates(policy, inventory, skills) && Qualified(inventory, formats) && ValidV1(skills)
    ensures ValidV2(policy, formats) <==> TiersNamed(skills) && DuplicatesNamed(inventory)
  {
    EntriesValidIff(policy, inventory, skills);
    NamesValidIff(policy, inventory, skills);
    forall id | id in policy.skillsById ensures formats.skillId(id) {
      var f :| PolicyMigration.MapsTo(inventory, skills.Keys, id, f);
      var i :| 0 <= i < |inventory| && inventory[i] == f;
      assert Identified(inventory[i], formats);
    }
  }

  lemma EntriesValidIff(policy: Policy, inventory: Inventory, skills: map<Text, Entry>)
    requires PolicyMigration.Migrates(policy, inventory, skills)
    ensures ValidEntries(policy.skillsById) && ValidEntries(policy.unresolvedEntries) <==> TiersNamed(skills)
  {
    if ValidEntries(policy.skillsById) && ValidEntries(policy.unresolvedEntries) {
      forall n | n in skills ensures skills[n].tier != Some(R.NoTier) {
        if PolicyMigration.Sole(inventory, n) {
          var f := SoleBearer(inventory, n);
          assert PolicyMigration.MapsTo(inventory, skills.Keys, f.skillId, f);
        } else {
          assert n in policy.unresolvedEntries;
        }
      }
    }
    if TiersNamed(skills) {
      forall id | id in policy.skillsById ensures ValidEntry(policy.skillsById[id]) {
        var f :| PolicyMigration.MapsTo(inventory, skills.Keys, id, f);
      }
    }
  }

  lemma SoleBearer(inventory: Inventory, n: Text) returns (f: Found)
    requires PolicyMigration.Sole(inventory, n)
    ensures f in inventory && f.name == n
  {
    f := Variants(inventory, n)[0];
    FilterMembers(inventory, (g: Found) => g.name == n, f);
  }

  lemma NamesValidIff(policy: Policy, inventory: Inventory, skills: map<Text, Entry>)
    requires PolicyMigration.Migrates(policy, inventory, skills) && ValidV1(skills)
    ensures ValidNames(policy.unresolvedNames) <==> DuplicatesNamed(inventory)
  {
    var names := policy.unresolvedNames;
    NamesOnce(names);
    if ValidNames(names) {
      forall n | |Variants(inventory, n)| > 1 ensures Named(n) {
        assert PolicyMigration.NeedsDecision(inventory, skills, n) && n in names;
      }
    }
    if DuplicatesNamed(inventory) {
      forall i | 0 <= i < |names| ensures Named(names[i]) {
        assert names[i] in names && PolicyMigration.NeedsDecision(inventory, skills, names[i]);
      }
    }
  }

  lemma NamesOnce(names: seq<Text>)
    requires StrictlyAscending(names, TextBelow)
    ensures forall i, j :: 0 <= i < j < |names| ==> names[i] != names[j]
  {
    TextOrders();
  }

  /** A valid policy of version 1 that migrates into a policy its own validation
      refuses: one entry, whose tier is the empty text. */
  lemma FailingMigration(name: Text, skills: map<Text, Entry>, policy: Policy, formats: Formats)
    requires name == [0x61] && skills == map[name := NO_ENTRY.(tier := Some(R.NoTier))]
    requires policy == V2(map[], map[], map[], [name], skills)
    ensures ValidV1(skills) && Qualified([], formats) && PolicyMigration.Migrates(policy, [], skills) && !ValidV2(policy, formats)
  {
    assert forall n :: Variants([], n) == [];
    assert name in policy.unresolvedEntries && !ValidEntry(policy.unresolvedEntries[name]);
  }

  // ---- decisions ----

  /** A decision leaves a valid policy valid exactly if the name is one and the time is given. */
  lemma DecidedValidIff(before: Policy, after: Policy, inventory: Inventory, q: PolicyDecision.Request, formats: Formats)
    requires before.V2? && ValidV2(before, formats) && PolicyDecision.Objection(inventory, q, formats).None?
    requires PolicyDecision.Decides(before, after, inventory, q, formats)
    ensures ValidV2(after, formats) <==> Named(q.displayName) && q.decidedAt != []
  {
    var selected := SelectedIdentified(inventory, q, formats);
    CanonicalAdded(before.canonicalByName, q.displayName, q.selectedSkillId, formats);
    DecisionAdded(before.duplicateDecisions, inventory, q, formats);
    EntryAdded(before.skillsById, q.selectedSkillId, PolicyDecision.EntryAfter(before, q), formats);
    NamesLeft(before.unresolvedNames, (n: Text) => n != q.displayName);
  }

  lemma CanonicalAdded(byName: map<Text, Text>, name: Text, id: Text, formats: Formats)
    requires ValidCanonicals(byName, formats) && formats.skillId(id)
    ensures ValidCanonicals(byName[name := id], formats) <==> Named(name)
  {
    assert name in byName[name := id];
  }

  lemma DecisionAdded(decisions: map<Text, Decision>, inventory: Inventory, q: PolicyDecision.Request, formats: Formats)
    requires ValidDecisions(decisions, formats) && PolicyDecision.Objection(inventory, q, formats).None?
    ensures ValidDecisions(decisions[q.displayName := PolicyDecision.DecisionOf(inventory, q, formats)], formats) <==> q.decidedAt != []
  {
    var d := PolicyDecision.DecisionOf(inventory, q, formats);
    if q.decidedAt != [] { PolicyDecision.FreshDecisionValid(inventory, q, formats); }
    assert d.body.decidedAt == q.decidedAt && decisions[q.displayName := d][q.displayName] == d;
  }

  lemma EntryAdded(byId: map<Text, Entry>, id: Text, e: Entry, formats: Formats)
    requires ValidIds(byId, formats) && ValidEntries(byId) && formats.skillId(id) && ValidEntry(e)
    ensures ValidIds(byId[id := e], formats) && ValidEntries(byId[id := e])
  {
  }

  lemma SelectedIdentified(inventory: Inventory, q: PolicyDecision.Request, formats: Formats) returns (f: Found)
    requires PolicyDecision.Objection(inventory, q, formats).None?
    ensures f in inventory && f.skillId == q.selectedSkillId && formats.skillId(q.selectedSkillId)
  {
    var variants := Variants(inventory, q.displayName);
    var i :| 0 <= i < |variants| && variants[i].skillId == q.selectedSkillId;
    f := variants[i];
    FilterMembers(inventory, (g: Found) => g.name == q.displayName, f);
    var k :| 0 <= k < |inventory| && inventory[k] == f;
    assert Identified(inventory[k], formats);
  }

  lemma {:induction false} NamesLeft(names: seq<Text>, p: Text -> bool)
    requires ValidNames(names)
    ensures ValidNames(Filter(names, p))
  {
    if names != [] {
      var rest := names[1..];
      NamesLeft(rest, p);
      forall n | n in Filter(rest, p) ensures n != names[0] {
        FilterMembers(rest, p, n);
        var k :| 0 <= k < |rest| && rest[k] == n;
        assert names[k + 1] == n;
      }
      NamesCons(names[0], Filter(rest, p));
    }
  }

  lemma NamesCons(name: Text, names: seq<Text>)
    requires ValidNames(names) && Named(name) && forall n :: n in names ==> n != name
    ensures ValidNames([name] + names)
  {
    var all := [name] + names;
    forall i, j | 0 <= i < j < |all| ensures all[i] != all[j] {
      assert all[j] == names[j - 1] && names[j - 1] in names;
      if i > 0 { assert all[i] == names[i - 1]; }
    }
  }
}
