/** When a skill of a duplicated name is the canonical one, in terms of what the policy
    says and what the scan found. */
module PolicyCanonical {
  import opened Common
  import opened Sequences
  import opened Sorting
  import opened Utf16
  import opened PolicyModel
  import opened PolicyDecision
  import R = RankerModel
  import PolicyEffects

  // ---- trimming ----

  ghost predicate AllSpace(t: Text) { forall i :: 0 <= i < |t| ==> Space(t[i]) }

  /** The white space and line ends of ECMAScript (tables 35 and 36 of its 2024 edition). */
  lemma SpaceIff(u: Unit)
    ensures Space(u) <==> u in {0x9, 0xA, 0xB, 0xC, 0xD, 0x20, 0xA0, 0x1680, 0x2000, 0x2001, 0x2002, 0x2003, 0x2004, 0x2005, 0x2006,
                                0x2007, 0x2008, 0x2009, 0x200A, 0x2028, 0x2029, 0x202F, 0x205F, 0x3000, 0xFEFF}
  {
  }

  lemma {:induction false} StartTrims(t: Text) returns (i: nat)
    ensures i <= |t| && TrimStart(t) == t[i..] && AllSpace(t[..i])
  {
    if t == [] || !Space(t[0]) {
      i := 0;
    } else {
      var j := StartTrims(t[1..]);
      i := j + 1;
      assert t[1..][j..] == t[i..];
      assert forall k :: 0 < k < i ==> t[k] == t[1..][..j][k - 1];
    }
  }

  lemma {:induction false} EndTrims(t: Text)
    ensures AllSpace(t[|TrimEnd(t)|..])
  {
    if t != [] && Space(t[|t| - 1]) {
      var before := t[..|t| - 1];
      EndTrims(before);
      var n := |TrimEnd(t)|;
      assert forall k :: n <= k < |t| - 1 ==> t[k] == before[n..][k - n];
    }
  }

  /** Trimming cuts the white space on either side, and nothing else. */
  lemma TrimMeans(t: Text) returns (i: nat, j: nat)
    ensures i <= j <= |t| && Trim(t) == t[i..j] && AllSpace(t[..i]) && AllSpace(t[j..])
    ensures i < j ==> !Space(t[i]) && !Space(t[j - 1])
  {
    i := StartTrims(t);
    var u := t[i..];
    EndTrims(u);
    j := i + |TrimEnd(u)|;
    assert t[i..j] == u[..j - i] && t[j..] == u[j - i..];
  }

  lemma BlankIff(t: Text)
    ensures Trim(t) == [] <==> AllSpace(t)
  {
    var i, j := TrimMeans(t);
    if i == j {
      assert forall k :: 0 <= k < |t| ==> t[k] == if k < i then t[..i][k] else t[j..][k - j];
    }
  }

  // ---- decisions ----

  /** A decision of this name: signed with its own digest, by someone, for a reason of
      twelve characters or more, between at least two skills in the order of their ids,
      of which the selected one is one. */
  ghost predicate WellMade(d: Decision, name: Text, formats: Formats) {
    var b, c := d.body, d.body.comparedVariants;
    && d.digest == DigestOf(b) && b.displayName == name && !AllSpace(b.actor) && |Trim(b.reason)| >= 12 && b.decidedAt != []
    && |c| >= 2 && (forall v :: v in c ==> formats.skillId(v.skillId) && formats.revision(v.contentRevision))
    && InOrder(c, formats) && exists v :: v in c && v.skillId == b.selectedSkillId
  }

  ghost predicate InOrder(c: seq<Compared>, formats: Formats) {
    forall i, j :: 0 <= i < j < |c| ==>
      c[i].skillId != c[j].skillId && formats.collate(c[i].skillId) <= formats.collate(c[j].skillId)
  }

  lemma InOrderIff(c: seq<Compared>, formats: Formats)
    ensures UniqueVariants(c) && c == SortVariants(c, formats) <==> InOrder(c, formats)
  {
    var less := (a: Compared, b: Compared) => formats.collate(a.skillId) < formats.collate(b.skillId);
    SortsVariants(c, formats);
    SortAscends(c, less);
    if InOrder(c, formats) {
      forall i, j | 0 <= i < j < |c| ensures !less(c[j], c[i]) {}
      SortKeepsAscending(c, less);
    }
    if UniqueVariants(c) && c == SortVariants(c, formats) {
      forall i, j | 0 <= i < j < |c|
        ensures c[i].skillId != c[j].skillId && formats.collate(c[i].skillId) <= formats.collate(c[j].skillId)
      {
        assert !less(c[j], c[i]);
      }
    }
  }

  lemma WellMadeIff(d: Decision, name: Text, formats: Formats)
    ensures ValidDecision(d, name, formats) <==> WellMade(d, name, formats)
  {
    var c, id := d.body.comparedVariants, d.body.selectedSkillId;
    InOrderIff(c, formats);
    BlankIff(d.body.actor);
    if v :| v in c && v.skillId == id {
      var k :| 0 <= k < |c| && c[k] == v;
    }
    if k :| 0 <= k < |c| && c[k].skillId == id { assert c[k] in c; }
  }

  /** Every skill of the scan has an id and a revision of the right form, and no two share an id. */
  ghost predicate Sound(inventory: Inventory, formats: Formats) {
    && (forall f :: f in inventory ==> formats.skillId(f.skillId) && formats.revision(f.contentRevision))
    && forall i, j :: 0 <= i < j < |inventory| ==> inventory[i].skillId != inventory[j].skillId
  }

  /** Nothing is held against a decision exactly if the scan is sound, at least two of its
      skills bear the name, the selected one does, an actor is given, and the reason has
      twelve characters or more. */
  lemma UnopposedIff(inventory: Inventory, q: Request, formats: Formats)
    ensures Objection(inventory, q, formats).None? <==>
              && Sound(inventory, formats) && !AllSpace(q.actor) && |Trim(q.reason)| >= 12
              && (exists i, j :: 0 <= i < j < |inventory| && inventory[i].name == q.displayName && inventory[j].name == q.displayName)
              && exists f :: f in inventory && f.name == q.displayName && f.skillId == q.selectedSkillId
  {
    var variants := Variants(inventory, q.displayName);
    SeveralIff(inventory, q.displayName);
    BlankIff(q.actor);
    if AllIdentified(inventory, formats) {
      forall f | f in inventory ensures formats.skillId(f.skillId) && formats.revision(f.contentRevision) {
        var i :| 0 <= i < |inventory| && inventory[i] == f;
        assert Identified(inventory[i], formats);
      }
    }
    if f :| f in inventory && f.name == q.displayName && f.skillId == q.selectedSkillId {
      FilterMembers(inventory, (g: Found) => g.name == q.displayName, f);
      var i :| 0 <= i < |variants| && variants[i] == f;
    }
    if i :| 0 <= i < |variants| && variants[i].skillId == q.selectedSkillId {
      FilterMembers(inventory, (g: Found) => g.name == q.displayName, variants[i]);
    }
  }

  // ---- the canonical skill ----

  /** The policy settles the name in favour of `id`: it is named canonical and selected by
      a decision between exactly the skills of that name, as they are now. */
  ghost predicate Settles(policy: Policy, name: Text, id: Text, inventory: Inventory, formats: Formats)
    requires policy.V2?
  {
    && name in policy.canonicalByName && policy.canonicalByName[name] == id && id != []
    && name in policy.duplicateDecisions && WellMade(policy.duplicateDecisions[name], name, formats)
    && policy.duplicateDecisions[name].body.selectedSkillId == id
    && multiset(policy.duplicateDecisions[name].body.comparedVariants) == multiset(Pairs(Variants(inventory, name)))
  }

  lemma SettlesIff(policy: Policy, name: Text, id: Text, inventory: Inventory, formats: Formats)
    requires policy.V2? && IdsSeparate(formats) && AllIdentified(Variants(inventory, name), formats)
    ensures DecisionMatches(policy, inventory, name, formats) == Ok(true) && policy.canonicalByName[name] == id <==>
              Settles(policy, name, id, inventory, formats)
  {
    if name in policy.duplicateDecisions {
      var d := policy.duplicateDecisions[name];
      WellMadeIff(d, name, formats);
      if ValidDecision(d, name, formats) { MatchesIff(d, name, Pairs(Variants(inventory, name)), formats); }
    }
  }

  /** The skills of the name are those compared, in whatever order they were found. */
  lemma MatchesIff(d: Decision, name: Text, found: seq<Compared>, formats: Formats)
    requires IdsSeparate(formats) && ValidDecision(d, name, formats)
    ensures var current := SortVariants(found, formats);
            |current| >= 2 && Compares(current, d.body.selectedSkillId) && current == d.body.comparedVariants <==>
              multiset(d.body.comparedVariants) == multiset(found)
  {
    SortedAlike(d.body.comparedVariants, found, formats);
  }

  ghost predicate Alone(inventory: Inventory, k: nat)
    requires k < |inventory|
  {
    forall i :: 0 <= i < |inventory| && i != k ==> inventory[i].name != inventory[k].name
  }

  /** Of several skills of one name the canonical one is the one the policy settles on;
      then the others are shadowed, and without such a settlement all are unresolved. */
  lemma CanonicalIff(inventory: Inventory, k: nat, policy: Policy, formats: Formats)
    requires k < |inventory| && policy.V2? && IdsSeparate(formats)
    requires AllIdentified(Variants(inventory, inventory[k].name), formats)
    ensures var f, state := inventory[k], EffectiveSkill(inventory[k], inventory, policy, formats).variantState;
            && (state == R.Canonical <==> !Alone(inventory, k) && Settles(policy, f.name, f.skillId, inventory, formats))
            && (state == R.Shadowed <==>
                  !Alone(inventory, k) && exists id :: id != f.skillId && Settles(policy, f.name, id, inventory, formats))
            && (state == R.Unresolved <==>
                  !Alone(inventory, k) && forall id :: !Settles(policy, f.name, id, inventory, formats))
  {
    var f := inventory[k];
    PolicyEffects.SoleIff(inventory, k);
    forall id ensures DecisionMatches(policy, inventory, f.name, formats) == Ok(true) && policy.canonicalByName[f.name] == id <==>
                        Settles(policy, f.name, id, inventory, formats)
    {
      SettlesIff(policy, f.name, id, inventory, formats);
    }
    if f.name in policy.canonicalByName {
      var id := policy.canonicalByName[f.name];
      assert DecisionMatches(policy, inventory, f.name, formats) == Ok(true) ==> Settles(policy, f.name, id, inventory, formats);
    }
  }

  // ---- the registry ----

  /** Two skills of this name, one of them without an id or a revision of the right
      form, and a well-made decision on the name that agrees with the canonical id. */
  ghost predicate Undecidable(policy: Policy, name: Text, inventory: Inventory, formats: Formats)
    requires policy.V2?
  {
    && (exists i, j :: 0 <= i < j < |inventory| && inventory[i].name == name && inventory[j].name == name)
    && (exists f :: f in inventory && f.name == name && !(formats.skillId(f.skillId) && formats.revision(f.contentRevision)))
    && name in policy.canonicalByName && policy.canonicalByName[name] != []
    && name in policy.duplicateDecisions && WellMade(policy.duplicateDecisions[name], name, formats)
    && policy.duplicateDecisions[name].body.selectedSkillId == policy.canonicalByName[name]
  }

  lemma ErrsIff(policy: Policy, name: Text, inventory: Inventory, formats: Formats)
    requires policy.V2?
    ensures DecisionMatches(policy, inventory, name, formats).Err? && |Variants(inventory, name)| > 1 <==>
              Undecidable(policy, name, inventory, formats)
  {
    if name in policy.duplicateDecisions { WellMadeIff(policy.duplicateDecisions[name], name, formats); }
    UnidentifiedIff(inventory, name, formats);
    SeveralIff(inventory, name);
  }

  lemma UnidentifiedIff(inventory: Inventory, name: Text, formats: Formats)
    ensures !AllIdentified(Variants(inventory, name), formats) <==>
              exists f :: f in inventory && f.name == name && !(formats.skillId(f.skillId) && formats.revision(f.contentRevision))
  {
    var variants := Variants(inventory, name);
    forall f ensures f in variants <==> f in inventory && f.name == name {
      FilterMembers(inventory, (g: Found) => g.name == name, f);
    }
    if i :| 0 <= i < |variants| && !Identified(variants[i], formats) { assert variants[i] in variants; }
    if f :| f in inventory && f.name == name && !(formats.skillId(f.skillId) && formats.revision(f.contentRevision)) {
      var i :| 0 <= i < |variants| && variants[i] == f;
      assert !Identified(variants[i], formats);
    }
  }

  lemma SeveralIff(inventory: Inventory, name: Text)
    ensures |Variants(inventory, name)| > 1 <==>
              exists i, j :: 0 <= i < j < |inventory| && inventory[i].name == name && inventory[j].name == name
  {
    if Variants(inventory, name) == [] {
      PolicyEffects.NoneKept(inventory, name);
    } else {
      PolicyEffects.NoneKept(inventory, name);
      var k :| 0 <= k < |inventory| && inventory[k].name == name;
      PolicyEffects.SoleIff(inventory, k);
    }
  }

  /** The effective registry fails exactly if the policy of version 2 has decided on a
      duplicated name and a skill of that name is not identified; otherwise it holds
      every skill, in the order of the scan. */
  lemma RegistrySays(inventory: Inventory, policy: Policy, formats: Formats)
    ensures EffectiveRegistry(inventory, policy, formats).Err? <==>
              policy.V2? && exists name :: Undecidable(policy, name, inventory, formats)
    ensures var r := EffectiveRegistry(inventory, policy, formats);
            r.Ok? ==> |r.value| == |inventory|
                      && forall i :: 0 <= i < |inventory| ==> r.value[i] == EffectiveSkill(inventory[i], inventory, policy, formats)
  {
    if policy.V2? {
      forall name ensures DecisionMatches(policy, inventory, name, formats).Err? && |Variants(inventory, name)| > 1 <==>
                            Undecidable(policy, name, inventory, formats)
      {
        ErrsIff(policy, name, inventory, formats);
      }
      if name :| Undecidable(policy, name, inventory, formats) {
        var f :| f in inventory && f.name == name;
        var i :| 0 <= i < |inventory| && inventory[i] == f;
        assert |Variants(inventory, inventory[i].name)| > 1;
      }
    }
  }
}
