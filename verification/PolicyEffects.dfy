/** Which field of the effective registry each field of a policy entry decides, and how
    that reaches the ranker. */
module PolicyEffects {
  import opened Common
  import opened Sequences
  import opened Utf16
  import opened PolicyModel
  import R = RankerModel
  import RankerScores

  /** The policy with this entry, or none, for the skill: under its name in version 1,
      under its id in version 2. */
  function WithEntry(policy: Policy, f: Found, entry: Option<Entry>): Policy {
    match (policy, entry)
    case (V1(skills), Some(e)) => V1(skills[f.name := e])
    case (V1(skills), None) => V1(skills - {f.name})
    case (V2(_, byId, _, _, _), Some(e)) => policy.(skillsById := byId[f.skillId := e])
    case (V2(_, byId, _, _, _), None) => policy.(skillsById := byId - {f.skillId})
  }

  function Effect(f: Found, inventory: Inventory, policy: Policy, formats: Formats, entry: Option<Entry>): R.Skill {
    EffectiveSkill(f, inventory, WithEntry(policy, f, entry), formats)
  }

  /** Each list of the entry is the list of that name in the registry, and nothing else
      depends on it; a list that is not there is empty. */
  lemma ListsDecide(f: Found, inventory: Inventory, policy: Policy, formats: Formats, e: Entry, list: Option<seq<Text>>)
    ensures var s, l := Effect(f, inventory, policy, formats, Some(e)), if list.Some? then list.value else [];
            && Effect(f, inventory, policy, formats, Some(e.(aliases := list))) == s.(aliases := l)
            && Effect(f, inventory, policy, formats, Some(e.(preferredFor := list))) == s.(preferredFor := l)
            && Effect(f, inventory, policy, formats, Some(e.(avoidFor := list))) == s.(avoidFor := l)
            && Effect(f, inventory, policy, formats, Some(e.(supersedes := list))) == s.(supersedes := l)
  {
    SameCanonical(f, inventory, policy, formats, Some(e));
    SameCanonical(f, inventory, policy, formats, Some(e.(aliases := list)));
    SameCanonical(f, inventory, policy, formats, Some(e.(preferredFor := list)));
    SameCanonical(f, inventory, policy, formats, Some(e.(avoidFor := list)));
    SameCanonical(f, inventory, policy, formats, Some(e.(supersedes := list)));
  }

  /** Entries do not bear on which skill of a duplicated name is canonical. */
  lemma SameCanonical(f: Found, inventory: Inventory, policy: Policy, formats: Formats, entry: Option<Entry>)
    ensures CanonicalOf(f.name, inventory, WithEntry(policy, f, entry), formats) == CanonicalOf(f.name, inventory, policy, formats)
  {
  }

  /** The family is taken over; overlaps and notes change nothing. */
  lemma FamilyDecides(f: Found, inventory: Inventory, policy: Policy, formats: Formats, e: Entry, family: Option<Text>,
                      overlaps: Option<seq<Text>>, notes: Option<Text>)
    ensures var s := Effect(f, inventory, policy, formats, Some(e));
            && Effect(f, inventory, policy, formats, Some(e.(family := family))) == s.(family := family)
            && Effect(f, inventory, policy, formats, Some(e.(overlaps := overlaps, notes := notes))) == s
  {
    SameCanonical(f, inventory, policy, formats, Some(e));
    SameCanonical(f, inventory, policy, formats, Some(e.(family := family)));
    SameCanonical(f, inventory, policy, formats, Some(e.(overlaps := overlaps, notes := notes)));
  }

  /** The tier is taken over, `Specialist` for none. Together with the scan it decides
      whether the skill may be used, and with the variant whether it may route. */
  lemma TierDecides(f: Found, inventory: Inventory, policy: Policy, formats: Formats, e: Entry, t: R.Tier)
    ensures var s := Effect(f, inventory, policy, formats, Some(e));
            var usable := t != R.Archived && t != R.Blocked && f.implicitAllowed && f.frontmatterValid;
            && Effect(f, inventory, policy, formats, Some(e.(tier := Some(t)))) ==
                 s.(tier := t, qualifiedExplicitAllowed := usable, routeEligible := usable && s.variantState in {R.Sole, R.Canonical})
            && Effect(f, inventory, policy, formats, Some(e.(tier := None))) ==
                 Effect(f, inventory, policy, formats, Some(e.(tier := Some(R.Specialist))))
  {
    SameCanonical(f, inventory, policy, formats, Some(e));
    SameCanonical(f, inventory, policy, formats, Some(e.(tier := Some(t))));
    SameCanonical(f, inventory, policy, formats, Some(e.(tier := None)));
    SameCanonical(f, inventory, policy, formats, Some(e.(tier := Some(R.Specialist))));
  }

  /** Without an entry a skill has the defaults and may not be used; with or without one it
      keeps what the scan found. */
  lemma NoEntryDecides(f: Found, inventory: Inventory, policy: Policy, formats: Formats, entry: Option<Entry>)
    ensures var s := Effect(f, inventory, policy, formats, None);
            && s.tier == R.Specialist && s.family.None? && !s.routeEligible && !s.qualifiedExplicitAllowed
            && s.aliases == [] && s.preferredFor == [] && s.avoidFor == [] && s.supersedes == []
    ensures var s := Effect(f, inventory, policy, formats, entry);
            && s.skillId == f.skillId && s.name == f.name && s.description == f.description && s.path == f.path
            && s.hasScripts == f.hasScripts && s.variantState == Effect(f, inventory, policy, formats, None).variantState
  {
    SameCanonical(f, inventory, policy, formats, None);
    SameCanonical(f, inventory, policy, formats, entry);
  }

  /** A skill is sole exactly if no other skill of the inventory has its name. Under
      version 1 every other skill is unresolved. */
  lemma VariantSays(inventory: Inventory, k: nat, policy: Policy, formats: Formats)
    requires k < |inventory|
    ensures EffectiveSkill(inventory[k], inventory, policy, formats).variantState == R.Sole <==>
              forall i :: 0 <= i < |inventory| && i != k ==> inventory[i].name != inventory[k].name
    ensures policy.V1? ==> EffectiveSkill(inventory[k], inventory, policy, formats).variantState in {R.Sole, R.Unresolved}
  {
    SoleIff(inventory, k);
  }

  lemma SoleIff(inventory: Inventory, k: nat)
    requires k < |inventory|
    ensures |Variants(inventory, inventory[k].name)| >= 1
    ensures |Variants(inventory, inventory[k].name)| == 1 <==>
              forall i :: 0 <= i < |inventory| && i != k ==> inventory[i].name != inventory[k].name
  {
    var name := inventory[k].name;
    var keep := (f: Found) => f.name == name;
    var a, b := inventory[..k], inventory[k + 1..];
    assert inventory == a + [inventory[k]] + b;
    FilterAppend(a + [inventory[k]], b, keep);
    FilterAppend(a, [inventory[k]], keep);
    assert [inventory[k]][1..] == [];
    NoneKept(a, name);
    NoneKept(b, name);
    assert forall i :: 0 <= i < |a| ==> a[i] == inventory[i];
    assert forall i :: 0 <= i < |b| ==> b[i] == inventory[i + k + 1];
    assert forall i :: k < i < |inventory| ==> inventory[i] == b[i - k - 1];
  }

  lemma {:induction false} NoneKept(s: Inventory, name: Text)
    ensures Filter(s, (f: Found) => f.name == name) == [] <==> forall i :: 0 <= i < |s| ==> s[i].name != name
  {
    if s != [] {
      NoneKept(s[1..], name);
      assert forall i :: 0 < i < |s| ==> s[i] == s[1..][i - 1];
    }
  }

  /** A prepared skill whose phrases are, one for one, those of the skill. */
  ghost predicate PreparesPhrases(p: R.Prepared, s: R.Skill) {
    && p.skill == s && |p.avoidFor| == |s.avoidFor| && |p.preferredFor| == |s.preferredFor|
    && (forall i :: 0 <= i < |s.avoidFor| ==> p.avoidFor[i].value == s.avoidFor[i])
    && (forall i :: 0 <= i < |s.preferredFor| ==> p.preferredFor[i].value == s.preferredFor[i])
  }

  /** A phrase that the policy entry says to avoid, or to prefer, is a reason of that kind
      for the skill of the entry whenever it matches the prompt. */
  lemma PhrasesReachReasons(f: Found, inventory: Inventory, policy: Policy, formats: Formats, e: Entry, p: R.Prepared, i: nat,
                            prompt: R.Prompt, language: R.Language)
    requires PreparesPhrases(p, Effect(f, inventory, policy, formats, Some(e)))
    ensures e.avoidFor.Some? && i < |e.avoidFor.value| ==>
              && i < |p.avoidFor|
              && (RankerScores.Hit(p.avoidFor[i], prompt, language) ==>
                    R.Matched(R.AvoidFor, e.avoidFor.value[i]) in R.Scored(p, prompt, language, false).reasons)
    ensures e.preferredFor.Some? && i < |e.preferredFor.value| ==>
              && i < |p.preferredFor|
              && (RankerScores.Hit(p.preferredFor[i], prompt, language) && !p.preferredFor[i].weakSingleTerm ==>
                    R.Matched(R.PreferredFor, e.preferredFor.value[i]) in R.Scored(p, prompt, language, false).reasons)
  {
    var s := Effect(f, inventory, policy, formats, Some(e));
    ListsTaken(f, inventory, policy, formats, e);
    if e.avoidFor.Some? && i < |e.avoidFor.value| && RankerScores.Hit(p.avoidFor[i], prompt, language) {
      AvoidReached(s, p, i, prompt, language);
    }
    if e.preferredFor.Some? && i < |e.preferredFor.value| && RankerScores.Hit(p.preferredFor[i], prompt, language)
       && !p.preferredFor[i].weakSingleTerm {
      PreferredReached(s, p, i, prompt, language);
    }
  }

  lemma ListsTaken(f: Found, inventory: Inventory, policy: Policy, formats: Formats, e: Entry)
    ensures e.avoidFor.Some? ==> Effect(f, inventory, policy, formats, Some(e)).avoidFor == e.avoidFor.value
    ensures e.preferredFor.Some? ==> Effect(f, inventory, policy, formats, Some(e)).preferredFor == e.preferredFor.value
  {
    ListsDecide(f, inventory, policy, formats, e, e.avoidFor);
    ListsDecide(f, inventory, policy, formats, e, e.preferredFor);
    assert e.(avoidFor := e.avoidFor) == e && e.(preferredFor := e.preferredFor) == e;
  }

  lemma AvoidReached(s: R.Skill, p: R.Prepared, i: nat, prompt: R.Prompt, language: R.Language)
    requires PreparesPhrases(p, s) && i < |s.avoidFor| && RankerScores.Hit(p.avoidFor[i], prompt, language)
    ensures R.Matched(R.AvoidFor, s.avoidFor[i]) in R.Scored(p, prompt, language, false).reasons
  {
    RankerScores.ReasonsSay(p, prompt, language, s.avoidFor[i]);
  }

  lemma PreferredReached(s: R.Skill, p: R.Prepared, i: nat, prompt: R.Prompt, language: R.Language)
    requires PreparesPhrases(p, s) && i < |s.preferredFor|
    requires RankerScores.Hit(p.preferredFor[i], prompt, language) && !p.preferredFor[i].weakSingleTerm
    ensures R.Matched(R.PreferredFor, s.preferredFor[i]) in R.Scored(p, prompt, language, false).reasons
  {
    RankerScores.ReasonsSay(p, prompt, language, s.preferredFor[i]);
  }
}
