/** The migration of a version 1 policy, and why it does not change routing. */
module PolicyMigration {
  import opened Common
  import opened Lexical
  import opened Sequences
  import opened Sorting
  import opened Utf16
  import opened PolicyModel
  import R = RankerModel

  /** Exactly one skill of the inventory has this name. */
  predicate Sole(inventory: Inventory, name: Text) { |Variants(inventory, name)| == 1 }

  predicate MapsTo(inventory: Inventory, names: set<Text>, id: Text, f: Found) {
    f in inventory && f.skillId == id && Sole(inventory, f.name) && f.name in names
  }

  /** The entries of `names` that go to the one skill of their name. */
  ghost predicate Mapped(byId: map<Text, Entry>, inventory: Inventory, skills: map<Text, Entry>, names: set<Text>) {
    && (forall id :: id in byId ==> exists f :: MapsTo(inventory, names, id, f))
    && (forall id, f :: MapsTo(inventory, names, id, f) && f.name in skills ==> id in byId && byId[id] == skills[f.name])
  }

  /** The entries of `names` that belong to no skill or to several. */
  ghost predicate Kept(unresolved: map<Text, Entry>, inventory: Inventory, skills: map<Text, Entry>, names: set<Text>) {
    && (forall n :: n in unresolved <==> n in names && n in skills && !Sole(inventory, n))
    && (forall n :: n in unresolved ==> n in skills && unresolved[n] == skills[n])
  }

  /** A name that needs a decision: several skills bear it, or its entry fits none. */
  predicate NeedsDecision(inventory: Inventory, skills: map<Text, Entry>, name: Text) {
    |Variants(inventory, name)| > 1 || (name in skills && !Sole(inventory, name))
  }

  /** What the migration of `skills` must be. */
  ghost predicate Migrates(policy: Policy, inventory: Inventory, skills: map<Text, Entry>) {
    && policy.V2? && policy.canonicalByName == map[] && policy.duplicateDecisions == map[]
    && Mapped(policy.skillsById, inventory, skills, skills.Keys)
    && Kept(policy.unresolvedEntries, inventory, skills, skills.Keys)
    && StrictlyAscending(policy.unresolvedNames, TextBelow)
    && (forall n :: n in policy.unresolvedNames <==> NeedsDecision(inventory, skills, n))
  }

  /** `groupByDisplayName`. */
  method GroupByName(inventory: Inventory) returns (grouped: map<Text, seq<Found>>)
    ensures forall n :: n in grouped <==> Variants(inventory, n) != []
    ensures forall n :: n in grouped ==> grouped[n] == Variants(inventory, n)
  {
    grouped := map[];
    for i := 0 to |inventory|
      invariant forall n :: n in grouped <==> Variants(inventory[..i], n) != []
      invariant forall n :: n in grouped ==> grouped[n] == Variants(inventory[..i], n)
    {
      var f := inventory[i];
      assert inventory[..i + 1] == inventory[..i] + [f];
      forall n ensures Variants(inventory[..i + 1], n) == Variants(inventory[..i], n) + if f.name == n then [f] else [] {
        FilterOne(inventory[..i], f, (g: Found) => g.name == n);
      }
      grouped := grouped[f.name := (if f.name in grouped then grouped[f.name] else []) + [f]];
    }
    assert inventory[..|inventory|] == inventory;
  }

  lemma SoleVariant(inventory: Inventory, name: Text)
    requires Sole(inventory, name)
    ensures var f := Variants(inventory, name)[0]; f in inventory && f.name == name
    ensures forall g :: g in inventory && g.name == name ==> g == Variants(inventory, name)[0]
  {
    forall g ensures g in Variants(inventory, name) <==> g in inventory && g.name == name {
      FilterMembers(inventory, (f: Found) => f.name == name, g);
    }
    assert Variants(inventory, name)[0] in Variants(inventory, name);
  }

  lemma SameId(inventory: Inventory, f: Found, g: Found)
    requires UniqueIds(inventory) && f in inventory && g in inventory && f.skillId == g.skillId
    ensures f == g
  {
    var i :| 0 <= i < |inventory| && inventory[i] == f;
    var j :| 0 <= j < |inventory| && inventory[j] == g;
    assert i == j;
  }

  lemma MapOne(byId: map<Text, Entry>, inventory: Inventory, skills: map<Text, Entry>, names: set<Text>, name: Text)
    requires Mapped(byId, inventory, skills, names) && UniqueIds(inventory) && name in skills && Sole(inventory, name)
    ensures Mapped(byId[Variants(inventory, name)[0].skillId := skills[name]], inventory, skills, names + {name})
  {
    var f := Variants(inventory, name)[0];
    SoleVariant(inventory, name);
    assert MapsTo(inventory, names + {name}, f.skillId, f);
    forall id | id in byId ensures exists g :: MapsTo(inventory, names + {name}, id, g) {
      var g :| MapsTo(inventory, names, id, g);
      assert MapsTo(inventory, names + {name}, id, g);
    }
    forall id, g | MapsTo(inventory, names + {name}, id, g) && g.name in skills
      ensures id == f.skillId ==> g == f
      ensures id != f.skillId ==> MapsTo(inventory, names, id, g)
    {
      if id == f.skillId { SameId(inventory, f, g); }
    }
  }

  lemma MapNone(byId: map<Text, Entry>, inventory: Inventory, skills: map<Text, Entry>, names: set<Text>, name: Text)
    requires Mapped(byId, inventory, skills, names) && !Sole(inventory, name)
    ensures Mapped(byId, inventory, skills, names + {name})
  {
    forall id | id in byId ensures exists g :: MapsTo(inventory, names + {name}, id, g) {
      var g :| MapsTo(inventory, names, id, g);
      assert MapsTo(inventory, names + {name}, id, g);
    }
    forall id, g | MapsTo(inventory, names + {name}, id, g) ensures MapsTo(inventory, names, id, g) {
    }
  }

  /** The first loop: every entry goes to the one skill of its name, or stays unresolved. */
  method Distribute(inventory: Inventory, skills: map<Text, Entry>, grouped: map<Text, seq<Found>>)
    returns (byId: map<Text, Entry>, unresolved: map<Text, Entry>, names: set<Text>)
    requires UniqueIds(inventory)
    requires forall n :: n in grouped <==> Variants(inventory, n) != []
    requires forall n :: n in grouped ==> grouped[n] == Variants(inventory, n)
    ensures Mapped(byId, inventory, skills, skills.Keys) && Kept(unresolved, inventory, skills, skills.Keys)
    ensures names == unresolved.Keys
  {
    byId, unresolved, names := map[], map[], {};
    var left := skills.Keys;
    ghost var done: set<Text> := {};
    while left != {}
      invariant left <= skills.Keys && done == skills.Keys - left
      invariant Mapped(byId, inventory, skills, done) && Kept(unresolved, inventory, skills, done)
      invariant names == unresolved.Keys
      decreases left
    {
      var name :| name in left;
      var variants := if name in grouped then grouped[name] else [];
      if |variants| == 1 {
        MapOne(byId, inventory, skills, done, name);
        byId := byId[variants[0].skillId := skills[name]];
      } else {
        MapNone(byId, inventory, skills, done, name);
        names := names + {name};
        unresolved := unresolved[name := skills[name]];
      }
      left, done := left - {name}, done + {name};
    }
    assert done == skills.Keys;
  }

  /** The names as a list in the default order of the language. */
  method SortedNames(names: set<Text>) returns (sorted: seq<Text>)
    ensures StrictlyAscending(sorted, TextBelow)
    ensures forall n :: n in sorted <==> n in names
  {
    var list: seq<Text> := [];
    var left := names;
    while left != {}
      invariant left <= names
      invariant forall n :: n in list <==> n in names - left
      invariant forall i, j :: 0 <= i < j < |list| ==> list[i] != list[j]
      decreases left
    {
      var n :| n in left;
      assert forall m :: m in list + [n] <==> m in list || m == n;
      list, left := list + [n], left - {n};
    }
    sorted := SortBy(list, TextBelow);
    TextOrders();
    SortPermutes(list, TextBelow);
    SortAscends(list, TextBelow);
    MembersOf(sorted, list);
    DistinctAscends(list, sorted);
  }

  lemma DistinctAscends(list: seq<Text>, sorted: seq<Text>)
    requires multiset(sorted) == multiset(list) && Ascending(sorted, TextBelow)
    requires forall i, j :: 0 <= i < j < |list| ==> list[i] != list[j]
    ensures StrictlyAscending(sorted, TextBelow)
  {
    forall i, j | 0 <= i < j < |sorted| ensures TextBelow(sorted[i], sorted[j]) {
      CountsOne(list, sorted[i]);
      TwiceIn(sorted, i, j);
      BelowTotal(sorted[i], sorted[j]);
    }
  }

  lemma {:induction false} CountsOne(list: seq<Text>, n: Text)
    requires forall i, j :: 0 <= i < j < |list| ==> list[i] != list[j]
    ensures multiset(list)[n] <= 1
  {
    if list != [] {
      CountsOne(list[1..], n);
      HeadAndTail(list);
      if list[0] == n { assert n !in list[1..]; }
    }
  }

  /** `buildPolicyV2Migration`. */
  method BuildMigration(inventory: Inventory, source: Policy, formats: Formats) returns (r: Result<Policy, PolicyError>)
    ensures r.Ok? <==> source.V1? && Qualified(inventory, formats)
    ensures r.Ok? ==> Migrates(r.value, inventory, source.skills)
  {
    if !source.V1? { return Err(NotV1); }
    if !AllIdentified(inventory, formats) { return Err(Unqualified); }
    if !UniqueIds(inventory) { return Err(IdCollision); }
    var grouped := GroupByName(inventory);
    var byId, unresolved, names := Distribute(inventory, source.skills, grouped);
    var left := grouped.Keys;
    while left != {}
      invariant left <= grouped.Keys
      invariant forall n :: n in names <==> n in unresolved || (n in grouped && n !in left && |Variants(inventory, n)| > 1)
      decreases left
    {
      var name :| name in left;
      if |grouped[name]| > 1 { names := names + {name}; }
      left := left - {name};
    }
    var sorted := SortedNames(names);
    return Ok(V2(map[], byId, map[], sorted, unresolved));
  }

  // ---- routing ----

  /** Preparing a skill for the ranker keeps the skill; the texts are derived from it alone. */
  ghost predicate Prepares(prepare: R.Skill -> R.Prepared) {
    forall s :: prepare(s).skill == s
  }

  ghost function Skills(inventory: Inventory, policy: Policy, formats: Formats, prepare: R.Skill -> R.Prepared): seq<R.Prepared> {
    Map(inventory, (f: Found) => prepare(EffectiveSkill(f, inventory, policy, formats)))
  }

  /** A skill with a name of its own is the same under both policies. */
  lemma SoleUnchanged(f: Found, inventory: Inventory, skills: map<Text, Entry>, policy: Policy, formats: Formats)
    requires Migrates(policy, inventory, skills) && UniqueIds(inventory) && f in inventory && Sole(inventory, f.name)
    ensures EffectiveSkill(f, inventory, policy, formats) == EffectiveSkill(f, inventory, V1(skills), formats)
  {
    if f.name in skills {
      assert MapsTo(inventory, skills.Keys, f.skillId, f);
    } else if f.skillId in policy.skillsById {
      var g :| MapsTo(inventory, skills.Keys, f.skillId, g);
      SameId(inventory, f, g);
    }
  }

  /** A duplicated name routes under neither policy, and under the migrated one it
      has no entry either. */
  lemma DuplicateUnrouted(f: Found, inventory: Inventory, skills: map<Text, Entry>, policy: Policy, formats: Formats)
    requires Migrates(policy, inventory, skills) && UniqueIds(inventory) && f in inventory && !Sole(inventory, f.name)
    ensures !EffectiveSkill(f, inventory, V1(skills), formats).routeEligible
    ensures !EffectiveSkill(f, inventory, policy, formats).qualifiedExplicitAllowed
    ensures !EffectiveSkill(f, inventory, policy, formats).routeEligible
  {
    if f.skillId in policy.skillsById {
      var g :| MapsTo(inventory, skills.Keys, f.skillId, g);
      SameId(inventory, f, g);
    }
  }

  /** The skills agree, or both are passed over under one id and name. */
  ghost predicate Alike(a: R.Prepared, b: R.Prepared, prompt: R.Prompt, language: R.Language) {
    || a == b
    || (a.skill.skillId == b.skill.skillId && a.skill.name == b.skill.name
        && R.PassedOver(a, prompt, language).Some? && R.PassedOver(b, prompt, language).Some?)
  }

  ghost predicate AllAlike(a: seq<R.Prepared>, b: seq<R.Prepared>, prompt: R.Prompt, language: R.Language) {
    |a| == |b| && forall i :: 0 <= i < |a| ==> Alike(a[i], b[i], prompt, language)
  }

  lemma {:induction false} AlikePassing(a: seq<R.Prepared>, b: seq<R.Prepared>, prompt: R.Prompt, language: R.Language)
    requires AllAlike(a, b, prompt, language)
    ensures R.Passing(a, prompt, language) == R.Passing(b, prompt, language)
    decreases |a|
  {
    if a != [] {
      AlikePassing(a[1..], b[1..], prompt, language);
      assert Alike(a[0], b[0], prompt, language);
    }
  }

  /** Two logs list the same skills in the same order, and agree on supersessions. */
  ghost predicate SameButWhy(a: seq<R.Exclusion>, b: seq<R.Exclusion>) {
    |a| == |b| && forall i :: 0 <= i < |a| ==>
      a[i].skillId == b[i].skillId && a[i].name == b[i].name
      && (a[i].why.SupersededBy? || b[i].why.SupersededBy? ==> a[i] == b[i])
  }

  lemma {:induction false} AlikeScan(a: seq<R.Prepared>, b: seq<R.Prepared>, prompt: R.Prompt, language: R.Language)
    requires AllAlike(a, b, prompt, language)
    ensures SameButWhy(R.ScanLog(a, prompt, language), R.ScanLog(b, prompt, language))
    decreases |a|
  {
    if a != [] {
      var n := |a| - 1;
      AlikeScan(a[..n], b[..n], prompt, language);
      assert Alike(a[n], b[n], prompt, language);
    }
  }

  lemma {:induction false} SupersededSame(a: seq<R.Exclusion>, b: seq<R.Exclusion>)
    requires SameButWhy(a, b)
    ensures R.SupersededOnly(a) == R.SupersededOnly(b)
    decreases |a|
  {
    if a != [] { SupersededSame(a[1..], b[1..]); }
  }

  lemma SameAppend(x: seq<R.Exclusion>, y: seq<R.Exclusion>, more: seq<R.Exclusion>)
    requires SameButWhy(x, y)
    ensures SameButWhy(x + more, y + more)
  {
  }

  lemma AlikeLogs(a: seq<R.Prepared>, b: seq<R.Prepared>, prompt: R.Prompt, language: R.Language)
    requires AllAlike(a, b, prompt, language)
    ensures SameButWhy(R.FullLog(a, prompt, language), R.FullLog(b, prompt, language))
  {
    AlikePassing(a, b, prompt, language);
    AlikeScan(a, b, prompt, language);
    var passing := R.Passing(a, prompt, language);
    SameAppend(R.ScanLog(a, prompt, language), R.ScanLog(b, prompt, language),
               R.SupersessionLog(R.Candidates(passing, prompt, language), R.Claims(passing, |passing|)));
  }

  lemma SameHook(recommendations: seq<R.Candidate>, x: seq<R.Exclusion>, y: seq<R.Exclusion>, language: R.Language)
    requires SameButWhy(x, y)
    ensures R.HookText(recommendations, x, language) == R.HookText(recommendations, y, language)
    ensures SameButWhy(Take(x, 12), Take(y, 12))
  {
    SupersededSame(x, y);
  }

  /** Lists that agree but for skills passed over rank the same. */
  lemma AlikeRanking(a: seq<R.Prepared>, b: seq<R.Prepared>, prompt: R.Prompt, language: R.Language, max: nat)
    requires AllAlike(a, b, prompt, language)
    ensures R.Ranked(a, prompt, language, max).recommendations == R.Ranked(b, prompt, language, max).recommendations
    ensures R.Ranked(a, prompt, language, max).hookText == R.Ranked(b, prompt, language, max).hookText
    ensures SameButWhy(R.Ranked(a, prompt, language, max).exclusions, R.Ranked(b, prompt, language, max).exclusions)
  {
    AlikePassing(a, b, prompt, language);
    AlikeLogs(a, b, prompt, language);
    SameHook(R.Recommended(a, prompt, language, max), R.FullLog(a, prompt, language), R.FullLog(b, prompt, language), language);
  }

  lemma RegistriesAlike(inventory: Inventory, skills: map<Text, Entry>, policy: Policy, formats: Formats,
                        prepare: R.Skill -> R.Prepared, prompt: R.Prompt, language: R.Language)
    requires Migrates(policy, inventory, skills) && UniqueIds(inventory) && Prepares(prepare)
    ensures AllAlike(Skills(inventory, V1(skills), formats, prepare), Skills(inventory, policy, formats, prepare), prompt, language)
  {
    forall i | 0 <= i < |inventory|
      ensures Alike(Skills(inventory, V1(skills), formats, prepare)[i], Skills(inventory, policy, formats, prepare)[i], prompt, language)
    {
      var f := inventory[i];
      if Sole(inventory, f.name) {
        SoleUnchanged(f, inventory, skills, policy, formats);
      } else {
        DuplicateUnrouted(f, inventory, skills, policy, formats);
      }
    }
  }

  /** For every prompt and limit the migrated policy recommends the same skills with
      the same hook text, and excludes the same skills in the same order. */
  lemma MigrationPreservesRouting(inventory: Inventory, skills: map<Text, Entry>, policy: Policy, formats: Formats,
                                  prepare: R.Skill -> R.Prepared, prompt: R.Prompt, limit: R.Limit, language: R.Language)
    requires Qualified(inventory, formats) && Migrates(policy, inventory, skills) && Prepares(prepare)
    ensures var before := R.RankSpec(Skills(inventory, V1(skills), formats, prepare), prompt, limit, None, language);
            var after := R.RankSpec(Skills(inventory, policy, formats, prepare), prompt, limit, None, language);
            && before.Ok? == after.Ok?
            && (before.Ok? ==>
                  before.value.recommendations == after.value.recommendations && before.value.hookText == after.value.hookText
                  && SameButWhy(before.value.exclusions, after.value.exclusions))
  {
    RegistriesAlike(inventory, skills, policy, formats, prepare, prompt, language);
    if R.NormalizeLimit(limit).Ok? {
      AlikeRanking(Skills(inventory, V1(skills), formats, prepare), Skills(inventory, policy, formats, prepare),
                   prompt, language, R.NormalizeLimit(limit).value);
    }
  }

  /** Permission to invoke a skill by its qualified id is never gained, and lost
      exactly by the skills of a duplicated name that had it. */
  lemma PermissionOnlyNarrows(f: Found, inventory: Inventory, skills: map<Text, Entry>, policy: Policy, formats: Formats)
    requires Qualified(inventory, formats) && Migrates(policy, inventory, skills) && f in inventory
    ensures var before := EffectiveSkill(f, inventory, V1(skills), formats).qualifiedExplicitAllowed;
            var after := EffectiveSkill(f, inventory, policy, formats).qualifiedExplicitAllowed;
            after <==> before && Sole(inventory, f.name)
  {
    if Sole(inventory, f.name) {
      SoleUnchanged(f, inventory, skills, policy, formats);
    } else {
      DuplicateUnrouted(f, inventory, skills, policy, formats);
    }
  }
}
