/** Inventories, policies of both versions, and the effective registry they give. */
module PolicyModel {
  import opened Common
  import opened Sequences
  import opened Sorting
  import opened Utf16
  import R = RankerModel

  /** One scanned skill. */
  datatype Found = Found(
    skillId: Text, contentRevision: Text, name: Text, description: Text, path: Text,
    implicitAllowed: bool, frontmatterValid: bool, hasScripts: bool)

  type Inventory = seq<Found>

  datatype Entry = Entry(
    tier: Option<R.Tier>, family: Option<Text>, aliases: Option<seq<Text>>, preferredFor: Option<seq<Text>>,
    avoidFor: Option<seq<Text>>, overlaps: Option<seq<Text>>, supersedes: Option<seq<Text>>, notes: Option<Text>)

  const NO_ENTRY: Entry := Entry(None, None, None, None, None, None, None, None)

  datatype Compared = Compared(skillId: Text, contentRevision: Text)

  /** A duplicate decision without its digest. */
  datatype DecisionBody = DecisionBody(
    displayName: Text, selectedSkillId: Text, comparedVariants: seq<Compared>, actor: Text, reason: Text, decidedAt: Text)

  /** SHA-256 of the canonical JSON, taken as injective: a digest is what it was taken of, or something else. */
  datatype DecisionDigest = DigestOf(body: DecisionBody) | OtherDigest(text: Text)

  datatype Decision = Decision(body: DecisionBody, digest: DecisionDigest)

  datatype Policy =
    | V1(skills: map<Text, Entry>)
    | V2(canonicalByName: map<Text, Text>, skillsById: map<Text, Entry>, duplicateDecisions: map<Text, Decision>,
         unresolvedNames: seq<Text>, unresolvedEntries: map<Text, Entry>)

  /** Formats of ids and revisions, and the collation of ids. */
  datatype Formats = Formats(skillId: Text -> bool, revision: Text -> bool, collate: Text -> real)

  /** Ids of the right form never collate alike. */
  ghost predicate IdsSeparate(formats: Formats) {
    forall a, b :: formats.skillId(a) && formats.skillId(b) && formats.collate(a) == formats.collate(b) ==> a == b
  }

  datatype PolicyError = Unqualified | IdCollision | NotDuplicate | NotAVariant | NoActor | ThinReason | NotV1 | InvalidPolicy

  function Variants(inventory: Inventory, name: Text): seq<Found> { Filter(inventory, (f: Found) => f.name == name) }

  predicate Identified(f: Found, formats: Formats) { formats.skillId(f.skillId) && formats.revision(f.contentRevision) }

  predicate AllIdentified(inventory: Inventory, formats: Formats) {
    forall i :: 0 <= i < |inventory| ==> Identified(inventory[i], formats)
  }

  predicate UniqueIds(inventory: Inventory) {
    forall i, j :: 0 <= i < j < |inventory| ==> inventory[i].skillId != inventory[j].skillId
  }

  /** `assertQualifiedInventory`. */
  predicate Qualified(inventory: Inventory, formats: Formats) { AllIdentified(inventory, formats) && UniqueIds(inventory) }

  // ---- duplicate decisions ----

  /** JavaScript white space and line ends. */
  predicate Space(u: Unit) {
    9 <= u <= 13 || u == 32 || u == 0xA0 || u == 0x1680 || 0x2000 <= u <= 0x200A || u == 0x2028 || u == 0x2029
    || u == 0x202F || u == 0x205F || u == 0x3000 || u == 0xFEFF
  }

  function TrimStart(t: Text): (r: Text)
    ensures r != [] ==> !Space(r[0])
    ensures t != [] && !Space(t[0]) ==> r == t
  {
    if t == [] || !Space(t[0]) then t else TrimStart(t[1..])
  }

  function TrimEnd(t: Text): (r: Text)
    ensures r != [] ==> !Space(r[|r| - 1])
    ensures t != [] && !Space(t[|t| - 1]) ==> r == t
    ensures r <= t
  {
    if t == [] || !Space(t[|t| - 1]) then t else TrimEnd(t[..|t| - 1])
  }

  function Trim(t: Text): Text { TrimEnd(TrimStart(t)) }

  lemma TrimIdempotent(t: Text)
    ensures Trim(Trim(t)) == Trim(t)
  {
  }

  /** The ids and revisions of a name, by the collation of the id. */
  function ComparedOf(variants: seq<Found>, formats: Formats): seq<Compared> {
    SortVariants(Map(variants, (f: Found) => Compared(f.skillId, f.contentRevision)), formats)
  }

  function SortVariants(s: seq<Compared>, formats: Formats): seq<Compared> {
    SortBy(s, (a: Compared, b: Compared) => formats.collate(a.skillId) < formats.collate(b.skillId))
  }

  predicate UniqueVariants(s: seq<Compared>) {
    forall i, j :: 0 <= i < j < |s| ==> s[i].skillId != s[j].skillId
  }

  predicate Compares(s: seq<Compared>, id: Text) { exists i :: 0 <= i < |s| && s[i].skillId == id }

  /** `validateDuplicateDecision`. */
  predicate ValidDecision(d: Decision, name: Text, formats: Formats) {
    && d.body.displayName == name && formats.skillId(d.body.selectedSkillId)
    && Trim(d.body.actor) != [] && |Trim(d.body.reason)| >= 12 && d.body.decidedAt != []
    && |d.body.comparedVariants| >= 2
    && (forall i :: 0 <= i < |d.body.comparedVariants| ==>
          formats.skillId(d.body.comparedVariants[i].skillId) && formats.revision(d.body.comparedVariants[i].contentRevision))
    && UniqueVariants(d.body.comparedVariants) && Compares(d.body.comparedVariants, d.body.selectedSkillId)
    && d.body.comparedVariants == SortVariants(d.body.comparedVariants, formats)
    && d.digest == DigestOf(d.body)
  }

  // ---- validation ----

  /** `validatePolicyEntry`, of what an entry can hold here. */
  predicate ValidEntry(e: Entry) { e.tier != Some(R.NoTier) }

  predicate ValidEntries(entries: map<Text, Entry>) { forall k :: k in entries ==> ValidEntry(entries[k]) }

  predicate Named(name: Text) { Trim(name) != [] }

  predicate ValidNames(names: seq<Text>) {
    (forall i, j :: 0 <= i < j < |names| ==> names[i] != names[j]) && forall i :: 0 <= i < |names| ==> Named(names[i])
  }

  predicate ValidCanonicals(byName: map<Text, Text>, formats: Formats) {
    forall n :: n in byName ==> Named(n) && formats.skillId(byName[n])
  }

  predicate ValidDecisions(decisions: map<Text, Decision>, formats: Formats) {
    forall n :: n in decisions ==> ValidDecision(decisions[n], n, formats)
  }

  predicate ValidIds(byId: map<Text, Entry>, formats: Formats) { forall id :: id in byId ==> formats.skillId(id) }

  /** `validatePolicy` of version 1, which asks only for a name. */
  predicate ValidV1(skills: map<Text, Entry>) { forall n :: n in skills ==> Named(n) }

  /** `validatePolicyV2`. */
  predicate ValidV2(policy: Policy, formats: Formats)
    requires policy.V2?
  {
    && ValidCanonicals(policy.canonicalByName, formats) && ValidDecisions(policy.duplicateDecisions, formats)
    && ValidIds(policy.skillsById, formats) && ValidEntries(policy.skillsById)
    && ValidNames(policy.unresolvedNames) && ValidEntries(policy.unresolvedEntries)
  }

  /** `duplicateDecisionMatchesInventory`; an unidentified variant of the name makes it throw. */
  function DecisionMatches(policy: Policy, inventory: Inventory, name: Text, formats: Formats): Result<bool, PolicyError>
    requires policy.V2?
  {
    if name !in policy.duplicateDecisions || name !in policy.canonicalByName || policy.canonicalByName[name] == []
       || policy.canonicalByName[name] != policy.duplicateDecisions[name].body.selectedSkillId
       || !ValidDecision(policy.duplicateDecisions[name], name, formats) then Ok(false)
    else
      var variants := Variants(inventory, name);
      if !AllIdentified(variants, formats) then Err(Unqualified)
      else
        var current := ComparedOf(variants, formats);
        Ok(|current| >= 2 && Compares(current, policy.canonicalByName[name])
           && current == policy.duplicateDecisions[name].body.comparedVariants)
  }

  // ---- effective registry ----

  /** The entry that applies to a skill: by name in version 1, by id in version 2. */
  function EntryOf(f: Found, policy: Policy): Option<Entry> {
    match policy
    case V1(skills) => if f.name in skills then Some(skills[f.name]) else None
    case V2(_, byId, _, _, _) => if f.skillId in byId then Some(byId[f.skillId]) else None
  }

  /** The canonical id of a duplicated name whose decision still matches. */
  function CanonicalOf(name: Text, inventory: Inventory, policy: Policy, formats: Formats): Option<Text> {
    if policy.V2? && |Variants(inventory, name)| > 1 && DecisionMatches(policy, inventory, name, formats) == Ok(true)
       && name in policy.canonicalByName then Some(policy.canonicalByName[name]) else None
  }

  function StateOf(f: Found, inventory: Inventory, canonical: Option<Text>): R.Variant {
    if |Variants(inventory, f.name)| == 1 then R.Sole
    else match canonical
      case None => R.Unresolved
      case Some(id) => if id == f.skillId then R.Canonical else R.Shadowed
  }

  function TierOf(entry: Option<Entry>): R.Tier {
    match entry
    case None => R.Specialist
    case Some(e) => match e.tier case None => R.Specialist case Some(t) => t
  }

  function ListOf(list: Option<seq<Text>>): seq<Text> { match list case None => [] case Some(l) => l }

  /** One skill of the effective registry; without an entry it may not be used at all. */
  function EffectiveSkill(f: Found, inventory: Inventory, policy: Policy, formats: Formats): R.Skill {
    var entry := EntryOf(f, policy);
    var e := match entry case None => NO_ENTRY case Some(found) => found;
    var state := StateOf(f, inventory, CanonicalOf(f.name, inventory, policy, formats));
    var allowed := !TierOf(entry).Archived? && !TierOf(entry).Blocked? && f.implicitAllowed && f.frontmatterValid && entry.Some?;
    R.Skill(f.skillId, f.name, f.description, TierOf(entry), e.family, f.path,
            ListOf(e.aliases), ListOf(e.preferredFor), ListOf(e.avoidFor), ListOf(e.supersedes),
            allowed && (state.Sole? || state.Canonical?), allowed, state, f.hasScripts)
  }

  /** A version 2 decision over an unidentified variant fails the whole registry. */
  predicate RegistryFails(inventory: Inventory, policy: Policy, formats: Formats) {
    policy.V2? && exists i :: 0 <= i < |inventory| && |Variants(inventory, inventory[i].name)| > 1
                              && DecisionMatches(policy, inventory, inventory[i].name, formats).Err?
  }

  function EffectiveRegistry(inventory: Inventory, policy: Policy, formats: Formats): Result<seq<R.Skill>, PolicyError> {
    if RegistryFails(inventory, policy, formats) then Err(Unqualified)
    else Ok(Map(inventory, (f: Found) => EffectiveSkill(f, inventory, policy, formats)))
  }
}
