/** What the ranker should return: the candidates that no candidate supersedes,
    in a stable sort by score, name and id, and the complete logs. */
module RankerModel {
  import opened Common
  import opened Sequences
  import opened Utf16
  import opened PhraseSearch

  /** `NoTier` is the empty text, which version 1 of a policy lets through. */
  datatype Tier = ActiveDefault | Specialist | ExplicitOnly | Archived | Blocked | NoTier

  datatype Variant = Sole | Canonical | Shadowed | Unresolved

  datatype Skill = Skill(
    skillId: Text, name: Text, description: Text, tier: Tier, family: Option<Text>, path: Text,
    aliases: seq<Text>, preferredFor: seq<Text>, avoidFor: seq<Text>, supersedes: seq<Text>,
    routeEligible: bool, qualifiedExplicitAllowed: bool, variantState: Variant, hasScripts: bool)

  datatype Phrase = Phrase(value: Text, normalized: Text, parts: seq<Text>, weakSingleTerm: bool)

  datatype Prepared = Prepared(
    skill: Skill, normalizedName: Text, nameTokens: seq<Text>, descriptionTokens: seq<Text>,
    aliases: seq<Phrase>, preferredFor: seq<Phrase>, avoidFor: seq<Phrase>, familyToken: Option<Text>)

  /** The prompt, normalized once, and its tokens. */
  datatype Prompt = Prompt(normalized: Text, tokens: set<Text>)

  /** Character classes, locale collation and the label filter. `collate` orders
      strings as `localeCompare` does; different strings may collate alike. */
  datatype Language = Language(collate: Text -> real, word: int -> bool, codeLike: Text -> bool)

  datatype Kind = NameToken | DescriptionToken | Alias | PreferredFor | AvoidFor | Family

  datatype Reason = Qualified | Named | Matched(kind: Kind, value: Text) | DefaultBoost | SpecialistBoost | ScriptCaution

  datatype Candidate = Candidate(
    skillId: Text, name: Text, score: int, tier: Tier, family: Option<Text>, path: Text, reasons: seq<Reason>)

  datatype Why = TierIs(tier: Tier) | VariantIs(variant: Variant) | NotNamed | QualifiedRefused | SupersededBy(winner: Text)

  datatype Exclusion = Exclusion(skillId: Text, name: Text, why: Why)

  datatype Ranking = Ranking(recommendations: seq<Candidate>, exclusions: seq<Exclusion>, hookText: Text)

  datatype RankError = BadLimit | UnknownQualifiedSkill

  // ---- score ----

  function TokenHits(tokens: seq<Text>, prompt: Prompt): seq<Text> { Filter(tokens, t => t in prompt.tokens) }

  ghost predicate PhraseMatches(phrase: Phrase, prompt: Prompt, language: Language, allowWeak: bool) {
    && (!phrase.weakSingleTerm || allowWeak)
    && (Includes(prompt.normalized, phrase.normalized, language.word)
        || (phrase.parts != [] && forall part :: part in phrase.parts ==> part in prompt.tokens))
  }

  ghost function PhraseHits(phrases: seq<Phrase>, prompt: Prompt, language: Language, allowWeak: bool): seq<Text> {
    if phrases == [] then []
    else (if PhraseMatches(phrases[0], prompt, language, allowWeak) then [phrases[0].value] else [])
         + PhraseHits(phrases[1..], prompt, language, allowWeak)
  }

  predicate FamilyHit(p: Prepared, prompt: Prompt) {
    && p.skill.family.Some? && p.skill.family.value != []
    && p.familyToken.Some? && p.familyToken.value != [] && p.familyToken.value in prompt.tokens
  }

  /** The evidence for a skill, before the tier and script adjustments. */
  ghost function Evidence(p: Prepared, prompt: Prompt, language: Language, qualified: bool): int {
    MentionScore(p, prompt, language, qualified) + PolicyScore(p, prompt, language)
  }

  ghost function MentionScore(p: Prepared, prompt: Prompt, language: Language, qualified: bool): int {
    (if qualified then 100 else 0) + (if Includes(prompt.normalized, p.normalizedName, language.word) then 10 else 0)
    + 2 * |TokenHits(p.nameTokens, prompt)| + |TokenHits(p.descriptionTokens, prompt)|
  }

  ghost function PolicyScore(p: Prepared, prompt: Prompt, language: Language): int {
    5 * |PhraseHits(p.aliases, prompt, language, false)| + 6 * |PhraseHits(p.preferredFor, prompt, language, false)|
    - 8 * |PhraseHits(p.avoidFor, prompt, language, true)| + (if FamilyHit(p, prompt) then 4 else 0)
  }

  /** Only positive evidence is adjusted. */
  function Adjusted(evidence: int, skill: Skill): int {
    if evidence <= 0 then evidence
    else evidence + (match skill.tier case ActiveDefault => 5 case Specialist => 1 case _ => 0) - (if skill.hasScripts then 1 else 0)
  }

  function Tagged(kind: Kind, values: seq<Text>): seq<Reason> { Map(values, v => Matched(kind, v)) }

  ghost function Reasons(p: Prepared, prompt: Prompt, language: Language, qualified: bool): seq<Reason> {
    MentionReasons(p, prompt, language, qualified) + PolicyReasons(p, prompt, language)
    + Adjustments(Evidence(p, prompt, language, qualified), p.skill)
  }

  ghost function MentionReasons(p: Prepared, prompt: Prompt, language: Language, qualified: bool): seq<Reason> {
    (if qualified then [Qualified] else [])
    + (if Includes(prompt.normalized, p.normalizedName, language.word) then [Named] else [])
    + Tagged(NameToken, TokenHits(p.nameTokens, prompt)) + Tagged(DescriptionToken, TokenHits(p.descriptionTokens, prompt))
  }

  ghost function PolicyReasons(p: Prepared, prompt: Prompt, language: Language): seq<Reason> {
    Tagged(Alias, PhraseHits(p.aliases, prompt, language, false))
    + Tagged(PreferredFor, PhraseHits(p.preferredFor, prompt, language, false))
    + Tagged(AvoidFor, PhraseHits(p.avoidFor, prompt, language, true))
    + if FamilyHit(p, prompt) then [Matched(Family, p.skill.family.value)] else []
  }

  function Adjustments(evidence: int, skill: Skill): seq<Reason> {
    if evidence <= 0 then []
    else (match skill.tier case ActiveDefault => [DefaultBoost] case Specialist => [SpecialistBoost] case _ => [])
         + (if skill.hasScripts then [ScriptCaution] else [])
  }

  ghost function Scored(p: Prepared, prompt: Prompt, language: Language, qualified: bool): Candidate {
    Candidate(p.skill.skillId, p.skill.name, Adjusted(Evidence(p, prompt, language, qualified), p.skill),
              p.skill.tier, p.skill.family, p.skill.path, Reasons(p, prompt, language, qualified))
  }

  // ---- scan ----

  /** Why a skill is passed over before it is scored. */
  ghost function PassedOver(p: Prepared, prompt: Prompt, language: Language): Option<Why> {
    if p.skill.tier.Blocked? || p.skill.tier.Archived? then Some(TierIs(p.skill.tier))
    else if !p.skill.routeEligible then Some(VariantIs(p.skill.variantState))
    else if p.skill.tier.ExplicitOnly? && !Includes(prompt.normalized, p.normalizedName, language.word) then Some(NotNamed)
    else None
  }

  ghost predicate Passes(p: Prepared, prompt: Prompt, language: Language) {
    PassedOver(p, prompt, language).None? && Scored(p, prompt, language, false).score >= 5
  }

  ghost function Passing(skills: seq<Prepared>, prompt: Prompt, language: Language): seq<Prepared> {
    Filter(skills, p => Passes(p, prompt, language))
  }

  ghost function Candidates(passing: seq<Prepared>, prompt: Prompt, language: Language): (cs: seq<Candidate>)
    ensures |cs| == |passing|
    ensures forall i :: 0 <= i < |cs| ==> cs[i] == Scored(passing[i], prompt, language, false)
  {
    Map(passing, p => Scored(p, prompt, language, false))
  }

  ghost function ScanLog(skills: seq<Prepared>, prompt: Prompt, language: Language): seq<Exclusion> {
    if skills == [] then []
    else
      var last := skills[|skills| - 1];
      ScanLog(skills[..|skills| - 1], prompt, language)
      + match PassedOver(last, prompt, language)
        case None => []
        case Some(why) => [Exclusion(last.skill.skillId, last.skill.name, why)]
  }

  // ---- supersession ----

  /** `winner` is the name of a candidate that supersedes `name`. */
  datatype Claim = Claim(winner: Text, name: Text)

  /** The names a candidate id supersedes: the last candidate with that id counts. */
  function SupersedesOf(passing: seq<Prepared>, id: Text): seq<Text> {
    if passing == [] then []
    else
      var last := passing[|passing| - 1].skill;
      if last.skillId == id && last.supersedes != [] then last.supersedes
      else SupersedesOf(passing[..|passing| - 1], id)
  }

  function ClaimsOf(winner: Text, names: seq<Text>): (claims: seq<Claim>)
    ensures |claims| == |names|
    ensures forall i :: 0 <= i < |names| ==> claims[i] == Claim(winner, names[i])
  {
    seq(|names|, i requires 0 <= i < |names| => Claim(winner, names[i]))
  }

  /** The claims of the first `n` candidates, in order. */
  function Claims(passing: seq<Prepared>, n: nat): seq<Claim>
    requires n <= |passing|
  {
    if n == 0 then []
    else Claims(passing, n - 1) + ClaimsOf(passing[n - 1].skill.name, SupersedesOf(passing, passing[n - 1].skill.skillId))
  }

  predicate Claimed(claims: seq<Claim>, name: Text) { exists i :: 0 <= i < |claims| && claims[i].name == name }

  /** Ids of the candidates with a claimed name. */
  predicate Removed(cs: seq<Candidate>, claims: seq<Claim>, id: Text) {
    exists i :: 0 <= i < |cs| && cs[i].skillId == id && Claimed(claims, cs[i].name)
  }

  function Survivors(cs: seq<Candidate>, claims: seq<Claim>): seq<Candidate> {
    Filter(cs, (c: Candidate) => !Removed(cs, claims, c.skillId))
  }

  function Bearing(cs: seq<Candidate>, name: Text): seq<Candidate> { Filter(cs, (c: Candidate) => c.name == name) }

  /** The exclusions of one claim: its bearers whose id is not gone yet. */
  function ClaimLog(targets: seq<Candidate>, winner: Text, cs: seq<Candidate>, earlier: seq<Claim>): seq<Exclusion> {
    if targets == [] then []
    else
      var before, last := targets[..|targets| - 1], targets[|targets| - 1];
      ClaimLog(before, winner, cs, earlier)
      + if Removed(cs, earlier, last.skillId) || exists i :: 0 <= i < |before| && before[i].skillId == last.skillId then []
        else [Exclusion(last.skillId, last.name, SupersededBy(winner))]
  }

  /** Each name is removed by the first claim on it. */
  function SupersessionLog(cs: seq<Candidate>, claims: seq<Claim>): seq<Exclusion> {
    if claims == [] then []
    else
      var before, last := claims[..|claims| - 1], claims[|claims| - 1];
      SupersessionLog(cs, before)
      + if Claimed(before, last.name) then [] else ClaimLog(Bearing(cs, last.name), last.winner, cs, before)
  }

  // ---- order ----

  function LocaleCompare(a: Text, b: Text, language: Language): int {
    if language.collate(a) < language.collate(b) then -1 else if language.collate(a) > language.collate(b) then 1 else 0
  }

  function Compare(left: Candidate, right: Candidate, language: Language): int {
    if right.score != left.score then right.score - left.score
    else if LocaleCompare(left.name, right.name, language) != 0 then LocaleCompare(left.name, right.name, language)
    else LocaleCompare(left.skillId, right.skillId, language)
  }

  /** Where a candidate goes: after everything that does not come after it. */
  function Place(c: Candidate, s: seq<Candidate>, language: Language): (i: nat)
    ensures i <= |s|
  {
    if s == [] || Compare(s[0], c, language) > 0 then 0 else 1 + Place(c, s[1..], language)
  }

  function Insert(c: Candidate, s: seq<Candidate>, language: Language): (t: seq<Candidate>)
    ensures |t| == |s| + 1
  {
    var i := Place(c, s, language);
    s[..i] + [c] + s[i..]
  }

  function Sorted(s: seq<Candidate>, language: Language): (t: seq<Candidate>)
    ensures |t| == |s|
  {
    if s == [] then [] else Insert(s[|s| - 1], Sorted(s[..|s| - 1], language), language)
  }

  // ---- result ----

  /** A limit that is not a finite number is refused, and others are truncated. */
  datatype Limit = NotFinite | Finite(value: real)

  function Truncated(r: real): int { if r >= 0.0 then r.Floor else -((-r).Floor) }

  function NormalizeLimit(limit: Limit): Result<nat, RankError> {
    if limit.NotFinite? then Err(BadLimit)
    else
      var integer := Truncated(limit.value);
      if integer < 1 || integer > 10 then Err(BadLimit) else Ok(integer)
  }

  function SafeLabel(name: Text, id: Text, language: Language): Text { if language.codeLike(name) then name else id }

  function RecommendationLabel(c: Candidate, language: Language): Text {
    SafeLabel(c.name, c.skillId, language)
    + if c.family.Some? && c.family.value != [] && language.codeLike(c.family.value)
      then Literal(" (") + c.family.value + Literal(")") else []
  }

  function Joined(parts: seq<Text>): Text {
    if parts == [] then [] else if |parts| == 1 then parts[0] else parts[0] + Literal(", ") + Joined(parts[1..])
  }

  function SupersededOnly(exclusions: seq<Exclusion>): seq<Exclusion> { Filter(exclusions, (e: Exclusion) => e.why.SupersededBy?) }

  /** `renderLegacyRouteHookText`, cut at 500 units. */
  function HookText(recommendations: seq<Candidate>, exclusions: seq<Exclusion>, language: Language): (t: Text)
    ensures |t| <= 500
  {
    if recommendations == [] then Literal("SkillMap: no confident skill recommendation.")
    else
      var avoid := Take(SupersededOnly(exclusions), 2);
      var suffix := if avoid == [] then [] else Literal(" Avoid superseded: ") + Joined(Map(avoid, (e: Exclusion) => e.skillId)) + Literal(".");
      Take(Literal("SkillMap: prefer ") + Joined(Map(recommendations, c => RecommendationLabel(c, language))) + Literal(".") + suffix, 500)
  }

  /** The complete log of an unqualified ranking. */
  ghost function FullLog(skills: seq<Prepared>, prompt: Prompt, language: Language): seq<Exclusion> {
    var passing := Passing(skills, prompt, language);
    ScanLog(skills, prompt, language) + SupersessionLog(Candidates(passing, prompt, language), Claims(passing, |passing|))
  }

  ghost function Recommended(skills: seq<Prepared>, prompt: Prompt, language: Language, max: nat): seq<Candidate> {
    var passing := Passing(skills, prompt, language);
    Take(Sorted(Survivors(Candidates(passing, prompt, language), Claims(passing, |passing|)), language), max)
  }

  ghost function Ranked(skills: seq<Prepared>, prompt: Prompt, language: Language, max: nat): Ranking {
    var recommendations := Recommended(skills, prompt, language, max);
    var log := FullLog(skills, prompt, language);
    Ranking(recommendations, Take(log, 12), HookText(recommendations, log, language))
  }

  function FirstWithId(skills: seq<Prepared>, id: Text): Option<Prepared> {
    if skills == [] then None else if skills[0].skill.skillId == id then Some(skills[0]) else FirstWithId(skills[1..], id)
  }

  function QualifiedLog(skill: Skill): seq<Exclusion> {
    if skill.tier.Blocked? || skill.tier.Archived? then [Exclusion(skill.skillId, skill.name, TierIs(skill.tier))]
    else if !skill.qualifiedExplicitAllowed then [Exclusion(skill.skillId, skill.name, QualifiedRefused)]
    else []
  }

  ghost function QualifiedRanking(p: Prepared, prompt: Prompt, language: Language): Ranking {
    var log := QualifiedLog(p.skill);
    var recommendations := if log == [] then [Scored(p, prompt, language, true)] else [];
    Ranking(recommendations, log, HookText(recommendations, log, language))
  }

  /** An empty qualified id counts as none. */
  ghost function RankSpec(skills: seq<Prepared>, prompt: Prompt, limit: Limit, qualified: Option<Text>, language: Language)
    : Result<Ranking, RankError>
  {
    match NormalizeLimit(limit)
    case Err(e) => Err(e)
    case Ok(max) =>
      if qualified.None? || qualified.value == [] then Ok(Ranked(skills, prompt, language, max))
      else match FirstWithId(skills, qualified.value)
        case None => Err(UnknownQualifiedSkill)
        case Some(p) => Ok(QualifiedRanking(p, prompt, language))
  }
}
