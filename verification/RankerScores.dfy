/** What each piece of evidence is worth, and what it takes to be recommended, said of
    the candidates and of the raw fields of the skills. */
module RankerScores {
  import opened Common
  import opened Sequences
  import opened Utf16
  import opened PhraseSearch
  import opened RankerModel
  import Ranker
  import RankerTheorems

  ghost function Score(p: Prepared, prompt: Prompt, language: Language, qualified: bool): int {
    Scored(p, prompt, language, qualified).score
  }

  // ---- phrases ----

  /** The phrase occurs in the text, and no letter or number touches it. */
  ghost predicate Alone(text: Text, phrase: Text, word: int -> bool) {
    phrase != [] && exists i: nat :: AloneFrom(text, phrase, i, word)
  }

  ghost predicate AloneFrom(text: Text, phrase: Text, i: nat, word: int -> bool) {
    var j := i + |phrase|;
    && j <= |text| && text[i..j] == phrase
    && (i == 0 || !word(CodePointBefore(text, i))) && (j == |text| || !word(CodePointAt(text, j)))
  }

  lemma IncludesIff(text: Text, phrase: Text, word: int -> bool)
    ensures Includes(text, phrase, word) <==> Alone(text, phrase, word)
  {
    if Includes(text, phrase, word) {
      var i :| AloneAt(text, phrase, i, word);
      assert AloneFrom(text, phrase, i, word);
    }
    if Alone(text, phrase, word) {
      var i: nat :| AloneFrom(text, phrase, i, word);
      assert AloneAt(text, phrase, i, word);
    }
  }

  /** The prompt holds the phrase, or has all of its parts among its tokens. */
  ghost predicate Hit(x: Phrase, prompt: Prompt, language: Language) {
    || Alone(prompt.normalized, x.normalized, language.word)
    || (x.parts != [] && forall i :: 0 <= i < |x.parts| ==> x.parts[i] in prompt.tokens)
  }

  lemma MatchesIff(x: Phrase, prompt: Prompt, language: Language, allowWeak: bool)
    ensures PhraseMatches(x, prompt, language, allowWeak) <==> (allowWeak || !x.weakSingleTerm) && Hit(x, prompt, language)
  {
    IncludesIff(prompt.normalized, x.normalized, language.word);
    if forall i :: 0 <= i < |x.parts| ==> x.parts[i] in prompt.tokens {
      forall part | part in x.parts ensures part in prompt.tokens {}
    }
  }

  // ---- one more piece of evidence ----

  function Added<T>(s: seq<T>, i: nat, x: T): seq<T>
    requires i <= |s|
  {
    s[..i] + [x] + s[i..]
  }

  lemma OneMorePhrase(s: seq<Phrase>, i: nat, x: Phrase, prompt: Prompt, language: Language, allowWeak: bool)
    requires i <= |s|
    ensures |PhraseHits(Added(s, i, x), prompt, language, allowWeak)| ==
              |PhraseHits(s, prompt, language, allowWeak)| + if (allowWeak || !x.weakSingleTerm) && Hit(x, prompt, language) then 1 else 0
  {
    MatchesIff(x, prompt, language, allowWeak);
    Ranker.PhraseHitsAppend(s[..i] + [x], s[i..], prompt, language, allowWeak);
    Ranker.PhraseHitsAppend(s[..i], [x], prompt, language, allowWeak);
    Ranker.PhraseHitsAppend(s[..i], s[i..], prompt, language, allowWeak);
    assert s[..i] + s[i..] == s && [x][1..] == [];
  }

  lemma OneMoreToken(s: seq<Text>, i: nat, x: Text, prompt: Prompt)
    requires i <= |s|
    ensures |TokenHits(Added(s, i, x), prompt)| == |TokenHits(s, prompt)| + if x in prompt.tokens then 1 else 0
  {
    var keep := (t: Text) => t in prompt.tokens;
    FilterAppend(s[..i] + [x], s[i..], keep);
    FilterAppend(s[..i], [x], keep);
    FilterAppend(s[..i], s[i..], keep);
    assert s[..i] + s[i..] == s && [x][1..] == [];
  }

  /** The same skill in no boosted tier and without scripts. */
  function Bare(p: Prepared): Prepared { p.(skill := p.skill.(tier := NoTier, hasScripts := false)) }

  /** A skill that shares nothing with the prompt scores nothing. */
  lemma NothingScoresNothing(p: Prepared, prompt: Prompt, language: Language)
    requires p.nameTokens == [] && p.descriptionTokens == [] && p.aliases == [] && p.preferredFor == [] && p.avoidFor == []
    requires !Alone(prompt.normalized, p.normalizedName, language.word) && p.familyToken.None?
    ensures Score(p, prompt, language, false) == 0
  {
    IncludesIff(prompt.normalized, p.normalizedName, language.word);
  }

  lemma AliasAdds(p: Prepared, i: nat, x: Phrase, prompt: Prompt, language: Language, qualified: bool)
    requires i <= |p.aliases|
    ensures Score(Bare(p.(aliases := Added(p.aliases, i, x))), prompt, language, qualified) ==
              Score(Bare(p), prompt, language, qualified) + if !x.weakSingleTerm && Hit(x, prompt, language) then 5 else 0
  {
    OneMorePhrase(p.aliases, i, x, prompt, language, false);
  }

  lemma PreferredAdds(p: Prepared, i: nat, x: Phrase, prompt: Prompt, language: Language, qualified: bool)
    requires i <= |p.preferredFor|
    ensures Score(Bare(p.(preferredFor := Added(p.preferredFor, i, x))), prompt, language, qualified) ==
              Score(Bare(p), prompt, language, qualified) + if !x.weakSingleTerm && Hit(x, prompt, language) then 6 else 0
  {
    OneMorePhrase(p.preferredFor, i, x, prompt, language, false);
  }

  /** A phrase to avoid takes away, and here a weak single term counts too. */
  lemma AvoidTakes(p: Prepared, i: nat, x: Phrase, prompt: Prompt, language: Language, qualified: bool)
    requires i <= |p.avoidFor|
    ensures Score(Bare(p.(avoidFor := Added(p.avoidFor, i, x))), prompt, language, qualified) ==
              Score(Bare(p), prompt, language, qualified) - if Hit(x, prompt, language) then 8 else 0
  {
    OneMorePhrase(p.avoidFor, i, x, prompt, language, true);
  }

  lemma NameTokenAdds(p: Prepared, i: nat, x: Text, prompt: Prompt, language: Language, qualified: bool)
    requires i <= |p.nameTokens|
    ensures Score(Bare(p.(nameTokens := Added(p.nameTokens, i, x))), prompt, language, qualified) ==
              Score(Bare(p), prompt, language, qualified) + if x in prompt.tokens then 2 else 0
  {
    OneMoreToken(p.nameTokens, i, x, prompt);
  }

  lemma DescriptionTokenAdds(p: Prepared, i: nat, x: Text, prompt: Prompt, language: Language, qualified: bool)
    requires i <= |p.descriptionTokens|
    ensures Score(Bare(p.(descriptionTokens := Added(p.descriptionTokens, i, x))), prompt, language, qualified) ==
              Score(Bare(p), prompt, language, qualified) + if x in prompt.tokens then 1 else 0
  {
    OneMoreToken(p.descriptionTokens, i, x, prompt);
  }

  /** Against a skill whose name is not there: the name in the prompt, its family, and a
      qualified mention. */
  lemma MentionsAdd(p: Prepared, prompt: Prompt, language: Language)
    ensures Score(Bare(p), prompt, language, true) == Score(Bare(p), prompt, language, false) + 100
    ensures Score(Bare(p), prompt, language, false) ==
              Score(Bare(p.(normalizedName := [])), prompt, language, false)
              + if Alone(prompt.normalized, p.normalizedName, language.word) then 10 else 0
    ensures Score(Bare(p), prompt, language, false) ==
              Score(Bare(p.(familyToken := None)), prompt, language, false)
              + if p.skill.family.Some? && p.skill.family.value != [] && p.familyToken.Some? && p.familyToken.value != []
                   && p.familyToken.value in prompt.tokens then 4 else 0
  {
    IncludesIff(prompt.normalized, p.normalizedName, language.word);
  }

  /** Only a positive score is adjusted, by the tier and for scripts. */
  lemma TierAdjusts(p: Prepared, prompt: Prompt, language: Language, qualified: bool)
    ensures var bare := Score(Bare(p), prompt, language, qualified);
            Score(p, prompt, language, qualified) ==
              if bare <= 0 then bare
              else bare + (if p.skill.tier == ActiveDefault then 5 else if p.skill.tier == Specialist then 1 else 0)
                   - if p.skill.hasScripts then 1 else 0
  {
  }

  // ---- reasons ----

  lemma {:induction false} HitIn(phrases: seq<Phrase>, prompt: Prompt, language: Language, allowWeak: bool, v: Text)
    ensures v in PhraseHits(phrases, prompt, language, allowWeak) <==>
              exists i :: 0 <= i < |phrases| && phrases[i].value == v && (allowWeak || !phrases[i].weakSingleTerm)
                          && Hit(phrases[i], prompt, language)
  {
    if phrases != [] {
      HitIn(phrases[1..], prompt, language, allowWeak, v);
      MatchesIff(phrases[0], prompt, language, allowWeak);
      if i :| 0 <= i < |phrases[1..]| && phrases[1..][i].value == v && (allowWeak || !phrases[1..][i].weakSingleTerm)
              && Hit(phrases[1..][i], prompt, language) {
        assert phrases[i + 1] == phrases[1..][i];
      }
    }
  }

  lemma TaggedIn(kind: Kind, values: seq<Text>, k: Kind, v: Text)
    ensures Matched(k, v) in Tagged(kind, values) <==> k == kind && v in values
  {
    var tagged := Tagged(kind, values);
    if k == kind && v in values {
      var i :| 0 <= i < |values| && values[i] == v;
      assert tagged[i] == Matched(k, v);
    }
  }

  ghost predicate SomeHit(phrases: seq<Phrase>, prompt: Prompt, language: Language, allowWeak: bool, v: Text) {
    exists i :: 0 <= i < |phrases| && phrases[i].value == v && (allowWeak || !phrases[i].weakSingleTerm) && Hit(phrases[i], prompt, language)
  }

  /** The reasons name exactly the matched phrases and tokens, each under its own kind. */
  lemma ReasonsSay(p: Prepared, prompt: Prompt, language: Language, v: Text)
    ensures var reasons := Scored(p, prompt, language, false).reasons;
            && (Matched(Alias, v) in reasons <==> SomeHit(p.aliases, prompt, language, false, v))
            && (Matched(PreferredFor, v) in reasons <==> SomeHit(p.preferredFor, prompt, language, false, v))
            && (Matched(AvoidFor, v) in reasons <==> SomeHit(p.avoidFor, prompt, language, true, v))
            && (Matched(NameToken, v) in reasons <==> v in p.nameTokens && v in prompt.tokens)
            && (Matched(DescriptionToken, v) in reasons <==> v in p.descriptionTokens && v in prompt.tokens)
  {
    PolicyReasonsSay(p, prompt, language, v);
    MentionReasonsSay(p, prompt, language, v);
    AdjustmentsSay(Evidence(p, prompt, language, false), p.skill);
  }

  lemma AdjustmentsSay(evidence: int, skill: Skill)
    ensures forall r :: r in Adjustments(evidence, skill) ==> !r.Matched? && !r.Named? && !r.Qualified?
  {
  }

  lemma PolicyReasonsSay(p: Prepared, prompt: Prompt, language: Language, v: Text)
    ensures var reasons := PolicyReasons(p, prompt, language);
            && (Matched(Alias, v) in reasons <==> SomeHit(p.aliases, prompt, language, false, v))
            && (Matched(PreferredFor, v) in reasons <==> SomeHit(p.preferredFor, prompt, language, false, v))
            && (Matched(AvoidFor, v) in reasons <==> SomeHit(p.avoidFor, prompt, language, true, v))
            && Matched(NameToken, v) !in reasons && Matched(DescriptionToken, v) !in reasons
  {
    HitIn(p.aliases, prompt, language, false, v);
    HitIn(p.preferredFor, prompt, language, false, v);
    HitIn(p.avoidFor, prompt, language, true, v);
    var a, b := PhraseHits(p.aliases, prompt, language, false), PhraseHits(p.preferredFor, prompt, language, false);
    var c := PhraseHits(p.avoidFor, prompt, language, true);
    forall k: Kind ensures Matched(k, v) in Tagged(Alias, a) <==> k == Alias && v in a { TaggedIn(Alias, a, k, v); }
    forall k: Kind ensures Matched(k, v) in Tagged(PreferredFor, b) <==> k == PreferredFor && v in b { TaggedIn(PreferredFor, b, k, v); }
    forall k: Kind ensures Matched(k, v) in Tagged(AvoidFor, c) <==> k == AvoidFor && v in c { TaggedIn(AvoidFor, c, k, v); }
  }

  lemma MentionReasonsSay(p: Prepared, prompt: Prompt, language: Language, v: Text)
    ensures var reasons := MentionReasons(p, prompt, language, false);
            && (Matched(NameToken, v) in reasons <==> v in p.nameTokens && v in prompt.tokens)
            && (Matched(DescriptionToken, v) in reasons <==> v in p.descriptionTokens && v in prompt.tokens)
            && Matched(Alias, v) !in reasons && Matched(PreferredFor, v) !in reasons && Matched(AvoidFor, v) !in reasons
  {
    var a, b := TokenHits(p.nameTokens, prompt), TokenHits(p.descriptionTokens, prompt);
    FilterMembers(p.nameTokens, (t: Text) => t in prompt.tokens, v);
    FilterMembers(p.descriptionTokens, (t: Text) => t in prompt.tokens, v);
    forall k: Kind ensures Matched(k, v) in Tagged(NameToken, a) <==> k == NameToken && v in a { TaggedIn(NameToken, a, k, v); }
    forall k: Kind ensures Matched(k, v) in Tagged(DescriptionToken, b) <==> k == DescriptionToken && v in b { TaggedIn(DescriptionToken, b, k, v); }
  }

  lemma TaggedMatch(kind: Kind, values: seq<Text>)
    ensures forall r :: r in Tagged(kind, values) ==> r.Matched?
  {
  }

  lemma MentionsNamed(p: Prepared, prompt: Prompt, language: Language, qualified: bool)
    ensures var reasons := MentionReasons(p, prompt, language, qualified);
            && (Qualified in reasons <==> qualified)
            && (Named in reasons <==> Alone(prompt.normalized, p.normalizedName, language.word))
            && DefaultBoost !in reasons && SpecialistBoost !in reasons && ScriptCaution !in reasons
  {
    IncludesIff(prompt.normalized, p.normalizedName, language.word);
    TaggedMatch(NameToken, TokenHits(p.nameTokens, prompt));
    TaggedMatch(DescriptionToken, TokenHits(p.descriptionTokens, prompt));
  }

  lemma PolicyReasonsMatch(p: Prepared, prompt: Prompt, language: Language)
    ensures forall r :: r in PolicyReasons(p, prompt, language) ==> r.Matched?
  {
    TaggedMatch(Alias, PhraseHits(p.aliases, prompt, language, false));
    TaggedMatch(PreferredFor, PhraseHits(p.preferredFor, prompt, language, false));
    TaggedMatch(AvoidFor, PhraseHits(p.avoidFor, prompt, language, true));
  }

  lemma BoostsSay(evidence: int, skill: Skill)
    ensures var reasons := Adjustments(evidence, skill);
            && (DefaultBoost in reasons <==> evidence > 0 && skill.tier == ActiveDefault)
            && (SpecialistBoost in reasons <==> evidence > 0 && skill.tier == Specialist)
            && (ScriptCaution in reasons <==> evidence > 0 && skill.hasScripts)
            && Qualified !in reasons && Named !in reasons
  {
  }

  /** Besides, they name the qualified id, the name in the prompt and, of a skill with
      positive evidence, what its tier and its scripts add and take. */
  lemma OtherReasonsSay(p: Prepared, prompt: Prompt, language: Language, qualified: bool)
    ensures var reasons, bare := Scored(p, prompt, language, qualified).reasons, Score(Bare(p), prompt, language, qualified);
            && (Qualified in reasons <==> qualified)
            && (Named in reasons <==> Alone(prompt.normalized, p.normalizedName, language.word))
            && (DefaultBoost in reasons <==> bare > 0 && p.skill.tier == ActiveDefault)
            && (SpecialistBoost in reasons <==> bare > 0 && p.skill.tier == Specialist)
            && (ScriptCaution in reasons <==> bare > 0 && p.skill.hasScripts)
  {
    MentionsNamed(p, prompt, language, qualified);
    PolicyReasonsMatch(p, prompt, language);
    BoostsSay(Evidence(p, prompt, language, qualified), p.skill);
    assert Score(Bare(p), prompt, language, qualified) == Evidence(p, prompt, language, qualified);
  }

  // ---- candidates, exclusions, order ----

  /** A candidate is a skill that may route, is named if its tier asks for that, and
      scores at least 5; it carries the fields of the skill. */
  lemma CandidateIff(p: Prepared, prompt: Prompt, language: Language)
    ensures Passes(p, prompt, language) <==>
              && p.skill.tier != Blocked && p.skill.tier != Archived && p.skill.routeEligible
              && (p.skill.tier == ExplicitOnly ==> Alone(prompt.normalized, p.normalizedName, language.word))
              && Score(p, prompt, language, false) >= 5
    ensures var c := Scored(p, prompt, language, false);
            && c.skillId == p.skill.skillId && c.name == p.skill.name && c.tier == p.skill.tier
            && c.family == p.skill.family && c.path == p.skill.path
  {
    IncludesIff(prompt.normalized, p.normalizedName, language.word);
  }

  /** A skill that is passed over is logged for the first reason that applies. */
  lemma ExclusionSays(p: Prepared, prompt: Prompt, language: Language)
    ensures ScanLog([p], prompt, language) ==
              if p.skill.tier in {Blocked, Archived} then [Exclusion(p.skill.skillId, p.skill.name, TierIs(p.skill.tier))]
              else if !p.skill.routeEligible then [Exclusion(p.skill.skillId, p.skill.name, VariantIs(p.skill.variantState))]
              else if p.skill.tier == ExplicitOnly && !Alone(prompt.normalized, p.normalizedName, language.word)
              then [Exclusion(p.skill.skillId, p.skill.name, NotNamed)] else []
  {
    IncludesIff(prompt.normalized, p.normalizedName, language.word);
    assert [p][..0] == [];
  }

  /** Recommendations come by descending score, then by name and by id; there are at most `max`. */
  lemma RecommendedInOrder(skills: seq<Prepared>, prompt: Prompt, language: Language, max: nat)
    ensures var r := Recommended(skills, prompt, language, max);
            && |r| <= max
            && forall i, j :: 0 <= i < j < |r| ==>
                 || r[i].score > r[j].score
                 || (r[i].score == r[j].score && language.collate(r[i].name) < language.collate(r[j].name))
                 || (r[i].score == r[j].score && language.collate(r[i].name) == language.collate(r[j].name)
                     && language.collate(r[i].skillId) <= language.collate(r[j].skillId))
  {
    var passing := Passing(skills, prompt, language);
    RankerTheorems.SortIsStable(Survivors(Candidates(passing, prompt, language), Claims(passing, |passing|)), language);
  }

  /** At most the first twelve exclusions are reported. */
  lemma TwelveReported(skills: seq<Prepared>, prompt: Prompt, language: Language, max: nat)
    ensures var log, reported := FullLog(skills, prompt, language), Ranked(skills, prompt, language, max).exclusions;
            reported == if |log| <= 12 then log else log[..12]
  {
  }

  /** A limit is accepted exactly if it is finite and its integral part lies between 1 and 10. */
  lemma LimitIff(limit: Limit, n: nat)
    ensures NormalizeLimit(limit) == Ok(n) <==> limit.Finite? && 1 <= n <= 10 && n as real <= limit.value < n as real + 1.0
  {
  }

  /** A qualified id recommends its first skill alone, if that may be used at all. */
  lemma QualifiedSays(skills: seq<Prepared>, prompt: Prompt, limit: Limit, id: Text, language: Language, k: nat)
    requires NormalizeLimit(limit).Ok? && id != [] && k < |skills|
    requires skills[k].skill.skillId == id && forall i :: 0 <= i < k ==> skills[i].skill.skillId != id
    ensures var r, s := RankSpec(skills, prompt, limit, Some(id), language), skills[k].skill;
            && r.Ok?
            && (s.tier !in {Blocked, Archived} && s.qualifiedExplicitAllowed ==>
                  r.value.recommendations == [Scored(skills[k], prompt, language, true)] && r.value.exclusions == [])
            && (s.tier in {Blocked, Archived} ==>
                  r.value.recommendations == [] && r.value.exclusions == [Exclusion(id, s.name, TierIs(s.tier))])
            && (s.tier !in {Blocked, Archived} && !s.qualifiedExplicitAllowed ==>
                  r.value.recommendations == [] && r.value.exclusions == [Exclusion(id, s.name, QualifiedRefused)])
  {
    FirstIs(skills, id, k);
  }

  lemma {:induction false} FirstIs(skills: seq<Prepared>, id: Text, k: nat)
    requires k < |skills| && skills[k].skill.skillId == id && forall i :: 0 <= i < k ==> skills[i].skill.skillId != id
    ensures FirstWithId(skills, id) == Some(skills[k])
  {
    if k > 0 { FirstIs(skills[1..], id, k - 1); }
  }
}
