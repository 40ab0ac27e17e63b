/** The ranker as it runs: a running score, a name index, two bounded logs and a
    bounded insertion. */
module Ranker {
  import opened Common
  import opened Sequences
  import opened Utf16
  import opened PhraseSearch
  import opened RankerModel

  // ---- score ----

  lemma HitsGrow(tokens: seq<Text>, i: nat, prompt: Prompt, kind: Kind)
    requires i < |tokens|
    ensures var hits := TokenHits(tokens[..i], prompt);
            var more := TokenHits(tokens[..i + 1], prompt);
            && more == hits + (if tokens[i] in prompt.tokens then [tokens[i]] else [])
            && Tagged(kind, more) == Tagged(kind, hits) + if tokens[i] in prompt.tokens then [Matched(kind, tokens[i])] else []
  {
    assert tokens[..i + 1] == tokens[..i] + [tokens[i]];
    FilterAppend(tokens[..i], [tokens[i]], (t: Text) => t in prompt.tokens);
  }

  method AddTokens(tokens: seq<Text>, prompt: Prompt, amount: int, kind: Kind, start: int, reasons0: seq<Reason>)
    returns (score: int, reasons: seq<Reason>)
    ensures score == start + amount * |TokenHits(tokens, prompt)|
    ensures reasons == reasons0 + Tagged(kind, TokenHits(tokens, prompt))
  {
    score, reasons := start, reasons0;
    for i := 0 to |tokens|
      invariant score == start + amount * |TokenHits(tokens[..i], prompt)|
      invariant reasons == reasons0 + Tagged(kind, TokenHits(tokens[..i], prompt))
    {
      HitsGrow(tokens, i, prompt, kind);
      ghost var hits := |TokenHits(tokens[..i], prompt)|;
      assert amount * (hits + 1) == amount * hits + amount;
      if tokens[i] in prompt.tokens {
        score, reasons := score + amount, reasons + [Matched(kind, tokens[i])];
      }
    }
    assert tokens[..|tokens|] == tokens;
  }

  /** `preparedPhraseMatches`. */
  method MatchPhrase(phrase: Phrase, prompt: Prompt, language: Language, allowWeak: bool) returns (matches: bool)
    ensures matches == PhraseMatches(phrase, prompt, language, allowWeak)
  {
    if phrase.weakSingleTerm && !allowWeak { return false; }
    var included := BoundedPhraseIncludes(prompt.normalized, phrase.normalized, language.word);
    if included { return true; }
    return |phrase.parts| > 0 && forall part :: part in phrase.parts ==> part in prompt.tokens;
  }

  lemma PhraseHitsGrow(phrases: seq<Phrase>, i: nat, prompt: Prompt, language: Language, allowWeak: bool, kind: Kind)
    requires i < |phrases|
    ensures var hits := PhraseHits(phrases[..i], prompt, language, allowWeak);
            var more := PhraseHits(phrases[..i + 1], prompt, language, allowWeak);
            var hit := PhraseMatches(phrases[i], prompt, language, allowWeak);
            && more == hits + (if hit then [phrases[i].value] else [])
            && Tagged(kind, more) == Tagged(kind, hits) + if hit then [Matched(kind, phrases[i].value)] else []
  {
    assert phrases[..i + 1] == phrases[..i] + [phrases[i]];
    PhraseHitsAppend(phrases[..i], [phrases[i]], prompt, language, allowWeak);
    assert [phrases[i]][1..] == [];
  }

  lemma {:induction false} PhraseHitsAppend(a: seq<Phrase>, b: seq<Phrase>, prompt: Prompt, language: Language, allowWeak: bool)
    ensures PhraseHits(a + b, prompt, language, allowWeak)
            == PhraseHits(a, prompt, language, allowWeak) + PhraseHits(b, prompt, language, allowWeak)
  {
    if a == [] {
      assert a + b == b;
    } else {
      assert (a + b)[1..] == a[1..] + b;
      PhraseHitsAppend(a[1..], b, prompt, language, allowWeak);
    }
  }

  method AddPhrases(phrases: seq<Phrase>, prompt: Prompt, language: Language, allowWeak: bool, amount: int, kind: Kind,
                    start: int, reasons0: seq<Reason>)
    returns (score: int, reasons: seq<Reason>)
    ensures score == start + amount * |PhraseHits(phrases, prompt, language, allowWeak)|
    ensures reasons == reasons0 + Tagged(kind, PhraseHits(phrases, prompt, language, allowWeak))
  {
    score, reasons := start, reasons0;
    for i := 0 to |phrases|
      invariant score == start + amount * |PhraseHits(phrases[..i], prompt, language, allowWeak)|
      invariant reasons == reasons0 + Tagged(kind, PhraseHits(phrases[..i], prompt, language, allowWeak))
    {
      PhraseHitsGrow(phrases, i, prompt, language, allowWeak, kind);
      ghost var hits := |PhraseHits(phrases[..i], prompt, language, allowWeak)|;
      assert amount * (hits + 1) == amount * hits + amount;
      var matches := MatchPhrase(phrases[i], prompt, language, allowWeak);
      if matches {
        score, reasons := score + amount, reasons + [Matched(kind, phrases[i].value)];
      }
    }
    assert phrases[..|phrases|] == phrases;
  }

  /** The tier boosts and the script caution, as they are applied in turn. */
  method Adjust(evidence: int, reasons0: seq<Reason>, skill: Skill) returns (score: int, reasons: seq<Reason>)
    ensures score == Adjusted(evidence, skill) && reasons == reasons0 + Adjustments(evidence, skill)
  {
    score, reasons := evidence, reasons0;
    if score > 0 && skill.tier.ActiveDefault? { score, reasons := score + 5, reasons + [DefaultBoost]; }
    if score > 0 && skill.tier.Specialist? { score, reasons := score + 1, reasons + [SpecialistBoost]; }
    if score > 0 && skill.hasScripts { score, reasons := score - 1, reasons + [ScriptCaution]; }
  }

  method ScoreMentions(p: Prepared, prompt: Prompt, language: Language, qualified: bool) returns (score: int, reasons: seq<Reason>)
    ensures score == MentionScore(p, prompt, language, qualified)
    ensures reasons == MentionReasons(p, prompt, language, qualified)
  {
    score, reasons := 0, [];
    if qualified { score, reasons := 100, [Qualified]; }
    var named := BoundedPhraseIncludes(prompt.normalized, p.normalizedName, language.word);
    if named { score, reasons := score + 10, reasons + [Named]; }
    assert reasons == (if qualified then [Qualified] else []) + if named then [Named] else [];
    score, reasons := AddTokens(p.nameTokens, prompt, 2, NameToken, score, reasons);
    score, reasons := AddTokens(p.descriptionTokens, prompt, 1, DescriptionToken, score, reasons);
  }

  method ScorePolicy(p: Prepared, prompt: Prompt, language: Language, start: int, reasons0: seq<Reason>)
    returns (score: int, reasons: seq<Reason>)
    ensures score == start + PolicyScore(p, prompt, language)
    ensures reasons == reasons0 + PolicyReasons(p, prompt, language)
  {
    score, reasons := AddPhrases(p.aliases, prompt, language, false, 5, Alias, start, reasons0);
    ghost var tags := Tagged(Alias, PhraseHits(p.aliases, prompt, language, false));
    score, reasons := AddPhrases(p.preferredFor, prompt, language, false, 6, PreferredFor, score, reasons);
    ghost var preferred := Tagged(PreferredFor, PhraseHits(p.preferredFor, prompt, language, false));
    Associate(reasons0, tags, preferred);
    score, reasons := AddPhrases(p.avoidFor, prompt, language, true, -8, AvoidFor, score, reasons);
    ghost var avoided := Tagged(AvoidFor, PhraseHits(p.avoidFor, prompt, language, true));
    Associate(reasons0, tags + preferred, avoided);
    Associate(reasons0, tags + preferred + avoided, if FamilyHit(p, prompt) then [Matched(Family, p.skill.family.value)] else []);
    if FamilyHit(p, prompt) { score, reasons := score + 4, reasons + [Matched(Family, p.skill.family.value)]; }
  }

  /** `scorePreparedSkill`. */
  method ScorePrepared(p: Prepared, prompt: Prompt, language: Language, qualified: bool) returns (c: Candidate)
    ensures c == Scored(p, prompt, language, qualified)
  {
    var score, reasons := ScoreMentions(p, prompt, language, qualified);
    score, reasons := ScorePolicy(p, prompt, language, score, reasons);
    score, reasons := Adjust(score, reasons, p.skill);
    c := Candidate(p.skill.skillId, p.skill.name, score, p.skill.tier, p.skill.family, p.skill.path, reasons);
  }

  // ---- logs ----

  /** The two bounded exclusion lists; `all` is everything ever added. */
  class ExclusionLog {
    var shown: seq<Exclusion>
    var hook: seq<Exclusion>
    ghost var all: seq<Exclusion>

    ghost predicate Valid()
      reads this
    {
      shown == Take(all, 12) && hook == Take(SupersededOnly(all), 2)
    }

    constructor ()
      ensures Valid() && all == []
    {
      shown, hook, all := [], [], [];
    }

    method Add(e: Exclusion)
      requires Valid()
      modifies this
      ensures Valid() && all == old(all) + [e]
    {
      FilterAppend(all, [e], (x: Exclusion) => x.why.SupersededBy?);
      assert SupersededOnly(all + [e]) == SupersededOnly(all) + if e.why.SupersededBy? then [e] else [] by {
        SupersededAppend(all, [e]);
      }
      if e.why.SupersededBy? && |hook| < 2 { hook := hook + [e]; }
      if |shown| < 12 { shown := shown + [e]; }
      all := all + [e];
    }
  }

  lemma {:induction false} SupersededAppend(a: seq<Exclusion>, b: seq<Exclusion>)
    ensures SupersededOnly(a + b) == SupersededOnly(a) + SupersededOnly(b)
  {
    if a == [] {
      assert a + b == b;
    } else {
      assert (a + b)[1..] == a[1..] + b;
      SupersededAppend(a[1..], b);
    }
  }

  /** The two entries kept for the hook text are all it uses of the complete log. */
  lemma HookNeedsTwo(recommendations: seq<Candidate>, log: seq<Exclusion>, language: Language)
    ensures HookText(recommendations, Take(SupersededOnly(log), 2), language) == HookText(recommendations, log, language)
  {
    var two := Take(SupersededOnly(log), 2);
    AllSuperseded(log);
    AlreadySuperseded(two);
  }

  lemma {:induction false} AllSuperseded(log: seq<Exclusion>)
    ensures forall e :: e in SupersededOnly(log) ==> e.why.SupersededBy?
  {
    if log != [] { AllSuperseded(log[1..]); }
  }

  lemma {:induction false} AlreadySuperseded(log: seq<Exclusion>)
    requires forall i :: 0 <= i < |log| ==> log[i].why.SupersededBy?
    ensures SupersededOnly(log) == log
  {
    if log != [] { AlreadySuperseded(log[1..]); }
  }

  // ---- selection ----

  lemma {:induction false} PlaceInPrefix(c: Candidate, s: seq<Candidate>, language: Language, m: nat)
    ensures Place(c, Take(s, m), language) == if Place(c, s, language) <= m then Place(c, s, language) else |Take(s, m)|
    decreases |s|
  {
    if s != [] && m > 0 {
      PlaceInPrefix(c, s[1..], language, m - 1);
      assert Take(s, m)[1..] == Take(s[1..], m - 1);
    }
  }

  /** Inserting into the best `m` gives the best `m` of the whole. */
  lemma InsertKeepsBest(c: Candidate, s: seq<Candidate>, language: Language, m: nat)
    ensures Take(Insert(c, Take(s, m), language), m) == Take(Insert(c, s, language), m)
    ensures Place(c, Take(s, m), language) >= m ==> Take(Insert(c, s, language), m) == Take(s, m)
  {
    PlaceInPrefix(c, s, language, m);
  }

  lemma {:induction false} PlaceIs(c: Candidate, s: seq<Candidate>, language: Language, i: nat)
    requires i <= |s| && (forall k :: 0 <= k < i ==> Compare(s[k], c, language) <= 0)
    requires i < |s| ==> Compare(s[i], c, language) > 0
    ensures Place(c, s, language) == i
  {
    if i > 0 { PlaceIs(c, s[1..], language, i - 1); }
  }

  /** What one turn of the selection must do. */
  lemma SelectStep(values: seq<Candidate>, n: nat, selected: seq<Candidate>, language: Language, m: nat)
    requires n < |values| && selected == Take(Sorted(values[..n], language), m)
    ensures Take(Sorted(values[..n + 1], language), m) ==
              var i := Place(values[n], selected, language);
              if i >= m then selected else Take(selected[..i] + [values[n]] + selected[i..], m)
  {
    assert values[..n + 1][..n] == values[..n];
    InsertKeepsBest(values[n], Sorted(values[..n], language), language, m);
  }

  method FindPlace(candidate: Candidate, selected: seq<Candidate>, language: Language) returns (insertAt: nat)
    ensures insertAt == Place(candidate, selected, language)
  {
    insertAt := 0;
    while insertAt < |selected| && Compare(selected[insertAt], candidate, language) <= 0
      invariant insertAt <= |selected|
      invariant forall k :: 0 <= k < insertAt ==> Compare(selected[k], candidate, language) <= 0
    {
      insertAt := insertAt + 1;
    }
    PlaceIs(candidate, selected, language, insertAt);
  }

  /** `selectTopRouteCandidates`. */
  method SelectTop(values: seq<Candidate>, maximum: nat, language: Language) returns (selected: seq<Candidate>)
    ensures selected == Take(Sorted(values, language), maximum)
  {
    selected := [];
    for n := 0 to |values|
      invariant selected == Take(Sorted(values[..n], language), maximum)
    {
      var candidate := values[n];
      SelectStep(values, n, selected, language, maximum);
      var insertAt := FindPlace(candidate, selected, language);
      if insertAt < maximum {
        selected := selected[..insertAt] + [candidate] + selected[insertAt..];
        if |selected| > maximum { selected := selected[..|selected| - 1]; }
      }
    }
    assert values[..|values|] == values;
  }
}
