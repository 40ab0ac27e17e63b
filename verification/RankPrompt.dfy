/** The ranking loop: scan, supersede, select and render. */
module RankPrompt {
  import opened Common
  import opened Sequences
  import opened Utf16
  import opened PhraseSearch
  import opened RankerModel
  import opened Ranker

  // ---- scan ----

  ghost function PassingUpTo(skills: seq<Prepared>, i: nat, prompt: Prompt, language: Language): seq<Prepared>
    requires i <= |skills|
  {
    Passing(skills[..i], prompt, language)
  }

  lemma {:induction false} PassingAppend(a: seq<Prepared>, b: seq<Prepared>, prompt: Prompt, language: Language)
    ensures Passing(a + b, prompt, language) == Passing(a, prompt, language) + Passing(b, prompt, language)
  {
    if a == [] {
      assert a + b == b;
    } else {
      assert (a + b)[1..] == a[1..] + b;
      PassingAppend(a[1..], b, prompt, language);
    }
  }

  lemma PassingGrows(skills: seq<Prepared>, i: nat, prompt: Prompt, language: Language)
    requires i < |skills|
    ensures PassingUpTo(skills, i + 1, prompt, language)
            == PassingUpTo(skills, i, prompt, language) + if Passes(skills[i], prompt, language) then [skills[i]] else []
  {
    assert skills[..i + 1] == skills[..i] + [skills[i]];
    assert [skills[i]][1..] == [] && Passing([skills[i]][1..], prompt, language) == [];
    PassingAppend(skills[..i], [skills[i]], prompt, language);
  }

  lemma {:induction false} BearingAppend(a: seq<Candidate>, b: seq<Candidate>, name: Text)
    ensures Bearing(a + b, name) == Bearing(a, name) + Bearing(b, name)
  {
    if a == [] {
      assert a + b == b;
    } else {
      assert (a + b)[1..] == a[1..] + b;
      BearingAppend(a[1..], b, name);
    }
  }

  lemma BearingOne(cs: seq<Candidate>, c: Candidate, name: Text)
    ensures Bearing(cs + [c], name) == Bearing(cs, name) + if c.name == name then [c] else []
  {
    assert [c][1..] == [] && Bearing([c][1..], name) == [];
    BearingAppend(cs, [c], name);
  }

  /** `candidatesByName` holds the bearers of every superseded name. */
  ghost predicate Indexed(byName: map<Text, seq<Candidate>>, wanted: set<Text>, cs: seq<Candidate>) {
    forall name :: (name in byName <==> name in wanted && Bearing(cs, name) != []) && (name in byName ==> byName[name] == Bearing(cs, name))
  }

  ghost predicate Listed(byId: map<Text, seq<Text>>, passing: seq<Prepared>) {
    forall id :: SupersedesOf(passing, id) == if id in byId then byId[id] else []
  }

  lemma IndexGrows(byName: map<Text, seq<Candidate>>, wanted: set<Text>, cs: seq<Candidate>, c: Candidate)
    requires Indexed(byName, wanted, cs)
    ensures c.name !in wanted ==> Indexed(byName, wanted, cs + [c])
    ensures c.name in wanted ==>
              Indexed(byName[c.name := (if c.name in byName then byName[c.name] else []) + [c]], wanted, cs + [c])
  {
    forall name ensures Bearing(cs + [c], name) == Bearing(cs, name) + if c.name == name then [c] else [] {
      BearingOne(cs, c, name);
    }
  }

  lemma ListGrows(byId: map<Text, seq<Text>>, passing: seq<Prepared>, p: Prepared)
    requires Listed(byId, passing)
    ensures Listed(if p.skill.supersedes == [] then byId else byId[p.skill.skillId := p.skill.supersedes], passing + [p])
  {
    assert (passing + [p])[..|passing|] == passing;
  }

  /** A candidate enters the two indexes. */
  method Index(p: Prepared, scored: Candidate, byName0: map<Text, seq<Candidate>>, byId0: map<Text, seq<Text>>, wanted: set<Text>,
               ghost candidates: seq<Candidate>, ghost passing: seq<Prepared>)
    returns (byName: map<Text, seq<Candidate>>, byId: map<Text, seq<Text>>)
    requires Indexed(byName0, wanted, candidates) && Listed(byId0, passing) && scored.skillId == p.skill.skillId
    ensures Indexed(byName, wanted, candidates + [scored]) && Listed(byId, passing + [p])
  {
    byName, byId := byName0, byId0;
    IndexGrows(byName, wanted, candidates, scored);
    ListGrows(byId, passing, p);
    if scored.name in wanted {
      byName := byName[scored.name := (if scored.name in byName then byName[scored.name] else []) + [scored]];
    }
    if |p.skill.supersedes| > 0 { byId := byId[scored.skillId := p.skill.supersedes]; }
  }

  lemma CandidatesGrow(passing: seq<Prepared>, p: Prepared, prompt: Prompt, language: Language)
    ensures Candidates(passing + [p], prompt, language)
            == Candidates(passing, prompt, language) + [Scored(p, prompt, language, false)]
  {
  }

  lemma ScanLogGrows(skills: seq<Prepared>, i: nat, prompt: Prompt, language: Language)
    requires i < |skills|
    ensures ScanLog(skills[..i + 1], prompt, language) == ScanLog(skills[..i], prompt, language)
              + match PassedOver(skills[i], prompt, language)
                case None => []
                case Some(why) => [Exclusion(skills[i].skill.skillId, skills[i].skill.name, why)]
  {
    assert skills[..i + 1][..i] == skills[..i];
  }

  /** The first loop. */
  method Scan(skills: seq<Prepared>, prompt: Prompt, language: Language, wanted: set<Text>, log: ExclusionLog)
    returns (candidates: seq<Candidate>, byName: map<Text, seq<Candidate>>, byId: map<Text, seq<Text>>)
    requires log.Valid() && log.all == []
    modifies log
    ensures log.Valid() && log.all == ScanLog(skills, prompt, language)
    ensures candidates == Candidates(Passing(skills, prompt, language), prompt, language)
    ensures Indexed(byName, wanted, candidates)
    ensures Listed(byId, Passing(skills, prompt, language))
  {
    candidates, byName, byId := [], map[], map[];
    ghost var passing: seq<Prepared> := [];
    for i := 0 to |skills|
      invariant log.Valid() && log.all == ScanLog(skills[..i], prompt, language)
      invariant passing == PassingUpTo(skills, i, prompt, language)
      invariant candidates == Candidates(passing, prompt, language)
      invariant Indexed(byName, wanted, candidates)
      invariant Listed(byId, passing)
    {
      var p := skills[i];
      PassingGrows(skills, i, prompt, language);
      ScanLogGrows(skills, i, prompt, language);
      var why := PassOver(p, prompt, language);
      if why.Some? {
        log.Add(Exclusion(p.skill.skillId, p.skill.name, why.value));
        continue;
      }
      var scored := ScorePrepared(p, prompt, language, false);
      if scored.score >= 5 {
        byName, byId := Index(p, scored, byName, byId, wanted, candidates, passing);
        CandidatesGrow(passing, p, prompt, language);
        candidates, passing := candidates + [scored], passing + [p];
      }
    }
    assert skills[..|skills|] == skills;
  }

  /** The three checks that pass a skill over. */
  method PassOver(p: Prepared, prompt: Prompt, language: Language) returns (why: Option<Why>)
    ensures why == PassedOver(p, prompt, language)
  {
    if p.skill.tier.Blocked? || p.skill.tier.Archived? { return Some(TierIs(p.skill.tier)); }
    if !p.skill.routeEligible { return Some(VariantIs(p.skill.variantState)); }
    if p.skill.tier.ExplicitOnly? {
      var named := BoundedPhraseIncludes(prompt.normalized, p.normalizedName, language.word);
      if !named { return Some(NotNamed); }
    }
    return None;
  }

  // ---- supersession ----

  /** The index while claims are being processed: claimed names are gone from it. */
  ghost predicate Remaining(byName: map<Text, seq<Candidate>>, wanted: set<Text>, cs: seq<Candidate>, claims: seq<Claim>) {
    forall name ::
      && (name in byName <==> name in wanted && Bearing(cs, name) != [] && !Claimed(claims, name))
      && (name in byName ==> byName[name] == Bearing(cs, name))
  }

  ghost predicate Gone(removed: set<Text>, cs: seq<Candidate>, claims: seq<Claim>) {
    forall id :: id in removed <==> Removed(cs, claims, id)
  }

  predicate HasId(cs: seq<Candidate>, id: Text) { exists i :: 0 <= i < |cs| && cs[i].skillId == id }

  lemma ClaimedOne(claims: seq<Claim>, claim: Claim, name: Text)
    ensures Claimed(claims + [claim], name) <==> Claimed(claims, name) || claim.name == name
  {
    var more := claims + [claim];
    if Claimed(claims, name) {
      var i :| 0 <= i < |claims| && claims[i].name == name;
      assert more[i].name == name;
    }
    if claim.name == name { assert more[|claims|].name == name; }
  }

  lemma BearsId(cs: seq<Candidate>, name: Text, id: Text)
    ensures HasId(Bearing(cs, name), id) <==> exists i :: 0 <= i < |cs| && cs[i].skillId == id && cs[i].name == name
  {
    forall c ensures c in Bearing(cs, name) <==> c in cs && c.name == name { BearingHas(cs, name, c); }
    if HasId(Bearing(cs, name), id) {
      var k :| 0 <= k < |Bearing(cs, name)| && Bearing(cs, name)[k].skillId == id;
      assert Bearing(cs, name)[k] in cs;
    }
    if i :| 0 <= i < |cs| && cs[i].skillId == id && cs[i].name == name {
      assert cs[i] in Bearing(cs, name);
    }
  }

  lemma {:induction false} BearingHas(cs: seq<Candidate>, name: Text, c: Candidate)
    ensures c in Bearing(cs, name) <==> c in cs && c.name == name
  {
    if cs != [] { BearingHas(cs[1..], name, c); }
  }

  /** One more claim removes the bearers of its name. */
  lemma RemovedOne(cs: seq<Candidate>, claims: seq<Claim>, claim: Claim, id: Text)
    ensures Removed(cs, claims + [claim], id) <==> Removed(cs, claims, id) || HasId(Bearing(cs, claim.name), id)
  {
    BearsId(cs, claim.name, id);
    forall name ensures Claimed(claims + [claim], name) <==> Claimed(claims, name) || claim.name == name {
      ClaimedOne(claims, claim, name);
    }
  }

  /** A claim on a name that is claimed already, or that nobody bears. */
  lemma IdleClaim(cs: seq<Candidate>, claims: seq<Claim>, claim: Claim, byName: map<Text, seq<Candidate>>, wanted: set<Text>, removed: set<Text>)
    requires Remaining(byName, wanted, cs, claims) && Gone(removed, cs, claims)
    requires claim.name in wanted && claim.name !in byName
    ensures Remaining(byName, wanted, cs, claims + [claim]) && Gone(removed, cs, claims + [claim])
    ensures SupersessionLog(cs, claims + [claim]) == SupersessionLog(cs, claims)
  {
    assert (claims + [claim])[..|claims|] == claims;
    forall name ensures Claimed(claims + [claim], name) <==> Claimed(claims, name) || claim.name == name {
      ClaimedOne(claims, claim, name);
    }
    forall id ensures Removed(cs, claims + [claim], id) <==> Removed(cs, claims, id) {
      RemovedOne(cs, claims, claim, id);
      BearsId(cs, claim.name, id);
    }
  }

  lemma BusyClaim(cs: seq<Candidate>, claims: seq<Claim>, claim: Claim, byName: map<Text, seq<Candidate>>, wanted: set<Text>,
                  removed: set<Text>, removed': set<Text>)
    requires Remaining(byName, wanted, cs, claims) && Gone(removed, cs, claims) && claim.name in byName
    requires forall id :: id in removed' <==> id in removed || HasId(Bearing(cs, claim.name), id)
    ensures Remaining(byName - {claim.name}, wanted, cs, claims + [claim]) && Gone(removed', cs, claims + [claim])
    ensures SupersessionLog(cs, claims + [claim])
            == SupersessionLog(cs, claims) + ClaimLog(Bearing(cs, claim.name), claim.winner, cs, claims)
  {
    assert (claims + [claim])[..|claims|] == claims;
    forall name ensures Claimed(claims + [claim], name) <==> Claimed(claims, name) || claim.name == name {
      ClaimedOne(claims, claim, name);
    }
    forall id ensures Removed(cs, claims + [claim], id) <==> id in removed' {
      RemovedOne(cs, claims, claim, id);
    }
  }

  /** The innermost loop: log and remove the bearers of one name. */
  method RemoveTargets(targets: seq<Candidate>, winner: Text, removed0: set<Text>, log: ExclusionLog,
                       ghost cs: seq<Candidate>, ghost claims: seq<Claim>)
    returns (removed: set<Text>)
    requires log.Valid() && Gone(removed0, cs, claims)
    modifies log
    ensures log.Valid() && log.all == old(log.all) + ClaimLog(targets, winner, cs, claims)
    ensures forall id :: id in removed <==> id in removed0 || HasId(targets, id)
  {
    removed := removed0;
    for t := 0 to |targets|
      invariant log.Valid() && log.all == old(log.all) + ClaimLog(targets[..t], winner, cs, claims)
      invariant forall id :: id in removed <==> id in removed0 || HasId(targets[..t], id)
    {
      var target := targets[t];
      assert targets[..t + 1][..t] == targets[..t];
      forall id ensures HasId(targets[..t + 1], id) <==> HasId(targets[..t], id) || target.skillId == id {
        HasIdOne(targets, t, id);
      }
      if target.skillId !in removed {
        removed := removed + {target.skillId};
        log.Add(Exclusion(target.skillId, target.name, SupersededBy(winner)));
      }
    }
    assert targets[..|targets|] == targets;
  }

  lemma HasIdOne(targets: seq<Candidate>, t: nat, id: Text)
    requires t < |targets|
    ensures HasId(targets[..t + 1], id) <==> HasId(targets[..t], id) || targets[t].skillId == id
  {
    var less, more := targets[..t], targets[..t + 1];
    if HasId(less, id) {
      var i :| 0 <= i < |less| && less[i].skillId == id;
      assert more[i].skillId == id;
    }
    if targets[t].skillId == id { assert more[t].skillId == id; }
  }

  lemma {:induction false} SupersedesWanted(passing: seq<Prepared>, id: Text, wanted: set<Text>)
    requires forall p :: p in passing ==> forall n :: n in p.skill.supersedes ==> n in wanted
    ensures forall n :: n in SupersedesOf(passing, id) ==> n in wanted
  {
    if passing != [] { SupersedesWanted(passing[..|passing| - 1], id, wanted); }
  }

  lemma ClaimsExtend(winner: Text, names: seq<Text>, j: nat)
    requires j < |names|
    ensures ClaimsOf(winner, names[..j + 1]) == ClaimsOf(winner, names[..j]) + [Claim(winner, names[j])]
  {
  }

  ghost predicate Wants(wanted: set<Text>, passing: seq<Prepared>) {
    forall p :: p in passing ==> forall n :: n in p.skill.supersedes ==> n in wanted
  }

  /** The two outer loops of the supersession. */
  method Supersede(candidates: seq<Candidate>, byName0: map<Text, seq<Candidate>>, byId: map<Text, seq<Text>>, log: ExclusionLog,
                   ghost passing: seq<Prepared>, ghost wanted: set<Text>)
    returns (removed: set<Text>)
    requires log.Valid() && |candidates| == |passing|
    requires forall i :: 0 <= i < |passing| ==> candidates[i].skillId == passing[i].skill.skillId && candidates[i].name == passing[i].skill.name
    requires Indexed(byName0, wanted, candidates) && Listed(byId, passing) && Wants(wanted, passing)
    modifies log
    ensures log.Valid() && log.all == old(log.all) + SupersessionLog(candidates, Claims(passing, |passing|))
    ensures Gone(removed, candidates, Claims(passing, |passing|))
  {
    removed := {};
    var byName := byName0;
    ghost var claims: seq<Claim> := [];
    for k := 0 to |candidates|
      invariant log.Valid() && claims == Claims(passing, k)
      invariant log.all == old(log.all) + SupersessionLog(candidates, claims)
      invariant Remaining(byName, wanted, candidates, claims) && Gone(removed, candidates, claims)
    {
      var candidate := candidates[k];
      var names := if candidate.skillId in byId then byId[candidate.skillId] else [];
      assert names == SupersedesOf(passing, candidate.skillId);
      SupersedesWanted(passing, candidate.skillId, wanted);
      for j := 0 to |names|
        invariant log.Valid() && claims == Claims(passing, k) + ClaimsOf(candidate.name, names[..j])
        invariant log.all == old(log.all) + SupersessionLog(candidates, claims)
        invariant Remaining(byName, wanted, candidates, claims) && Gone(removed, candidates, claims)
      {
        var name := names[j];
        ClaimsExtend(candidate.name, names, j);
        Associate(Claims(passing, k), ClaimsOf(candidate.name, names[..j]), [Claim(candidate.name, name)]);
        byName, removed := OneClaim(candidate.name, name, candidates, byName, removed, log, old(log.all), claims, wanted);
        claims := claims + [Claim(candidate.name, name)];
      }
      assert names[..|names|] == names;
    }
  }

  /** One claim: take its bearers out of the index and remove them. */
  method OneClaim(winner: Text, name: Text, candidates: seq<Candidate>, byName0: map<Text, seq<Candidate>>, removed0: set<Text>,
                  log: ExclusionLog, ghost base: seq<Exclusion>, ghost claims: seq<Claim>, ghost wanted: set<Text>)
    returns (byName: map<Text, seq<Candidate>>, removed: set<Text>)
    requires log.Valid() && name in wanted && log.all == base + SupersessionLog(candidates, claims)
    requires Remaining(byName0, wanted, candidates, claims) && Gone(removed0, candidates, claims)
    modifies log
    ensures log.Valid() && log.all == base + SupersessionLog(candidates, claims + [Claim(winner, name)])
    ensures Remaining(byName, wanted, candidates, claims + [Claim(winner, name)])
    ensures Gone(removed, candidates, claims + [Claim(winner, name)])
  {
    byName, removed := byName0, removed0;
    if name in byName {
      Associate(base, SupersessionLog(candidates, claims), ClaimLog(byName[name], winner, candidates, claims));
      removed := RemoveTargets(byName[name], winner, removed, log, candidates, claims);
      BusyClaim(candidates, claims, Claim(winner, name), byName, wanted, removed0, removed);
      byName := byName - {name};
    } else {
      IdleClaim(candidates, claims, Claim(winner, name), byName, wanted, removed);
    }
  }

  // ---- the whole ----

  lemma {:induction false} PassingMembers(skills: seq<Prepared>, prompt: Prompt, language: Language)
    ensures forall p :: p in Passing(skills, prompt, language) ==> p in skills && Passes(p, prompt, language)
  {
    if skills != [] { PassingMembers(skills[1..], prompt, language); }
  }

  /** `rankPreparedRoutePrompt`. */
  method RankPrepared(skills: seq<Prepared>, prompt: Prompt, limit: Limit, qualified: Option<Text>, language: Language)
    returns (r: Result<Ranking, RankError>)
    ensures r == RankSpec(skills, prompt, limit, qualified, language)
  {
    var normalized := NormalizeLimit(limit);
    if normalized.Err? { return Err(normalized.error); }
    var max := normalized.value;
    if qualified.Some? && qualified.value != [] {
      var found := FirstWithId(skills, qualified.value);
      if found.None? { return Err(UnknownQualifiedSkill); }
      var p := found.value;
      var exclusions := QualifiedLog(p.skill);
      var recommendations := [];
      if exclusions == [] {
        var scored := ScorePrepared(p, prompt, language, true);
        recommendations := Take([scored], max);
      }
      return Ok(Ranking(recommendations, exclusions, HookText(recommendations, exclusions, language)));
    }
    var ranking := RankUnqualified(skills, prompt, max, language);
    return Ok(ranking);
  }

  method RankUnqualified(skills: seq<Prepared>, prompt: Prompt, max: nat, language: Language) returns (ranking: Ranking)
    ensures ranking == Ranked(skills, prompt, language, max)
  {
    var wanted := set p, name | p in skills && name in p.skill.supersedes :: name;
    var log := new ExclusionLog();
    var candidates, byName, byId := Scan(skills, prompt, language, wanted, log);
    ghost var passing := Passing(skills, prompt, language);
    PassingMembers(skills, prompt, language);
    IndexIsWhole(byName, wanted, candidates);
    ghost var claims := Claims(passing, |passing|);
    var removed := Supersede(candidates, byName, byId, log, passing, wanted);
    var kept := KeepRemaining(candidates, removed, claims);
    var recommendations := SelectTop(kept, max, language);
    HookNeedsTwo(recommendations, log.all, language);
    ranking := Ranking(recommendations, log.shown, HookText(recommendations, log.hook, language));
  }

  lemma IndexIsWhole(byName: map<Text, seq<Candidate>>, wanted: set<Text>, cs: seq<Candidate>)
    requires Indexed(byName, wanted, cs)
    ensures Remaining(byName, wanted, cs, [])
  {
  }

  /** The filter of the candidates that are left. */
  method KeepRemaining(candidates: seq<Candidate>, removed: set<Text>, ghost claims: seq<Claim>) returns (kept: seq<Candidate>)
    requires Gone(removed, candidates, claims)
    ensures kept == Survivors(candidates, claims)
  {
    kept := [];
    for i := 0 to |candidates|
      invariant kept == Filter(candidates[..i], (c: Candidate) => c.skillId !in removed)
    {
      var c := candidates[i];
      assert candidates[..i + 1] == candidates[..i] + [c];
      FilterAppend(candidates[..i], [c], (c: Candidate) => c.skillId !in removed);
      assert [c][1..] == [];
      if c.skillId !in removed { kept := kept + [c]; }
    }
    assert candidates[..|candidates|] == candidates;
    FilterAgrees(candidates, (c: Candidate) => c.skillId !in removed, (c: Candidate) => !Removed(candidates, claims, c.skillId));
  }
}
