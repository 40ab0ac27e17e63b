/** What the ranking means: a stable sort, the same for every order of the skills,
    with every exclusion accounted for once. */
module RankerTheorems {
  import opened Common
  import opened Sequences
  import opened Utf16
  import opened RankerModel
  import opened RankPrompt

  // ---- the sort ----

  ghost predicate Ordered(t: seq<Candidate>, language: Language) {
    forall i, j :: 0 <= i < j < |t| ==> Compare(t[i], t[j], language) <= 0
  }

  /** The candidates that compare equal to `x`, in order. */
  function Ties(s: seq<Candidate>, x: Candidate, language: Language): seq<Candidate> {
    Filter(s, (c: Candidate) => Compare(c, x, language) == 0)
  }

  /** `t` is the stable sort of `s`. */
  ghost predicate StableSort(t: seq<Candidate>, s: seq<Candidate>, language: Language) {
    Ordered(t, language) && forall x :: Ties(t, x, language) == Ties(s, x, language)
  }

  lemma CompareOrders(a: Candidate, b: Candidate, c: Candidate, language: Language)
    ensures Compare(a, b, language) <= 0 <==> Compare(b, a, language) >= 0
    ensures Compare(a, b, language) == 0 <==> Compare(b, a, language) == 0
    ensures Compare(a, b, language) <= 0 && Compare(b, c, language) <= 0 ==> Compare(a, c, language) <= 0
    ensures Compare(a, b, language) < 0 && Compare(b, c, language) <= 0 ==> Compare(a, c, language) < 0
    ensures Compare(a, b, language) <= 0 && Compare(b, c, language) < 0 ==> Compare(a, c, language) < 0
  {
  }

  lemma {:induction false} PlaceSplits(c: Candidate, s: seq<Candidate>, language: Language)
    requires Ordered(s, language)
    ensures forall k :: 0 <= k < Place(c, s, language) ==> Compare(s[k], c, language) <= 0
    ensures forall k :: Place(c, s, language) <= k < |s| ==> Compare(c, s[k], language) < 0
  {
    if s != [] {
      if Compare(s[0], c, language) > 0 {
        forall k | 0 <= k < |s| ensures Compare(c, s[k], language) < 0 {
          CompareOrders(c, s[0], s[k], language);
          CompareOrders(s[0], c, s[k], language);
        }
      } else {
        PlaceSplits(c, s[1..], language);
      }
    }
  }

  lemma InsertOrders(c: Candidate, s: seq<Candidate>, language: Language)
    requires Ordered(s, language)
    ensures Ordered(Insert(c, s, language), language)
  {
    PlaceSplits(c, s, language);
    var t := Insert(c, s, language);
    var p := Place(c, s, language);
    forall i, j | 0 <= i < j < |t| ensures Compare(t[i], t[j], language) <= 0 {
      if i < p && j > p { CompareOrders(t[i], c, t[j], language); }
    }
  }

  lemma TiesPass(a: seq<Candidate>, c: Candidate, b: seq<Candidate>, x: Candidate, language: Language)
    requires Ties([c], x, language) == [] || Ties(b, x, language) == []
    ensures Ties(a + [c] + b, x, language) == Ties(a + b + [c], x, language)
  {
    TiesAppend(a + [c], b, x, language);
    TiesAppend(a, [c], x, language);
    TiesAppend(a + b, [c], x, language);
    TiesAppend(a, b, x, language);
  }

  /** A new candidate goes behind its ties. */
  lemma InsertTies(c: Candidate, s: seq<Candidate>, x: Candidate, language: Language)
    requires Ordered(s, language)
    ensures Ties(Insert(c, s, language), x, language) == Ties(s + [c], x, language)
  {
    var p := Place(c, s, language);
    PlaceSplits(c, s, language);
    if Compare(c, x, language) == 0 {
      forall k | p <= k < |s| ensures Compare(s[k], x, language) != 0 {
        CompareOrders(x, c, s[k], language);
        CompareOrders(s[k], x, s[k], language);
      }
      NoTies(s[p..], x, language);
    } else {
      NoTies([c], x, language);
    }
    TiesPass(s[..p], c, s[p..], x, language);
    assert s == s[..p] + s[p..];
  }

  lemma {:induction false} TiesAppend(a: seq<Candidate>, b: seq<Candidate>, x: Candidate, language: Language)
    ensures Ties(a + b, x, language) == Ties(a, x, language) + Ties(b, x, language)
  {
    if a == [] {
      assert a + b == b;
    } else {
      assert (a + b)[1..] == a[1..] + b;
      TiesAppend(a[1..], b, x, language);
    }
  }

  lemma {:induction false} NoTies(s: seq<Candidate>, x: Candidate, language: Language)
    requires forall k :: 0 <= k < |s| ==> Compare(s[k], x, language) != 0
    ensures Ties(s, x, language) == []
  {
    if s != [] { NoTies(s[1..], x, language); }
  }

  /** The insertion of the ranker is a stable sort. */
  lemma {:induction false} SortIsStable(s: seq<Candidate>, language: Language)
    ensures StableSort(Sorted(s, language), s, language)
  {
    if s != [] {
      var before, last := s[..|s| - 1], s[|s| - 1];
      SortIsStable(before, language);
      var sorted := Sorted(before, language);
      InsertOrders(last, sorted, language);
      assert s == before + [last];
      forall x ensures Ties(Sorted(s, language), x, language) == Ties(s, x, language) {
        InsertTies(last, sorted, x, language);
        TiesAppend(sorted, [last], x, language);
        TiesAppend(before, [last], x, language);
      }
    }
  }

  /** A list has one stable sort. */
  lemma {:induction false} OneStableSort(t: seq<Candidate>, u: seq<Candidate>, s: seq<Candidate>, language: Language)
    requires StableSort(t, s, language) && StableSort(u, s, language)
    ensures t == u
  {
    SameTies(t, u, language);
  }

  lemma BothEmpty(t: seq<Candidate>, u: seq<Candidate>, language: Language)
    requires t == [] && forall x :: Ties(t, x, language) == Ties(u, x, language)
    ensures u == []
  {
    if u != [] { OwnTie(u, language); }
  }

  lemma OwnTie(u: seq<Candidate>, language: Language)
    ensures u != [] ==> Ties(u, u[0], language) != []
  {
  }

  lemma {:induction false} SameTies(t: seq<Candidate>, u: seq<Candidate>, language: Language)
    requires Ordered(t, language) && Ordered(u, language)
    requires forall x :: Ties(t, x, language) == Ties(u, x, language)
    ensures t == u
    decreases |t| + |u|
  {
    if t == [] {
      BothEmpty(t, u, language);
    } else if u == [] {
      BothEmpty(u, t, language);
    } else {
      HeadsTie(t, u, language);
      HeadsTie(u, t, language);
      CompareOrders(t[0], u[0], t[0], language);
      assert Ties(t, t[0], language)[0] == t[0] && Ties(u, t[0], language)[0] == u[0];
      assert t[0] == u[0];
      assert t == [t[0]] + t[1..] && u == [t[0]] + u[1..];
      forall x ensures Ties(t[1..], x, language) == Ties(u[1..], x, language) {
        TiesAppend([t[0]], t[1..], x, language);
        TiesAppend([t[0]], u[1..], x, language);
        assert Ties(t, x, language) == Ties(u, x, language);
        Cancel(Ties([t[0]], x, language), Ties(t[1..], x, language), Ties(u[1..], x, language));
      }
      SameTies(t[1..], u[1..], language);
    }
  }

  /** The first of `u` does not come after the first of `t`. */
  lemma HeadsTie(t: seq<Candidate>, u: seq<Candidate>, language: Language)
    requires t != [] && u != [] && Ordered(u, language)
    requires forall x :: Ties(t, x, language) == Ties(u, x, language)
    ensures Compare(u[0], t[0], language) <= 0
  {
    assert Ties(t, t[0], language)[0] == t[0];
    assert t[0] in Ties(u, t[0], language);
    TiesAreMembers(u, t[0], language, t[0]);
    var k :| 0 <= k < |u| && u[k] == t[0];
  }

  lemma {:induction false} TiesAreMembers(s: seq<Candidate>, x: Candidate, language: Language, c: Candidate)
    requires c in Ties(s, x, language)
    ensures c in s
  {
    if s != [] && c != s[0] { TiesAreMembers(s[1..], x, language, c); }
  }

  // ---- unique ids ----

  ghost predicate UniqueIds(skills: seq<Prepared>) {
    forall i, j :: 0 <= i < j < |skills| ==> skills[i].skill.skillId != skills[j].skill.skillId
  }

  /** Some candidate supersedes this name. */
  ghost predicate SomeSupersedes(passing: seq<Prepared>, name: Text) {
    exists i :: 0 <= i < |passing| && name in passing[i].skill.supersedes
  }

  /** The candidates whose name no candidate supersedes, in inventory order. */
  ghost function Unsuperseded(skills: seq<Prepared>, prompt: Prompt, language: Language): seq<Candidate> {
    var passing := Passing(skills, prompt, language);
    Filter(Candidates(passing, prompt, language), (c: Candidate) => !SomeSupersedes(passing, c.name))
  }

  lemma {:induction false} PassingUnique(skills: seq<Prepared>, prompt: Prompt, language: Language)
    requires UniqueIds(skills)
    ensures UniqueIds(Passing(skills, prompt, language))
    ensures forall p :: p in Passing(skills, prompt, language) ==> p in skills
  {
    if skills != [] {
      PassingUnique(skills[1..], prompt, language);
      var rest := Passing(skills[1..], prompt, language);
      forall p | p in rest ensures p.skill.skillId != skills[0].skill.skillId {
        var k :| 0 <= k < |skills[1..]| && skills[1..][k] == p;
        assert skills[k + 1] == p;
      }
    }
  }

  lemma {:induction false} SupersedesOwn(passing: seq<Prepared>, k: nat)
    requires UniqueIds(passing) && k < |passing|
    ensures SupersedesOf(passing, passing[k].skill.skillId) == passing[k].skill.supersedes
  {
    var last := |passing| - 1;
    if k < last {
      SupersedesOwn(passing[..last], k);
    } else if passing[k].skill.supersedes == [] {
      SupersedesNone(passing[..last], passing[k].skill.skillId);
    }
  }

  lemma {:induction false} SupersedesNone(passing: seq<Prepared>, id: Text)
    requires forall i :: 0 <= i < |passing| ==> passing[i].skill.skillId != id
    ensures SupersedesOf(passing, id) == []
  {
    if passing != [] { SupersedesNone(passing[..|passing| - 1], id); }
  }

  lemma {:induction false} ClaimsAre(passing: seq<Prepared>, n: nat, name: Text)
    requires UniqueIds(passing) && n <= |passing|
    ensures Claimed(Claims(passing, n), name) <==> exists i :: 0 <= i < n && name in passing[i].skill.supersedes
  {
    if n > 0 {
      ClaimsAre(passing, n - 1, name);
      SupersedesOwn(passing, n - 1);
      var s := passing[n - 1].skill;
      ClaimedAppend(Claims(passing, n - 1), ClaimsOf(s.name, s.supersedes), name);
      OwnClaims(s.name, s.supersedes, name);
    }
  }

  lemma OwnClaims(winner: Text, supersedes: seq<Text>, name: Text)
    ensures Claimed(ClaimsOf(winner, supersedes), name) <==> name in supersedes
  {
    if j :| 0 <= j < |supersedes| && supersedes[j] == name { assert ClaimsOf(winner, supersedes)[j].name == name; }
  }

  lemma ClaimedAppend(a: seq<Claim>, b: seq<Claim>, name: Text)
    ensures Claimed(a + b, name) <==> Claimed(a, name) || Claimed(b, name)
  {
    if i :| 0 <= i < |a| && a[i].name == name { assert (a + b)[i].name == name; }
    if j :| 0 <= j < |b| && b[j].name == name { assert (a + b)[|a| + j].name == name; }
  }

  /** With unique ids the survivors are the candidates whose name is not superseded. */
  lemma SurvivorsAreUnsuperseded(skills: seq<Prepared>, prompt: Prompt, language: Language)
    requires UniqueIds(skills)
    ensures var passing := Passing(skills, prompt, language);
            Survivors(Candidates(passing, prompt, language), Claims(passing, |passing|)) == Unsuperseded(skills, prompt, language)
  {
    var passing := Passing(skills, prompt, language);
    var cs := Candidates(passing, prompt, language);
    var claims := Claims(passing, |passing|);
    PassingUnique(skills, prompt, language);
    forall k | 0 <= k < |cs| ensures Removed(cs, claims, cs[k].skillId) == SomeSupersedes(passing, cs[k].name) {
      RemovedIfSuperseded(passing, prompt, language, k);
    }
    FilterAgrees(cs, (c: Candidate) => !Removed(cs, claims, c.skillId), (c: Candidate) => !SomeSupersedes(passing, c.name));
  }

  lemma RemovedIfSuperseded(passing: seq<Prepared>, prompt: Prompt, language: Language, k: nat)
    requires UniqueIds(passing) && k < |passing|
    ensures var cs := Candidates(passing, prompt, language);
            |cs| == |passing| && Removed(cs, Claims(passing, |passing|), cs[k].skillId) == SomeSupersedes(passing, cs[k].name)
  {
    var cs := Candidates(passing, prompt, language);
    var claims := Claims(passing, |passing|);
    ClaimsAre(passing, |passing|, cs[k].name);
    if Removed(cs, claims, cs[k].skillId) {
      var i :| 0 <= i < |cs| && cs[i].skillId == cs[k].skillId && Claimed(claims, cs[i].name);
      assert passing[i].skill.skillId == passing[k].skill.skillId;
      assert i == k;
    }
  }

  /** The ranking is the head of the stable sort, by score, name and id, of the
      candidates that no candidate supersedes. */
  lemma RankingIsStableSort(skills: seq<Prepared>, prompt: Prompt, language: Language, max: nat, t: seq<Candidate>)
    requires UniqueIds(skills) && StableSort(t, Unsuperseded(skills, prompt, language), language)
    ensures Recommended(skills, prompt, language, max) == Take(t, max)
  {
    var s := Unsuperseded(skills, prompt, language);
    SurvivorsAreUnsuperseded(skills, prompt, language);
    SortIsStable(s, language);
    OneStableSort(Sorted(s, language), t, s, language);
  }

  // ---- permutations ----

  /** Different ids of the list collate differently. */
  ghost predicate IdsCollate(skills: seq<Prepared>, language: Language) {
    forall i, j :: 0 <= i < j < |skills| ==> language.collate(skills[i].skill.skillId) != language.collate(skills[j].skill.skillId)
  }

  ghost predicate Separated(cs: seq<Candidate>, language: Language) {
    forall c, d :: c in cs && d in cs && Compare(c, d, language) == 0 ==> c == d
  }

  lemma {:induction false} SortPermutes(s: seq<Candidate>, language: Language)
    ensures multiset(Sorted(s, language)) == multiset(s)
  {
    if s != [] {
      var before, last := s[..|s| - 1], s[|s| - 1];
      SortPermutes(before, language);
      var sorted := Sorted(before, language);
      InsertAt(sorted, Place(last, sorted, language), last);
      assert s == before + [last];
    }
  }

  lemma FirstsAgree(t: seq<Candidate>, u: seq<Candidate>, language: Language)
    requires Ordered(t, language) && Ordered(u, language) && multiset(t) == multiset(u) && Separated(t, language)
    requires t != [] && u != []
    ensures t[0] == u[0]
  {
    MembersOf(t, u);
    assert t[0] in u && u[0] in t;
    var i :| 0 <= i < |u| && u[i] == t[0];
    var j :| 0 <= j < |t| && t[j] == u[0];
    CompareOrders(t[0], u[0], t[0], language);
  }

  lemma SeparatedTail(t: seq<Candidate>, language: Language)
    requires t != [] && Separated(t, language)
    ensures Separated(t[1..], language)
  {
    forall c, d | c in t[1..] && d in t[1..] && Compare(c, d, language) == 0 ensures c == d {
      assert c in t && d in t;
    }
  }

  lemma {:induction false} OneOrder(t: seq<Candidate>, u: seq<Candidate>, language: Language)
    requires Ordered(t, language) && Ordered(u, language) && multiset(t) == multiset(u) && Separated(t, language)
    ensures t == u
    decreases |t|
  {
    if t == [] {
      assert |multiset(u)| == 0;
    } else {
      assert |multiset(t)| == |t| && |multiset(u)| == |u|;
      FirstsAgree(t, u, language);
      HeadAndTail(t);
      HeadAndTail(u);
      SeparatedTail(t, language);
      OneOrder(t[1..], u[1..], language);
    }
  }

  /** Permuting the skills permutes the unsuperseded candidates. */
  lemma UnsupersededPermutes(a: seq<Prepared>, b: seq<Prepared>, prompt: Prompt, language: Language)
    requires multiset(a) == multiset(b)
    ensures multiset(Unsuperseded(a, prompt, language)) == multiset(Unsuperseded(b, prompt, language))
  {
    var pa, pb := Passing(a, prompt, language), Passing(b, prompt, language);
    FilterPermutes(a, b, p => Passes(p, prompt, language));
    MembersOf(pa, pb);
    MapPermutes(pa, pb, p => Scored(p, prompt, language, false));
    var ca, cb := Candidates(pa, prompt, language), Candidates(pb, prompt, language);
    FilterPermutes(ca, cb, (c: Candidate) => !SomeSupersedes(pa, c.name));
    forall name ensures SomeSupersedes(pa, name) == SomeSupersedes(pb, name) {
      SupersedesByMember(pa, name);
      SupersedesByMember(pb, name);
    }
    FilterAgrees(cb, (c: Candidate) => !SomeSupersedes(pa, c.name), (c: Candidate) => !SomeSupersedes(pb, c.name));
  }

  lemma SupersedesByMember(passing: seq<Prepared>, name: Text)
    ensures SomeSupersedes(passing, name) <==> exists p :: p in passing && name in p.skill.supersedes
  {
  }

  /** Every unsuperseded candidate comes from a skill. */
  lemma Origin(skills: seq<Prepared>, prompt: Prompt, language: Language, c: Candidate) returns (k: nat)
    requires c in Unsuperseded(skills, prompt, language)
    ensures k < |skills| && c == Scored(skills[k], prompt, language, false)
  {
    var passing := Passing(skills, prompt, language);
    var cs := Candidates(passing, prompt, language);
    FilterMembers(cs, (x: Candidate) => !SomeSupersedes(passing, x.name), c);
    var i :| 0 <= i < |cs| && cs[i] == c;
    FilterMembers(skills, p => Passes(p, prompt, language), passing[i]);
    k :| 0 <= k < |skills| && skills[k] == passing[i];
  }

  lemma UnsupersededSeparated(skills: seq<Prepared>, prompt: Prompt, language: Language)
    requires IdsCollate(skills, language)
    ensures Separated(Unsuperseded(skills, prompt, language), language)
  {
    var s := Unsuperseded(skills, prompt, language);
    forall c, d | c in s && d in s && Compare(c, d, language) == 0 ensures c == d {
      var k := Origin(skills, prompt, language, c);
      var l := Origin(skills, prompt, language, d);
      SameCollation(c, d, language);
      assert k == l;
    }
  }

  lemma SameCollation(c: Candidate, d: Candidate, language: Language)
    requires Compare(c, d, language) == 0
    ensures language.collate(c.skillId) == language.collate(d.skillId)
  {
  }

  /** The recommendations do not depend on the order of the skills. */
  lemma OrderDoesNotMatter(a: seq<Prepared>, b: seq<Prepared>, prompt: Prompt, language: Language, max: nat)
    requires multiset(a) == multiset(b) && UniqueIds(a) && UniqueIds(b) && IdsCollate(a, language)
    ensures Recommended(a, prompt, language, max) == Recommended(b, prompt, language, max)
  {
    var sa, sb := Unsuperseded(a, prompt, language), Unsuperseded(b, prompt, language);
    SurvivorsAreUnsuperseded(a, prompt, language);
    SurvivorsAreUnsuperseded(b, prompt, language);
    UnsupersededPermutes(a, b, prompt, language);
    UnsupersededSeparated(a, prompt, language);
    SortIsStable(sa, language);
    SortIsStable(sb, language);
    SortPermutes(sa, language);
    SortPermutes(sb, language);
    MembersOf(Sorted(sa, language), sa);
    OneOrder(Sorted(sa, language), Sorted(sb, language), language);
  }

  /** Two candidates that compare equal keep the order they come in. */
  lemma TiesFollowOrder(c: Candidate, d: Candidate, language: Language)
    requires Compare(c, d, language) == 0
    ensures Sorted([c, d], language) == [c, d] && Sorted([d, c], language) == [d, c]
  {
    CompareOrders(c, d, c, language);
    assert [c, d][..1] == [c] && [d, c][..1] == [d] && [c][..0] == [] && [d][..0] == [];
    assert Sorted([c], language) == [c] && Sorted([d], language) == [d];
    assert [c][1..] == [] && [d][1..] == [];
  }

  // ---- the log ----

  predicate Logged(log: seq<Exclusion>, id: Text) { exists i :: 0 <= i < |log| && log[i].skillId == id }

  predicate LoggedOnce(log: seq<Exclusion>) {
    forall i, j :: 0 <= i < j < |log| ==> log[i].skillId != log[j].skillId
  }

  lemma LoggedAppend(a: seq<Exclusion>, b: seq<Exclusion>, id: Text)
    ensures Logged(a + b, id) <==> Logged(a, id) || Logged(b, id)
  {
    if i :| 0 <= i < |a| && a[i].skillId == id { assert (a + b)[i].skillId == id; }
    if j :| 0 <= j < |b| && b[j].skillId == id { assert (a + b)[|a| + j].skillId == id; }
  }

  lemma OnceAppend(a: seq<Exclusion>, b: seq<Exclusion>)
    requires LoggedOnce(a) && LoggedOnce(b)
    requires forall id :: Logged(b, id) ==> !Logged(a, id)
    ensures LoggedOnce(a + b)
  {
    forall i, j | 0 <= i < |a| && 0 <= j < |b| ensures a[i].skillId != b[j].skillId {
      assert Logged(b, b[j].skillId);
    }
  }

  lemma {:induction false} ClaimLogs(targets: seq<Candidate>, winner: Text, cs: seq<Candidate>, earlier: seq<Claim>, id: Text)
    ensures Logged(ClaimLog(targets, winner, cs, earlier), id) <==> HasId(targets, id) && !Removed(cs, earlier, id)
  {
    if targets != [] {
      var t := |targets| - 1;
      var before, last := targets[..t], targets[t];
      ClaimLogs(before, winner, cs, earlier, id);
      HasIdOne(targets, t, id);
      assert targets[..t + 1] == targets;
      var rest := if Removed(cs, earlier, last.skillId) || HasId(before, last.skillId) then []
                  else [Exclusion(last.skillId, last.name, SupersededBy(winner))];
      LoggedAppend(ClaimLog(before, winner, cs, earlier), rest, id);
      assert rest != [] && last.skillId == id ==> rest[0].skillId == id;
    }
  }

  lemma {:induction false} ClaimLogsOnce(targets: seq<Candidate>, winner: Text, cs: seq<Candidate>, earlier: seq<Claim>)
    ensures LoggedOnce(ClaimLog(targets, winner, cs, earlier))
  {
    if targets != [] {
      var t := |targets| - 1;
      var before, last := targets[..t], targets[t];
      ClaimLogsOnce(before, winner, cs, earlier);
      ClaimLogs(before, winner, cs, earlier, last.skillId);
      if !(Removed(cs, earlier, last.skillId) || HasId(before, last.skillId)) {
        OnceAppend(ClaimLog(before, winner, cs, earlier), [Exclusion(last.skillId, last.name, SupersededBy(winner))]);
      }
    }
  }

  /** Every removed candidate id is logged, nothing else is, and none twice,
      however many candidates claim its name. */
  lemma {:induction false} RemovedAreLoggedOnce(cs: seq<Candidate>, claims: seq<Claim>)
    ensures forall id :: Logged(SupersessionLog(cs, claims), id) <==> Removed(cs, claims, id)
    ensures LoggedOnce(SupersessionLog(cs, claims))
  {
    if claims != [] {
      var before, last := claims[..|claims| - 1], claims[|claims| - 1];
      assert claims == before + [last];
      RemovedAreLoggedOnce(cs, before);
      var more := ClaimLog(Bearing(cs, last.name), last.winner, cs, before);
      forall id
        ensures Logged(more, id) <==> HasId(Bearing(cs, last.name), id) && !Removed(cs, before, id)
        ensures Removed(cs, claims, id) <==> Removed(cs, before, id) || HasId(Bearing(cs, last.name), id)
        ensures Claimed(before, last.name) && HasId(Bearing(cs, last.name), id) ==> Removed(cs, before, id)
      {
        ClaimLogs(Bearing(cs, last.name), last.winner, cs, before, id);
        RemovedOne(cs, before, last, id);
        BearsId(cs, last.name, id);
      }
      if !Claimed(before, last.name) {
        ClaimLogsOnce(Bearing(cs, last.name), last.winner, cs, before);
        OnceAppend(SupersessionLog(cs, before), more);
        forall id ensures Logged(SupersessionLog(cs, claims), id) <==> Removed(cs, claims, id) {
          LoggedAppend(SupersessionLog(cs, before), more, id);
        }
      } else {
        assert SupersessionLog(cs, claims) == SupersessionLog(cs, before);
      }
    }
  }
}
