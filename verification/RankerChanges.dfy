/** What a change of one skill's evidence can do to the recommendations. */
module RankerChanges {
  import opened Common
  import opened Sequences
  import opened Utf16
  import opened RankerModel
  import opened RankerTheorems
  import opened RankerScores

  predicate Recommends(recommendations: seq<Candidate>, id: Text) {
    exists i :: 0 <= i < |recommendations| && recommendations[i].skillId == id
  }

  // ---- counting ----

  lemma {:induction false} FilterShorter<T>(s: seq<T>, keep: T -> bool)
    ensures |Filter(s, keep)| <= |s|
    ensures (forall i :: 0 <= i < |s| ==> keep(s[i])) ==> |Filter(s, keep)| == |s|
    ensures (forall i :: 0 <= i < |s| ==> !keep(s[i])) ==> |Filter(s, keep)| == 0
  {
    if s != [] { FilterShorter(s[1..], keep); }
  }

  lemma {:induction false} FilterImplies<T>(s: seq<T>, p: T -> bool, q: T -> bool)
    requires forall i :: 0 <= i < |s| && p(s[i]) ==> q(s[i])
    ensures |Filter(s, p)| <= |Filter(s, q)|
  {
    if s != [] { FilterImplies(s[1..], p, q); }
  }

  lemma SameCount(s: seq<Candidate>, keep: Candidate -> bool, language: Language)
    ensures |Filter(Sorted(s, language), keep)| == |Filter(s, keep)|
  {
    SortPermutes(s, language);
    FilterPermutes(Sorted(s, language), s, keep);
    var a, b := Filter(Sorted(s, language), keep), Filter(s, keep);
    assert |a| == |multiset(a)| && |b| == |multiset(b)|;
  }

  lemma CountAtMost<T>(t: seq<T>, p: nat, keep: T -> bool)
    requires p <= |t| && forall i :: p <= i < |t| ==> !keep(t[i])
    ensures |Filter(t, keep)| <= p
  {
    assert t == t[..p] + t[p..];
    FilterAppend(t[..p], t[p..], keep);
    FilterShorter(t[..p], keep);
    FilterShorter(t[p..], keep);
  }

  lemma CountAtLeast<T>(t: seq<T>, p: nat, keep: T -> bool)
    requires p <= |t| && forall i :: 0 <= i < p ==> keep(t[i])
    ensures |Filter(t, keep)| >= p
  {
    assert t == t[..p] + t[p..];
    FilterAppend(t[..p], t[p..], keep);
    FilterShorter(t[..p], keep);
  }

  lemma NotBefore(t: seq<Candidate>, p: nat, i: nat, language: Language)
    requires Ordered(t, language) && p <= i < |t|
    ensures Compare(t[i], t[p], language) >= 0 && Compare(t[p], t[i], language) <= 0
  {
    CompareOrders(t[p], t[i], t[p], language);
    CompareOrders(t[p], t[p], t[p], language);
  }

  /** Fewer than `m` candidates come before one of the first `m`. */
  lemma FewBefore(t: seq<Candidate>, c: Candidate, m: nat, language: Language)
    requires Ordered(t, language) && c in Take(t, m)
    ensures |Filter(t, (x: Candidate) => Compare(x, c, language) < 0)| < m
  {
    var before := (x: Candidate) => Compare(x, c, language) < 0;
    var p :| 0 <= p < |Take(t, m)| && Take(t, m)[p] == c;
    forall i | p <= i < |t| ensures !before(t[i]) { NotBefore(t, p, i, language); }
    CountAtMost(t, p, before);
  }

  /** A candidate with at most `m` up to itself is one of the first `m`. */
  lemma RoomFor(t: seq<Candidate>, c: Candidate, m: nat, language: Language)
    requires Ordered(t, language) && c in t && |Filter(t, (x: Candidate) => Compare(x, c, language) <= 0)| <= m
    ensures c in Take(t, m)
  {
    var upTo := (x: Candidate) => Compare(x, c, language) <= 0;
    var p :| 0 <= p < |t| && t[p] == c;
    forall i | 0 <= i < p + 1 ensures upTo(t[i]) { NotBefore(t, i, p, language); }
    CountAtLeast(t, p + 1, upTo);
    assert Take(t, m)[p] == c;
  }

  /** Raising the score of one candidate keeps it among the first `m`. */
  lemma RaisedStays(a: seq<Candidate>, lo: Candidate, hi: Candidate, b: seq<Candidate>, m: nat, language: Language)
    requires lo.score < hi.score && lo in Take(Sorted(a + [lo] + b, language), m)
    ensures hi in Take(Sorted(a + [hi] + b, language), m)
  {
    var before := (x: Candidate) => Compare(x, lo, language) < 0;
    var upTo := (x: Candidate) => Compare(x, hi, language) <= 0;
    var s, t := a + [lo] + b, a + [hi] + b;
    SortIsStable(s, language);
    SortIsStable(t, language);
    FewBefore(Sorted(s, language), lo, m, language);
    SameCount(s, before, language);
    SameCount(t, upTo, language);
    FilterImplies(a, upTo, before);
    FilterImplies(b, upTo, before);
    CountsSplit(a, lo, b, before);
    CountsSplit(a, hi, b, upTo);
    SortPermutes(t, language);
    InPermuted(t, Sorted(t, language), |a|);
    RoomFor(Sorted(t, language), hi, m, language);
  }

  lemma InPermuted(s: seq<Candidate>, t: seq<Candidate>, k: nat)
    requires multiset(s) == multiset(t) && k < |s|
    ensures s[k] in t
  {
    assert s[k] in multiset(s);
  }

  lemma CountsSplit<T>(a: seq<T>, x: T, b: seq<T>, keep: T -> bool)
    ensures |Filter(a + [x] + b, keep)| == |Filter(a, keep)| + (if keep(x) then 1 else 0) + |Filter(b, keep)|
  {
    FilterAppend(a + [x], b, keep);
    FilterAppend(a, [x], keep);
    assert [x][1..] == [];
  }

  // ---- one skill ----

  /** The same skill with less evidence. */
  ghost predicate Lower(lo: Prepared, hi: Prepared, prompt: Prompt, language: Language) {
    && lo.skill == hi.skill && lo.normalizedName == hi.normalizedName
    && Score(lo, prompt, language, false) < Score(hi, prompt, language, false)
  }

  lemma LowerPasses(lo: Prepared, hi: Prepared, prompt: Prompt, language: Language)
    requires Lower(lo, hi, prompt, language) && Passes(lo, prompt, language)
    ensures Passes(hi, prompt, language)
  {
    CandidateIff(lo, prompt, language);
    CandidateIff(hi, prompt, language);
  }

  lemma PassingSplit(u: seq<Prepared>, p: Prepared, v: seq<Prepared>, prompt: Prompt, language: Language)
    requires Passes(p, prompt, language)
    ensures Passing(u + [p] + v, prompt, language) == Passing(u, prompt, language) + [p] + Passing(v, prompt, language)
  {
    FilterAround(u, p, v, (q: Prepared) => Passes(q, prompt, language));
  }

  lemma FilterAround<T>(u: seq<T>, x: T, v: seq<T>, keep: T -> bool)
    requires keep(x)
    ensures Filter(u + [x] + v, keep) == Filter(u, keep) + [x] + Filter(v, keep)
  {
    FilterAppend(u + [x], v, keep);
    FilterOne(u, x, keep);
  }

  lemma SameSupersession(a: seq<Prepared>, lo: Prepared, hi: Prepared, b: seq<Prepared>, name: Text)
    requires lo.skill == hi.skill
    ensures SomeSupersedes(a + [lo] + b, name) == SomeSupersedes(a + [hi] + b, name)
  {
    var s, t := a + [lo] + b, a + [hi] + b;
    assert forall i :: 0 <= i < |s| ==> s[i].skill == t[i].skill;
  }

  lemma UnsupersededSplit(a: seq<Prepared>, p: Prepared, b: seq<Prepared>, prompt: Prompt, language: Language, keep: Candidate -> bool)
    requires keep(Scored(p, prompt, language, false))
    ensures Filter(Candidates(a + [p] + b, prompt, language), keep) ==
              Filter(Candidates(a, prompt, language), keep) + [Scored(p, prompt, language, false)] + Filter(Candidates(b, prompt, language), keep)
  {
    var f := (q: Prepared) => Scored(q, prompt, language, false);
    MapAppend(a + [p], b, f);
    MapAppend(a, [p], f);
    assert [p][1..] == [] && Map([p], f) == [f(p)];
    FilterAppend(Map(a, f) + [f(p)], Map(b, f), keep);
    FilterAppend(Map(a, f), [f(p)], keep);
    assert [f(p)][1..] == [];
  }

  /** More evidence for a skill never takes it out of the recommendations: if it is
      recommended with the lower score, it is with the higher one. */
  lemma MoreEvidenceStays(u: seq<Prepared>, lo: Prepared, hi: Prepared, v: seq<Prepared>, prompt: Prompt, language: Language, max: nat)
    requires UniqueIds(u + [lo] + v) && Lower(lo, hi, prompt, language)
    requires Recommends(Recommended(u + [lo] + v, prompt, language, max), lo.skill.skillId)
    ensures Recommends(Recommended(u + [hi] + v, prompt, language, max), hi.skill.skillId)
  {
    var low, high := Scored(lo, prompt, language, false), Scored(hi, prompt, language, false);
    SurvivorsAreUnsuperseded(u + [lo] + v, prompt, language);
    SameIds(u, lo, hi, v);
    SurvivorsAreUnsuperseded(u + [hi] + v, prompt, language);
    LowIsIn(u, lo, v, prompt, language, max);
    LowerPasses(lo, hi, prompt, language);
    var a, b := Survived(u, lo, v, prompt, language);
    SurvivedAlike(u, lo, hi, v, prompt, language, a, b);
    RaisedStays(a, low, high, b, max, language);
    var r := Recommended(u + [hi] + v, prompt, language, max);
    var i :| 0 <= i < |r| && r[i] == high;
  }

  lemma SameIds(u: seq<Prepared>, lo: Prepared, hi: Prepared, v: seq<Prepared>)
    requires UniqueIds(u + [lo] + v) && lo.skill == hi.skill
    ensures UniqueIds(u + [hi] + v)
  {
    var s, t := u + [lo] + v, u + [hi] + v;
    assert forall i :: 0 <= i < |s| ==> s[i].skill == t[i].skill;
  }

  /** The recommended candidate of the id is the one of `lo`, so `lo` passes and nobody supersedes it. */
  lemma LowIsIn(u: seq<Prepared>, lo: Prepared, v: seq<Prepared>, prompt: Prompt, language: Language, max: nat)
    requires UniqueIds(u + [lo] + v)
    requires Recommends(Recommended(u + [lo] + v, prompt, language, max), lo.skill.skillId)
    ensures var low := Scored(lo, prompt, language, false);
            && low in Take(Sorted(Unsuperseded(u + [lo] + v, prompt, language), language), max)
            && low in Unsuperseded(u + [lo] + v, prompt, language) && Passes(lo, prompt, language)
            && !SomeSupersedes(Passing(u + [lo] + v, prompt, language), low.name)
  {
    var skills := u + [lo] + v;
    SurvivorsAreUnsuperseded(skills, prompt, language);
    var s := Unsuperseded(skills, prompt, language);
    var t := Take(Sorted(s, language), max);
    var i :| 0 <= i < |t| && t[i].skillId == lo.skill.skillId;
    SortPermutes(s, language);
    assert t[i] in multiset(Sorted(s, language));
    var k := Origin(skills, prompt, language, t[i]);
    assert skills[|u|] == lo && k == |u|;
    OnlyUnsuperseded(skills, lo, prompt, language);
  }

  lemma OnlyUnsuperseded(skills: seq<Prepared>, p: Prepared, prompt: Prompt, language: Language)
    requires UniqueIds(skills) && p in skills && Scored(p, prompt, language, false) in Unsuperseded(skills, prompt, language)
    ensures Passes(p, prompt, language) && !SomeSupersedes(Passing(skills, prompt, language), p.skill.name)
  {
    var c := Scored(p, prompt, language, false);
    var passing := Passing(skills, prompt, language);
    var cs := Candidates(passing, prompt, language);
    FilterMembers(cs, (x: Candidate) => !SomeSupersedes(passing, x.name), c);
    var j :| 0 <= j < |cs| && cs[j] == c;
    assert passing[j] in passing;
    FilterMembers(skills, (q: Prepared) => Passes(q, prompt, language), passing[j]);
    var m :| 0 <= m < |skills| && skills[m] == passing[j];
    var n :| 0 <= n < |skills| && skills[n] == p;
    assert skills[m].skill.skillId == skills[n].skill.skillId;
  }

  /** The survivors around the one of `lo`. */
  lemma Survived(u: seq<Prepared>, lo: Prepared, v: seq<Prepared>, prompt: Prompt, language: Language)
    returns (a: seq<Candidate>, b: seq<Candidate>)
    requires Passes(lo, prompt, language) && !SomeSupersedes(Passing(u + [lo] + v, prompt, language), lo.skill.name)
    ensures var passing := Passing(u + [lo] + v, prompt, language);
            var keep := (c: Candidate) => !SomeSupersedes(passing, c.name);
            && a == Filter(Candidates(Passing(u, prompt, language), prompt, language), keep)
            && b == Filter(Candidates(Passing(v, prompt, language), prompt, language), keep)
            && Unsuperseded(u + [lo] + v, prompt, language) == a + [Scored(lo, prompt, language, false)] + b
  {
    var passing := Passing(u + [lo] + v, prompt, language);
    var keep := (c: Candidate) => !SomeSupersedes(passing, c.name);
    PassingSplit(u, lo, v, prompt, language);
    UnsupersededSplit(Passing(u, prompt, language), lo, Passing(v, prompt, language), prompt, language, keep);
    a := Filter(Candidates(Passing(u, prompt, language), prompt, language), keep);
    b := Filter(Candidates(Passing(v, prompt, language), prompt, language), keep);
  }

  lemma SurvivedAlike(u: seq<Prepared>, lo: Prepared, hi: Prepared, v: seq<Prepared>, prompt: Prompt, language: Language,
                      a: seq<Candidate>, b: seq<Candidate>)
    requires lo.skill == hi.skill && Passes(lo, prompt, language) && Passes(hi, prompt, language)
    requires !SomeSupersedes(Passing(u + [lo] + v, prompt, language), lo.skill.name)
    requires var passing := Passing(u + [lo] + v, prompt, language);
             var keep := (c: Candidate) => !SomeSupersedes(passing, c.name);
             && a == Filter(Candidates(Passing(u, prompt, language), prompt, language), keep)
             && b == Filter(Candidates(Passing(v, prompt, language), prompt, language), keep)
    ensures Unsuperseded(u + [hi] + v, prompt, language) == a + [Scored(hi, prompt, language, false)] + b
  {
    var pu, pv := Passing(u, prompt, language), Passing(v, prompt, language);
    PassingSplit(u, lo, v, prompt, language);
    PassingSplit(u, hi, v, prompt, language);
    forall name ensures SomeSupersedes(pu + [lo] + pv, name) == SomeSupersedes(pu + [hi] + pv, name) {
      SameSupersession(pu, lo, hi, pv, name);
    }
    var c, d := Survived(u, hi, v, prompt, language);
    var keep := (x: Candidate) => !SomeSupersedes(pu + [lo] + pv, x.name);
    var other := (x: Candidate) => !SomeSupersedes(pu + [hi] + pv, x.name);
    FilterAgrees(Candidates(pu, prompt, language), keep, other);
    FilterAgrees(Candidates(pv, prompt, language), keep, other);
  }

  /** A matching phrase to avoid never brings a skill in. */
  lemma AvoidNeverBringsIn(u: seq<Prepared>, p: Prepared, i: nat, x: Phrase, v: seq<Prepared>, prompt: Prompt, language: Language, max: nat)
    requires i <= |p.avoidFor| && UniqueIds(u + [p] + v) && Hit(x, prompt, language)
    requires Recommends(Recommended(u + [p.(avoidFor := Added(p.avoidFor, i, x))] + v, prompt, language, max), p.skill.skillId)
    ensures Recommends(Recommended(u + [p] + v, prompt, language, max), p.skill.skillId)
  {
    var lo := p.(avoidFor := Added(p.avoidFor, i, x));
    SameIds(u, p, lo, v);
    LowIsIn(u, lo, v, prompt, language, max);
    CandidateIff(lo, prompt, language);
    AvoidTakes(p, i, x, prompt, language, false);
    TierAdjusts(p, prompt, language, false);
    TierAdjusts(lo, prompt, language, false);
    MoreEvidenceStays(u, lo, p, v, prompt, language, max);
  }

  /** A matching preferred phrase never takes a skill out. */
  lemma PreferredNeverTakesOut(u: seq<Prepared>, p: Prepared, i: nat, x: Phrase, v: seq<Prepared>, prompt: Prompt, language: Language, max: nat)
    requires i <= |p.preferredFor| && UniqueIds(u + [p] + v) && !x.weakSingleTerm && Hit(x, prompt, language)
    requires Recommends(Recommended(u + [p] + v, prompt, language, max), p.skill.skillId)
    ensures Recommends(Recommended(u + [p.(preferredFor := Added(p.preferredFor, i, x))] + v, prompt, language, max), p.skill.skillId)
  {
    LowIsIn(u, p, v, prompt, language, max);
    CandidateIff(p, prompt, language);
    PreferredAdds(p, i, x, prompt, language, false);
    TierAdjusts(p, prompt, language, false);
    TierAdjusts(p.(preferredFor := Added(p.preferredFor, i, x)), prompt, language, false);
    MoreEvidenceStays(u, p, p.(preferredFor := Added(p.preferredFor, i, x)), v, prompt, language, max);
  }
}
