/** What the hook text says. */
module RankerHook {
  import opened Common
  import opened Sequences
  import opened Utf16
  import opened RankerModel

  /** The parts in order, a comma and a space between each two. */
  ghost predicate Joins(t: Text, parts: seq<Text>)
    decreases |parts|
  {
    if |parts| <= 1 then t == if parts == [] then [] else parts[0]
    else exists u :: Joins(u, parts[..|parts| - 1]) && t == u + Literal(", ") + parts[|parts| - 1]
  }

  lemma {:induction false} JoinedJoins(parts: seq<Text>)
    ensures Joins(Joined(parts), parts)
    decreases |parts|
  {
    if |parts| > 1 {
      var before, last := parts[..|parts| - 1], parts[|parts| - 1];
      JoinedJoins(before);
      JoinedGrows(before, last);
      assert parts == before + [last];
    }
  }

  lemma {:induction false} JoinedGrows(parts: seq<Text>, x: Text)
    requires parts != []
    ensures Joined(parts + [x]) == Joined(parts) + Literal(", ") + x
  {
    var all := parts + [x];
    assert all[1..] == parts[1..] + [x];
    if |parts| > 1 {
      JoinedGrows(parts[1..], x);
      Associate(parts[0] + Literal(", "), Joined(parts[1..]) + Literal(", "), x);
      Associate(parts[0] + Literal(", "), Joined(parts[1..]), Literal(", "));
    } else {
      assert all[1..] == [x];
    }
  }

  /** A skill is shown by its name if that is code-like, else by its id, and with its
      family if that is. */
  ghost predicate Shows(t: Text, c: Candidate, language: Language) {
    var tag := if language.codeLike(c.name) then c.name else c.skillId;
    t == if c.family.Some? && c.family.value != [] && language.codeLike(c.family.value)
         then tag + Literal(" (") + c.family.value + Literal(")") else tag
  }

  /** The ids of the first two superseded exclusions. */
  ghost predicate FirstTwo(ids: seq<Text>, log: seq<Exclusion>)
    decreases |log|
  {
    if log == [] then ids == []
    else
      var before, last := log[..|log| - 1], log[|log| - 1];
      || (FirstTwo(ids, before) && (last.why.SupersededBy? ==> |ids| == 2))
      || (last.why.SupersededBy? && ids != [] && |ids| <= 2 && ids[|ids| - 1] == last.skillId && FirstTwo(ids[..|ids| - 1], before))
  }

  function Ids(s: seq<Exclusion>): (ids: seq<Text>)
    ensures |ids| == |s|
    ensures forall i :: 0 <= i < |s| ==> ids[i] == s[i].skillId
  {
    Map(s, (e: Exclusion) => e.skillId)
  }

  lemma IdsMore(s: seq<Exclusion>, x: Exclusion)
    ensures var ids := Ids(s + [x]);
            ids[|ids| - 1] == x.skillId && ids[..|ids| - 1] == Ids(s)
  {
  }

  lemma {:induction false} TwoAvoided(log: seq<Exclusion>)
    ensures FirstTwo(Ids(Take(SupersededOnly(log), 2)), log)
    decreases |log|
  {
    if log != [] {
      var before, last := log[..|log| - 1], log[|log| - 1];
      TwoAvoided(before);
      assert log == before + [last];
      FilterOne(before, last, (e: Exclusion) => e.why.SupersededBy?);
      var s := SupersededOnly(before);
      assert SupersededOnly(log) == s + if last.why.SupersededBy? then [last] else [];
      if last.why.SupersededBy? {
        TakeMore(s, last);
        IdsMore(s, last);
      } else {
        assert s + [] == s;
      }
    }
  }

  lemma TakeMore(s: seq<Exclusion>, x: Exclusion)
    ensures Take(s + [x], 2) == if |s| >= 2 then Take(s, 2) else s + [x]
    ensures if |s| < 2 then Take(s, 2) == s else |Take(s, 2)| == 2
  {
  }

  /** The text of a hook: the recommended skills in order and then the first two
      superseded ones, the whole cut at 500 units. */
  ghost predicate Tells(t: Text, labels: Text, ids: seq<Text>, avoided: Text) {
    t == Literal("SkillMap: prefer ") + labels + Literal(".")
         + if ids == [] then [] else Literal(" Avoid superseded: ") + avoided + Literal(".")
  }

  ghost predicate Says(t: Text, recommendations: seq<Candidate>, log: seq<Exclusion>, language: Language, labels: seq<Text>, ids: seq<Text>) {
    exists full, shown, avoided ::
      && Tells(full, shown, ids, avoided) && Joins(shown, labels) && |labels| == |recommendations|
      && (forall i :: 0 <= i < |labels| ==> Shows(labels[i], recommendations[i], language))
      && FirstTwo(ids, log) && Joins(avoided, ids) && t == if |full| <= 500 then full else full[..500]
  }

  lemma HookSays(recommendations: seq<Candidate>, log: seq<Exclusion>, language: Language)
    ensures recommendations == [] ==>
              HookText(recommendations, log, language) == Literal("SkillMap: no confident skill recommendation.")
    ensures recommendations != [] ==>
              exists labels, ids :: Says(HookText(recommendations, log, language), recommendations, log, language, labels, ids)
  {
    if recommendations != [] {
      var labels := Labels(recommendations, language);
      var ids := Ids(Take(SupersededOnly(log), 2));
      JoinedJoins(labels);
      JoinedJoins(ids);
      TwoAvoided(log);
      forall i | 0 <= i < |labels| ensures Shows(labels[i], recommendations[i], language) { LabelShows(recommendations[i], language); }
      var full := Full(labels, ids);
      HookIs(recommendations, log, language, labels, ids);
      assert Tells(full, Joined(labels), ids, Joined(ids));
      assert Says(HookText(recommendations, log, language), recommendations, log, language, labels, ids);
    }
  }

  function Labels(s: seq<Candidate>, language: Language): (labels: seq<Text>)
    ensures |labels| == |s|
    ensures forall i :: 0 <= i < |s| ==> labels[i] == RecommendationLabel(s[i], language)
  {
    Map(s, (c: Candidate) => RecommendationLabel(c, language))
  }

  function Full(labels: seq<Text>, ids: seq<Text>): Text {
    Literal("SkillMap: prefer ") + Joined(labels) + Literal(".")
    + if ids == [] then [] else Literal(" Avoid superseded: ") + Joined(ids) + Literal(".")
  }

  lemma HookIs(recommendations: seq<Candidate>, log: seq<Exclusion>, language: Language, labels: seq<Text>, ids: seq<Text>)
    requires recommendations != [] && labels == Labels(recommendations, language) && ids == Ids(Take(SupersededOnly(log), 2))
    ensures HookText(recommendations, log, language) == Take(Full(labels, ids), 500)
  {
    assert labels == Map(recommendations, c => RecommendationLabel(c, language));
    assert ids == Map(Take(SupersededOnly(log), 2), (e: Exclusion) => e.skillId);
    assert ids == [] <==> Take(SupersededOnly(log), 2) == [];
  }

  lemma LabelShows(c: Candidate, language: Language)
    ensures Shows(RecommendationLabel(c, language), c, language)
  {
    var tag := SafeLabel(c.name, c.skillId, language);
    assert tag + [] == tag;
    if c.family.Some? {
      Associate(tag, Literal(" (") + c.family.value, Literal(")"));
      Associate(tag, Literal(" ("), c.family.value);
    }
  }
}
