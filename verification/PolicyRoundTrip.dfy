/** Printed policies parse back. */
module PolicyRoundTrip {
  import opened Common
  import opened Utf16
  import opened PolicyModel
  import opened PolicyText

  // ---- texts ----

  lemma {:induction false} NoComment(t: Text)
    requires 0x23 !in t
    ensures StripComment(t) == t
  {
    if t != [] {
      NoComment(t[1..]);
      assert t == [t[0]] + t[1..];
    }
  }

  lemma CleanSame(t: Text)
    requires 0x23 !in t && t != [] && !Space(t[|t| - 1])
    ensures Clean(t) == t
  {
    NoComment(t);
  }

  /** Text without a comment sign stays in front of what follows it. */
  lemma {:induction false} FrontStays(front: Text, t: Text)
    requires 0x23 !in front
    ensures StripComment(front + t) == front + StripComment(t)
  {
    if front == [] {
      assert front + t == t;
    } else {
      assert (front + t)[1..] == front[1..] + t;
      FrontStays(front[1..], t);
      assert front == [front[0]] + front[1..];
    }
  }

  lemma {:induction false} LineIsCut(v: Text)
    requires OneLine(v)
    ensures StripComment(v) == Cut(v)
  {
    if v != [] && v[0] != 0x23 { LineIsCut(v[1..]); }
  }

  lemma {:induction false} EndOnly(a: Text, w: Text)
    ensures TrimEnd(w) != [] ==> TrimEnd(a + w) == a + TrimEnd(w)
    ensures TrimEnd(w) == [] ==> TrimEnd(a + w) == TrimEnd(a)
    decreases |w|
  {
    if w == [] {
      assert a + w == a;
    } else if Space(w[|w| - 1]) {
      assert (a + w)[..|a + w| - 1] == a + w[..|w| - 1];
      EndOnly(a, w[..|w| - 1]);
    }
  }

  lemma {:induction false} StartOnly(w: Text, b: Text)
    ensures TrimStart(w) != [] ==> TrimStart(w + b) == TrimStart(w) + b
    ensures TrimStart(w) == [] ==> TrimStart(w + b) == TrimStart(b)
  {
    if w == [] {
      assert w + b == b;
    } else if Space(w[0]) {
      assert (w + b)[1..] == w[1..] + b;
      StartOnly(w[1..], b);
    }
  }

  lemma {:induction false} StartEmpty(w: Text)
    ensures TrimStart(w) == [] <==> forall i :: 0 <= i < |w| ==> Space(w[i])
  {
    if w != [] && Space(w[0]) { StartEmpty(w[1..]); }
  }

  lemma {:induction false} EndEmpty(w: Text)
    ensures TrimEnd(w) == [] <==> forall i :: 0 <= i < |w| ==> Space(w[i])
    decreases |w|
  {
    if w != [] && Space(w[|w| - 1]) { EndEmpty(w[..|w| - 1]); }
  }

  lemma {:induction false} StartSuffix(w: Text)
    ensures |TrimStart(w)| <= |w| && TrimStart(w) == w[|w| - |TrimStart(w)|..]
    ensures forall i :: 0 <= i < |w| - |TrimStart(w)| ==> Space(w[i])
  {
    if w != [] && Space(w[0]) { StartSuffix(w[1..]); }
  }

  /** Either end may be trimmed first. */
  lemma TrimsCommute(w: Text)
    ensures TrimStart(TrimEnd(w)) == Trim(w)
  {
    StartSuffix(w);
    var n := |w| - |TrimStart(w)|;
    var front, rest := w[..n], w[n..];
    assert w == front + rest;
    EndOnly(front, rest);
    StartEmpty(w);
    EndEmpty(w);
    EndEmpty(rest);
    EndEmpty(front);
    StartEmpty(front);
    if TrimEnd(rest) != [] { StartOnly(front, TrimEnd(rest)); }
  }

  lemma {:induction false} TrimStartSkips(n: nat, v: Text)
    requires v != [] && !Space(v[0])
    ensures TrimStart(Spaces(n) + v) == v
  {
    if n == 0 {
      assert Spaces(0) + v == v;
    } else {
      assert (Spaces(n) + v)[1..] == Spaces(n - 1) + v;
      TrimStartSkips(n - 1, v);
    }
  }

  /** A trimmed text starts and ends with something. */
  lemma TrimmedEnds(v: Text)
    requires v != [] && Trim(v) == v
    ensures !Space(v[0]) && !Space(v[|v| - 1])
  {
    StartShrinks(v);
    assert |TrimEnd(TrimStart(v))| <= |TrimStart(v)|;
  }

  lemma {:induction false} StartShrinks(v: Text)
    ensures |TrimStart(v)| <= |v|
    ensures |TrimStart(v)| == |v| ==> TrimStart(v) == v
  {
    if v != [] && Space(v[0]) { StartShrinks(v[1..]); }
  }

  lemma TrimNotEmpty(t: Text, k: nat)
    requires k < |t| && !Space(t[k])
    ensures Trim(t) != []
  {
    StartKeeps(t, k);
    EndKeeps(TrimStart(t), 0);
  }

  lemma {:induction false} StartKeeps(t: Text, k: nat)
    requires k < |t| && !Space(t[k])
    ensures TrimStart(t) != []
  {
    if Space(t[0]) { StartKeeps(t[1..], k - 1); }
  }

  lemma {:induction false} EndKeeps(t: Text, k: nat)
    requires k < |t| && !Space(t[k])
    ensures |TrimEnd(t)| > k
  {
    if Space(t[|t| - 1]) { EndKeeps(t[..|t| - 1], k); }
  }

  // ---- lines ----

  lemma SkillLineReads(n: Text)
    requires ExactName(n)
    ensures Classify(Clean(Spaces(2) + n + [0x3A])) == SkillLine(n)
  {
    var t := Spaces(2) + n + [0x3A];
    TrimmedEnds(n);
    assert t == Spaces(2) + (n + [0x3A]);
    FrontStays(Spaces(2), n + [0x3A]);
    HeadClassified(n);
  }

  lemma HeadClassified(n: Text)
    requires n != [] && Trim(n) == n && !Space(n[0]) && 0x3A !in n[1..]
    ensures Classify(Spaces(2) + n + [0x3A]) == SkillLine(n)
  {
    var t := Spaces(2) + n + [0x3A];
    TrimNotEmpty(t, 2);
    assert t[..2] == Spaces(2) && t[2] == n[0] && t[2..|t| - 1] == n;
    forall i | 3 <= i < |t| - 1 ensures t[i] != 0x3A { assert t[i] == n[1..][i - 3]; }
    assert t[0] == 32 && Literal("version:")[0] == 'v' as int && Literal("skills:")[0] == 's' as int;
  }

  predicate KeyText(key: Text) { key != [] && forall i :: 0 <= i < |key| ==> KeyChar(key[i]) }

  lemma {:induction false} KeyEnds(key: Text, rest: Text)
    requires forall i :: 0 <= i < |key| ==> KeyChar(key[i])
    requires rest != [] && !KeyChar(rest[0])
    ensures KeyLength(key + rest) == |key|
  {
    if key == [] {
      assert key + rest == rest;
    } else {
      assert (key + rest)[1..] == key[1..] + rest;
      KeyEnds(key[1..], rest);
    }
  }

  lemma NotHeaderNorSkill(t: Text)
    requires |t| > 3 && t[..3] == Spaces(3)
    ensures !VersionLine(t) && !SkillsLine(t) && !IsSkillLine(t)
  {
    assert t[0] == t[..3][0] == 32 && t[2] == t[..3][2] == 32;
    assert Literal("version:")[0] == 'v' as int && Literal("skills:")[0] == 's' as int;
  }

  lemma FieldClassified(t: Text, n: nat)
    requires |t| >= 5 && t[..4] == Spaces(4) && n == KeyLength(t[4..]) && n > 0 && 4 + n < |t| && t[4 + n] == 0x3A
    requires OneLine(TrimStart(t[5 + n..])) && !Space(t[4])
    ensures Classify(t) == FieldLine(t[4..4 + n], TrimStart(t[5 + n..]))
  {
    TrimNotEmpty(t, 4);
    assert t[..3] == t[..4][..3] == Spaces(3);
    NotHeaderNorSkill(t);
  }

  /** The parts of a field line. */
  lemma FieldParts(key: Text, y: Text)
    requires KeyText(key)
    ensures var t := Spaces(4) + key + [0x3A] + y;
            && |t| >= 5 && t[..4] == Spaces(4) && t[4] == key[0] && t[4..] == key + ([0x3A] + y) && t[4 + |key|] == 0x3A
            && t[5 + |key|..] == y && t[4..4 + |key|] == key
  {
  }

  lemma FieldLineIs(key: Text, y: Text)
    requires KeyText(key) && OneLine(TrimStart(y))
    ensures Classify(Spaces(4) + key + [0x3A] + y) == FieldLine(key, TrimStart(y))
  {
    FieldParts(key, y);
    KeyEnds(key, [0x3A] + y);
    FieldClassified(Spaces(4) + key + [0x3A] + y, |key|);
  }

  /** What is left of `front` and a value of one line. */
  lemma CleanValue(front: Text, v: Text)
    requires 0x23 !in front && OneLine(v)
    ensures TrimEnd(Cut(v)) != [] ==> Clean(front + v) == front + TrimEnd(Cut(v))
    ensures TrimEnd(Cut(v)) == [] ==> Clean(front + v) == TrimEnd(front)
  {
    FrontStays(front, v);
    LineIsCut(v);
    EndOnly(front, Cut(v));
  }

  lemma ValueIs(v: Text)
    requires OneLine(v)
    ensures TrimStart([32] + TrimEnd(Cut(v))) == Trim(Cut(v)) && OneLine(Trim(Cut(v)))
    ensures TrimEnd(Cut(v)) == [] ==> Trim(Cut(v)) == []
  {
    TrimsCommute(Cut(v));
    SpaceFirst(TrimEnd(Cut(v)));
    TrimOneLine(Cut(v));
  }

  lemma SpaceFirst(w: Text)
    ensures TrimStart([32] + w) == TrimStart(w)
  {
    assert ([32] + w)[1..] == w;
  }

  lemma TrimOneLine(w: Text)
    requires OneLine(w)
    ensures OneLine(Trim(w))
  {
    StartSuffix(w);
  }

  /** The line of a field gives the value up to a comment sign, trimmed. */
  lemma FieldLineReads(key: Text, v: Text)
    requires KeyText(key) && 0x23 !in key && OneLine(v)
    ensures Classify(Clean(FieldText(key, v))) == FieldLine(key, Trim(Cut(v)))
  {
    ValueIs(v);
    FieldLineCleaned(key, v);
    FieldLineIs(key, if TrimEnd(Cut(v)) == [] then [] else [32] + TrimEnd(Cut(v)));
  }

  lemma FieldLineCleaned(key: Text, v: Text)
    requires KeyText(key) && 0x23 !in key && OneLine(v)
    ensures Clean(FieldText(key, v)) == Spaces(4) + key + [0x3A] + if TrimEnd(Cut(v)) == [] then [] else [32] + TrimEnd(Cut(v))
  {
    CleanedAfter(Spaces(4) + key, 0x3A, v);
    assert Spaces(4) + key + [0x3A, 32] + v == FieldText(key, v);
  }

  /** A printed value after a sign and a space. */
  lemma CleanedAfter(front: Text, sign: Unit, v: Text)
    requires 0x23 !in front && sign != 0x23 && !Space(sign) && OneLine(v)
    ensures Clean(front + [sign, 32] + v) == front + [sign] + if TrimEnd(Cut(v)) == [] then [] else [32] + TrimEnd(Cut(v))
  {
    var end := TrimEnd(Cut(v));
    SignApart(front, sign, end);
    CleanValue(front + [sign, 32], v);
    TailTrimmed(front + [sign]);
  }

  lemma SignApart(front: Text, sign: Unit, end: Text)
    ensures front + [sign, 32] == front + [sign] + [32]
    ensures front + [sign, 32] + end == front + [sign] + ([32] + end)
    ensures front + [sign] + [] == front + [sign]
  {
  }

  lemma TailTrimmed(t: Text)
    requires t != [] && !Space(t[|t| - 1])
    ensures TrimEnd(t + [32]) == t
  {
    assert (t + [32])[..|t|] == t;
  }

  lemma ListLineReads(key: Text)
    requires KeyText(key) && 0x23 !in key
    ensures Classify(Clean(Spaces(4) + key + [0x3A])) == FieldLine(key, [])
  {
    var t := Spaces(4) + key + [0x3A];
    var n := |key|;
    CleanSame(t);
    assert t[..4] == Spaces(4) && t[4..] == key + [0x3A];
    KeyEnds(key, [0x3A]);
    assert t[5 + n..] == [] && t[4..4 + n] == key && t[4] == key[0];
    FieldClassified(t, n);
  }

  lemma ItemLineIs(y: Text)
    requires OneLine(TrimStart(y))
    ensures Classify(Spaces(6) + [0x2D] + y) == ItemLine(TrimStart(y))
  {
    var t := Spaces(6) + [0x2D] + y;
    TrimNotEmpty(t, 6);
    assert t[..3] == Spaces(3) && t[..6] == Spaces(6) && t[4] == 32;
    NotHeaderNorSkill(t);
    assert t[4..][0] == 32;
    assert KeyLength(t[4..]) == 0;
    assert t[7..] == y;
  }

  lemma ItemLineReads(v: Text)
    requires OneLine(v)
    ensures Classify(Clean(ItemText(v))) == ItemLine(Trim(Cut(v)))
  {
    ValueIs(v);
    CleanedAfter(Spaces(6), 0x2D, v);
    ItemLineIs(if TrimEnd(Cut(v)) == [] then [] else [32] + TrimEnd(Cut(v)));
  }

  lemma VersionLineRead()
    ensures Classify(Clean(Literal("version: 1"))) == Header
  {
    var v := Literal("version: 1");
    assert v[9] == 0x31 && v[8] == 32 && v[0] == 'v' as int;
    CleanSame(v);
    TrimNotEmpty(v, 0);
    assert v[..8] == Literal("version:");
    assert v[8..] == Spaces(1) + [0x31];
    TrimStartSkips(1, [0x31]);
  }

  lemma SkillsLineRead()
    ensures Classify(Clean(Literal("skills:"))) == Header
  {
    var k := Literal("skills:");
    assert k[6] == ':' as int && k[0] == 's' as int;
    CleanSame(k);
    TrimNotEmpty(k, 0);
    assert k[7..] == [];
  }

  // ---- folding lines ----

  lemma {:induction false} TakeAppend(s: State, a: seq<Text>, b: seq<Text>)
    requires Sound(s)
    ensures TakeAll(s, a + b) == match TakeAll(s, a) case None => None case Some(x) => TakeAll(x, b)
    decreases |a|
  {
    if a == [] {
      assert a + b == b;
    } else {
      assert (a + b)[1..] == a[1..] + b;
      match Take(s, Classify(Clean(a[0])))
      case None =>
      case Some(next) => TakeAppend(next, a[1..], b);
    }
  }

  lemma TakeOne(s: State, line: Text)
    requires Sound(s)
    ensures TakeAll(s, [line]) == Take(s, Classify(Clean(line)))
  {
    assert [line][1..] == [];
  }

  /** The parser is inside the entry `e` of `name`, on top of the policy `base`. */
  ghost predicate At(s: State, name: Text, e: TextEntry, base: TextPolicy) {
    s.skill == Some(name) && s.skills == base[name := e]
  }

  /** These lines take the parser from one entry to another. */
  ghost predicate Reaches(s: State, lines: seq<Text>, name: Text, f: TextEntry, base: TextPolicy) {
    Sound(s) && TakeAll(s, lines).Some? && At(TakeAll(s, lines).value, name, f, base)
  }

  ghost predicate Leads(lines: seq<Text>, name: Text, e: TextEntry, f: TextEntry, base: TextPolicy) {
    forall s :: At(s, name, e, base) ==> Reaches(s, lines, name, f, base)
  }

  lemma LeadsOn(a: seq<Text>, b: seq<Text>, name: Text, e: TextEntry, f: TextEntry, g: TextEntry, base: TextPolicy)
    requires Leads(a, name, e, f, base) && Leads(b, name, f, g, base)
    ensures Leads(a + b, name, e, g, base)
  {
    forall s | At(s, name, e, base) ensures Reaches(s, a + b, name, g, base) {
      assert Reaches(s, a, name, f, base);
      TakeAppend(s, a, b);
      var x := TakeAll(s, a).value;
      assert At(x, name, f, base);
    }
  }

  lemma LeadsNowhere(name: Text, e: TextEntry, base: TextPolicy)
    ensures Leads([], name, e, e, base)
  {
  }

  function WithField(e: TextEntry, key: FieldKey, v: Text): TextEntry {
    match key case TierKey => e.(tier := Some(v)) case FamilyKey => e.(family := Some(v)) case _ => e.(notes := Some(v))
  }

  lemma FieldTaken(s: State, key: Text, v: Text, name: Text, e: TextEntry, base: TextPolicy)
    requires KeyText(key) && 0x23 !in key && OneLine(v) && At(s, name, e, base)
    requires KeyOf(key).TierKey? || KeyOf(key).FamilyKey? || KeyOf(key).NotesKey?
    ensures Reaches(s, [FieldText(key, v)], name, WithField(e, KeyOf(key), Read(v)), base)
  {
    FieldLineReads(key, v);
    TakeOne(s, FieldText(key, v));
    assert s.skills[name] == e;
    Overwritten(base, name, e, WithField(e, KeyOf(key), Read(v)));
  }

  lemma Overwritten(base: TextPolicy, name: Text, e: TextEntry, f: TextEntry)
    ensures base[name := e][name := f] == base[name := f]
  {
  }

  lemma FieldLeads(key: Text, v: Text, name: Text, e: TextEntry, base: TextPolicy)
    requires KeyText(key) && 0x23 !in key && OneLine(v)
    requires KeyOf(key).TierKey? || KeyOf(key).FamilyKey? || KeyOf(key).NotesKey?
    ensures Leads([FieldText(key, v)], name, e, WithField(e, KeyOf(key), Read(v)), base)
  {
    forall s | At(s, name, e, base) ensures Reaches(s, [FieldText(key, v)], name, WithField(e, KeyOf(key), Read(v)), base) {
      FieldTaken(s, key, v, name, e, base);
    }
  }

  lemma OptionLeads(key: Text, v: Option<Text>, name: Text, e: TextEntry, base: TextPolicy)
    requires KeyText(key) && 0x23 !in key && LineOption(v)
    requires KeyOf(key).TierKey? || KeyOf(key).FamilyKey? || KeyOf(key).NotesKey?
    ensures Leads(OptionalText(key, v), name, e, if ReadOption(v).None? then e else WithField(e, KeyOf(key), Read(v.value)), base)
  {
    if v.Some? && v.value != [] { FieldLeads(key, v.value, name, e, base); } else { LeadsNowhere(name, e, base); }
  }

  // ---- lists ----

  function WithList(e: TextEntry, k: ListKey, items: seq<Text>): TextEntry { e.(lists := e.lists[k := items]) }

  /** Inside the list `k`. */
  ghost predicate InList(s: State, name: Text, e: TextEntry, base: TextPolicy, k: ListKey) {
    At(s, name, e, base) && s.list == Some(k)
  }

  lemma ItemStep(s: State, x: Text, name: Text, e: TextEntry, base: TextPolicy, k: ListKey, done: seq<Text>)
    requires InList(s, name, WithList(e, k, done), base, k)
    ensures var next := Take(s, ItemLine(x));
            next.Some? && InList(next.value, name, WithList(e, k, done + [StripQuotes(x)]), base, k)
  {
    MoreItems(e, k, done, done + [StripQuotes(x)]);
    Overwritten(base, name, WithList(e, k, done), WithList(e, k, done + [StripQuotes(x)]));
    assert s.skills[name] == WithList(e, k, done);
  }

  lemma MoreItems(e: TextEntry, k: ListKey, done: seq<Text>, more: seq<Text>)
    ensures WithList(WithList(e, k, done), k, more) == WithList(e, k, more) && WithList(e, k, done).lists[k] == done
  {
    assert e.lists[k := done][k := more] == e.lists[k := more];
  }

  function ItemText(v: Text): Text { Spaces(6) + [0x2D, 32] + v }

  lemma ItemTaken(s: State, v: Text)
    requires Sound(s) && OneLine(v)
    ensures TakeAll(s, [ItemText(v)]) == Take(s, ItemLine(Trim(Cut(v))))
  {
    ItemLineReads(v);
    TakeOne(s, ItemText(v));
  }

  lemma ThenTake(s: State, line: Text, next: State, rest: seq<Text>)
    requires Sound(s) && TakeAll(s, [line]) == Some(next)
    ensures TakeAll(s, [line] + rest) == TakeAll(next, rest)
  {
    TakeAppend(s, [line], rest);
  }

  lemma {:induction false} ItemsTaken(s: State, items: seq<Text>, name: Text, e: TextEntry, base: TextPolicy, k: ListKey, done: seq<Text>)
    requires LineItems(items) && InList(s, name, WithList(e, k, done), base, k)
    ensures TakeAll(s, ItemTexts(items)).Some?
    ensures At(TakeAll(s, ItemTexts(items)).value, name, WithList(e, k, done + ReadItems(items)), base)
    decreases |items|
  {
    if items == [] {
      assert done + ReadItems(items) == done;
    } else {
      var v, rest := items[0], items[1..];
      ItemTaken(s, v);
      ItemStep(s, Trim(Cut(v)), name, e, base, k, done);
      var next := Take(s, ItemLine(Trim(Cut(v)))).value;
      ItemsTaken(next, rest, name, e, base, k, done + [Read(v)]);
      ThenTake(s, ItemText(v), next, ItemTexts(rest));
      Regroup(done, items);
    }
  }

  lemma Regroup(done: seq<Text>, items: seq<Text>)
    requires items != []
    ensures ItemTexts(items) == [ItemText(items[0])] + ItemTexts(items[1..])
    ensures done + [Read(items[0])] + ReadItems(items[1..]) == done + ReadItems(items)
  {
  }

  lemma ListNames(k: ListKey)
    ensures KeyOf(ListName(k)) == ListField(k) && KeyText(ListName(k)) && 0x23 !in ListName(k)
  {
    ListKeyOf(k);
    ListKeyText(k);
  }

  lemma ListKeyText(k: ListKey)
    ensures KeyText(ListName(k)) && 0x23 !in ListName(k)
  {
    if k.Aliases? || k.AvoidFor? || k.Overlaps? { ShortKeyText(k); } else { LongKeyText(k); }
  }

  lemma ShortKeyText(k: ListKey)
    requires k.Aliases? || k.AvoidFor? || k.Overlaps?
    ensures KeyText(ListName(k)) && 0x23 !in ListName(k)
  {
    var s := if k.Aliases? then "aliases" else if k.AvoidFor? then "avoid_for" else "overlaps";
    assert Lower("aliases", 0) && Lower("avoid_for", 0) && Lower("overlaps", 0);
    LiteralKey(s);
  }

  lemma LongKeyText(k: ListKey)
    requires k.PreferredFor? || k.Supersedes?
    ensures KeyText(ListName(k)) && 0x23 !in ListName(k)
  {
    var s := if k.PreferredFor? then "preferred_for" else "supersedes";
    assert Lower("preferred_for", 0) && Lower("supersedes", 0);
    LiteralKey(s);
  }

  /** No two keys have the same length. */
  lemma ListKeyOf(k: ListKey)
    ensures KeyOf(ListName(k)) == ListField(k)
  {
    LengthsDiffer();
  }

  lemma LengthsDiffer()
    ensures |Literal("tier")| == 4 && |Literal("family")| == 6 && |Literal("notes")| == 5 && |Literal("aliases")| == 7
    ensures |Literal("preferred_for")| == 13 && |Literal("avoid_for")| == 9 && |Literal("overlaps")| == 8 && |Literal("supersedes")| == 10
  {
  }

  lemma FieldNames()
    ensures KeyOf(Literal("tier")) == TierKey && KeyOf(Literal("family")) == FamilyKey && KeyOf(Literal("notes")) == NotesKey
    ensures KeyText(Literal("tier")) && KeyText(Literal("family")) && KeyText(Literal("notes"))
    ensures 0x23 !in Literal("tier") && 0x23 !in Literal("family") && 0x23 !in Literal("notes")
  {
    LengthsDiffer();
    LiteralKey("tier");
    LiteralKey("family");
    LiteralKey("notes");
  }

  predicate Lower(s: string, i: nat)
    requires i <= |s|
    decreases |s| - i
  {
    i == |s| || (('a' <= s[i] <= 'z' || s[i] == '_') && Lower(s, i + 1))
  }

  lemma {:induction false} LowerUnits(s: string, i: nat)
    requires i <= |s| && Lower(s, i)
    ensures forall j :: i <= j < |s| ==> 'a' <= s[j] <= 'z' || s[j] == '_'
    decreases |s| - i
  {
    if i < |s| { LowerUnits(s, i + 1); }
  }

  lemma LiteralKey(s: string)
    requires Lower(s, 0) && s != ""
    ensures KeyText(Literal(s)) && 0x23 !in Literal(s)
  {
    LowerUnits(s, 0);
  }

  function HeadText(k: ListKey): Text { Spaces(4) + ListName(k) + [0x3A] }

  lemma HeadTaken(s: State, e: TextEntry, k: ListKey, name: Text, base: TextPolicy)
    requires At(s, name, e, base)
    ensures TakeAll(s, [HeadText(k)]).Some? && InList(TakeAll(s, [HeadText(k)]).value, name, WithList(e, k, []), base, k)
  {
    ListNames(k);
    ListLineReads(ListName(k));
    TakeOne(s, HeadText(k));
    assert s.skills[name] == e;
    Overwritten(base, name, e, WithList(e, k, []));
  }

  lemma ListTaken(s: State, e: TextEntry, k: ListKey, items: seq<Text>, name: Text, base: TextPolicy)
    requires At(s, name, e, base) && LineItems(items)
    ensures Reaches(s, [HeadText(k)] + ItemTexts(items), name, WithList(e, k, ReadItems(items)), base)
  {
    HeadTaken(s, e, k, name, base);
    var next := TakeAll(s, [HeadText(k)]).value;
    ItemsTaken(next, items, name, e, base, k, []);
    TakeAppend(s, [HeadText(k)], ItemTexts(items));
    AppendNothing(ReadItems(items));
  }

  lemma AppendNothing(items: seq<Text>)
    ensures [] + items == items
  {
  }

  lemma ListLeads(e: TextEntry, k: ListKey, items: seq<Text>, name: Text, base: TextPolicy)
    requires LineItems(items)
    ensures Leads([HeadText(k)] + ItemTexts(items), name, e, WithList(e, k, ReadItems(items)), base)
  {
    forall s | At(s, name, e, base) ensures Reaches(s, [HeadText(k)] + ItemTexts(items), name, WithList(e, k, ReadItems(items)), base) {
      ListTaken(s, e, k, items, name, base);
    }
  }

  function Restrict(lists: map<ListKey, seq<Text>>, keys: seq<ListKey>): map<ListKey, seq<Text>> {
    map k | k in lists && k in keys :: lists[k]
  }

  /** The lists of an entry are filled in the fixed order of their keys. */
  lemma {:induction false} ListsLead(e: TextEntry, done: seq<ListKey>, keys: seq<ListKey>, f: TextEntry, name: Text, base: TextPolicy)
    requires LineEntry(e) && f.lists == Restrict(ReadLists(e.lists), done)
    ensures Leads(ListsTexts(e, keys), name, f, f.(lists := Restrict(ReadLists(e.lists), done + keys)), base)
    decreases |keys|
  {
    if keys == [] {
      assert done + keys == done;
      LeadsNowhere(name, f, base);
    } else {
      var k := keys[0];
      var g := f.(lists := Restrict(ReadLists(e.lists), done + [k]));
      OneListLeads(e, done, k, f, name, base);
      ListsLead(e, done + [k], keys[1..], g, name, base);
      NextKey(done, keys);
      LeadsOn(ListTexts(e, k), ListsTexts(e, keys[1..]), name, f, g, g.(lists := Restrict(ReadLists(e.lists), done + keys)), base);
    }
  }

  lemma NextKey(done: seq<ListKey>, keys: seq<ListKey>)
    requires keys != []
    ensures done + [keys[0]] + keys[1..] == done + keys
  {
  }

  lemma RestrictOne(lists: map<ListKey, seq<Text>>, done: seq<ListKey>, k: ListKey)
    ensures Restrict(lists, done + [k]) == if k in lists then Restrict(lists, done)[k := lists[k]] else Restrict(lists, done)
  {
  }

  lemma OneListLeads(e: TextEntry, done: seq<ListKey>, k: ListKey, f: TextEntry, name: Text, base: TextPolicy)
    requires LineEntry(e) && f.lists == Restrict(ReadLists(e.lists), done)
    ensures Leads(ListTexts(e, k), name, f, f.(lists := Restrict(ReadLists(e.lists), done + [k])), base)
  {
    RestrictOne(ReadLists(e.lists), done, k);
    if k in e.lists && e.lists[k] != [] {
      ListLeads(f, k, e.lists[k], name, base);
    } else {
      LeadsNowhere(name, f, base);
    }
  }

  lemma AllLists(lists: map<ListKey, seq<Text>>)
    ensures Restrict(lists, LIST_KEYS) == lists
  {
    forall k: ListKey ensures k in LIST_KEYS {
      match k {
        case Aliases => assert LIST_KEYS[0] == k;
        case PreferredFor => assert LIST_KEYS[1] == k;
        case AvoidFor => assert LIST_KEYS[2] == k;
        case Overlaps => assert LIST_KEYS[3] == k;
        case Supersedes => assert LIST_KEYS[4] == k;
      }
    }
  }

  // ---- entries and policies ----

  lemma LastLead(e: TextEntry, name: Text, f: TextEntry, base: TextPolicy)
    requires LineEntry(e) && f == EMPTY.(tier := ReadOption(e.tier), family := ReadOption(e.family))
    ensures Leads(ListsTexts(e, LIST_KEYS) + OptionalText(Literal("notes"), e.notes), name, f, ReadEntry(e), base)
  {
    FieldNames();
    var g := f.(lists := ReadLists(e.lists));
    assert Restrict(ReadLists(e.lists), []) == map[] && [] + LIST_KEYS == LIST_KEYS;
    ListsLead(e, [], LIST_KEYS, f, name, base);
    AllLists(ReadLists(e.lists));
    OptionLeads(Literal("notes"), e.notes, name, g, base);
    assert (if ReadOption(e.notes).None? then g else WithField(g, NotesKey, Read(e.notes.value))) == ReadEntry(e);
    LeadsOn(ListsTexts(e, LIST_KEYS), OptionalText(Literal("notes"), e.notes), name, f, g, ReadEntry(e), base);
  }

  /** The lines of an entry build exactly what is read of it. */
  lemma EntryLeads(e: TextEntry, name: Text, base: TextPolicy)
    requires LineEntry(e)
    ensures Leads(OptionalText(Literal("tier"), e.tier) + (OptionalText(Literal("family"), e.family)
                  + (ListsTexts(e, LIST_KEYS) + OptionalText(Literal("notes"), e.notes))), name, EMPTY, ReadEntry(e), base)
  {
    TierLeads(e, name, base);
    FamilyLeads(e, name, base);
    var e1 := EMPTY.(tier := ReadOption(e.tier));
    var e2 := e1.(family := ReadOption(e.family));
    LastLead(e, name, e2, base);
    LeadsThrough(OptionalText(Literal("tier"), e.tier), OptionalText(Literal("family"), e.family),
                 ListsTexts(e, LIST_KEYS) + OptionalText(Literal("notes"), e.notes), name, EMPTY, e1, e2, ReadEntry(e), base);
  }

  lemma TierLeads(e: TextEntry, name: Text, base: TextPolicy)
    requires LineEntry(e)
    ensures Leads(OptionalText(Literal("tier"), e.tier), name, EMPTY, EMPTY.(tier := ReadOption(e.tier)), base)
  {
    FieldNames();
    OptionLeads(Literal("tier"), e.tier, name, EMPTY, base);
  }

  lemma FamilyLeads(e: TextEntry, name: Text, base: TextPolicy)
    requires LineEntry(e)
    ensures Leads(OptionalText(Literal("family"), e.family), name, EMPTY.(tier := ReadOption(e.tier)),
                  EMPTY.(tier := ReadOption(e.tier), family := ReadOption(e.family)), base)
  {
    FieldNames();
    OptionLeads(Literal("family"), e.family, name, EMPTY.(tier := ReadOption(e.tier)), base);
  }

  lemma LeadsThrough(a: seq<Text>, b: seq<Text>, c: seq<Text>, name: Text,
                     e: TextEntry, f: TextEntry, g: TextEntry, h: TextEntry, base: TextPolicy)
    requires Leads(a, name, e, f, base) && Leads(b, name, f, g, base) && Leads(c, name, g, h, base)
    ensures Leads(a + (b + c), name, e, h, base)
  {
    LeadsOn(b, c, name, f, g, h, base);
    LeadsOn(a, b + c, name, e, f, h, base);
  }

  lemma EntryTaken(s: State, name: Text, e: TextEntry)
    requires Sound(s) && ExactName(name) && LineEntry(e) && name !in s.skills
    ensures var r := TakeAll(s, EntryTexts(name, e)); r.Some? && At(r.value, name, ReadEntry(e), s.skills)
  {
    var head := Spaces(2) + name + [0x3A];
    var body := OptionalText(Literal("tier"), e.tier) + (OptionalText(Literal("family"), e.family)
                + (ListsTexts(e, LIST_KEYS) + OptionalText(Literal("notes"), e.notes)));
    SkillLineReads(name);
    TakeOne(s, head);
    var next := TakeAll(s, [head]).value;
    assert At(next, name, EMPTY, s.skills);
    EntryLeads(e, name, s.skills);
    TakeAppend(s, [head], body);
  }

  predicate NoRepeats(order: seq<Text>) { forall i, j :: 0 <= i < j < |order| ==> order[i] != order[j] }

  predicate LinePolicy(p: TextPolicy) { forall n :: n in p ==> ExactName(n) && LineEntry(p[n]) }

  function Part(p: TextPolicy, order: seq<Text>): TextPolicy { map n | n in p && n in order :: ReadEntry(p[n]) }

  lemma ThenTakeAll(s: State, a: seq<Text>, next: State, rest: seq<Text>)
    requires Sound(s) && TakeAll(s, a) == Some(next)
    ensures TakeAll(s, a + rest) == TakeAll(next, rest)
  {
    TakeAppend(s, a, rest);
  }

  lemma RegroupNames(done: seq<Text>, order: seq<Text>)
    ensures order == [] ==> done + order == done
    ensures order != [] ==> done + [order[0]] + order[1..] == done + order
  {
  }

  lemma {:induction false} EntriesTaken(s: State, p: TextPolicy, done: seq<Text>, order: seq<Text>)
    requires Sound(s) && LinePolicy(p) && NoRepeats(done + order) && s.skills == Part(p, done)
    requires forall i :: 0 <= i < |order| ==> order[i] in p
    ensures TakeAll(s, PolicyTexts(p, order)).Some? && TakeAll(s, PolicyTexts(p, order)).value.skills == Part(p, done + order)
    decreases |order|
  {
    RegroupNames(done, order);
    if order != [] {
      var n := order[0];
      NewName(done, order);
      EntryTaken(s, n, p[n]);
      var next := TakeAll(s, EntryTexts(n, p[n])).value;
      PartMore(p, done, n);
      EntriesTaken(next, p, done + [n], order[1..]);
      ThenTakeAll(s, EntryTexts(n, p[n]), next, PolicyTexts(p, order[1..]));
    }
  }

  lemma NewName(done: seq<Text>, order: seq<Text>)
    requires order != [] && NoRepeats(done + order)
    ensures order[0] !in done
  {
    var all := done + order;
    assert all[|done|] == order[0];
    forall k | 0 <= k < |done| ensures done[k] != order[0] { assert all[k] == done[k]; }
  }

  lemma PartMore(p: TextPolicy, done: seq<Text>, n: Text)
    requires n in p
    ensures Part(p, done + [n]) == Part(p, done)[n := ReadEntry(p[n])]
  {
  }

  // ---- lines and text ----

  /** A line that splitting does not change. */
  predicate Whole(line: Text) { 0x0A !in line && (line != [] ==> line[|line| - 1] != 0x0D) }

  lemma {:induction false} SplitFirst(line: Text, rest: Text)
    requires Whole(line)
    ensures SplitLines(line + [0x0A] + rest) == [line] + SplitLines(rest)
  {
    var t := line + [0x0A] + rest;
    if line == [] {
      assert t[1..] == rest;
    } else {
      assert t[1..] == line[1..] + [0x0A] + rest;
      assert t[0] == line[0] && t[1] == if |line| > 1 then line[1] else 0x0A;
      SplitFirst(line[1..], rest);
      assert line == [line[0]] + line[1..];
    }
  }

  lemma {:induction false} SplitJoined(lines: seq<Text>)
    requires forall i :: 0 <= i < |lines| ==> Whole(lines[i])
    ensures SplitLines(JoinLines(lines)) == lines + [[]]
  {
    if lines != [] {
      SplitJoined(lines[1..]);
      SplitFirst(lines[0], JoinLines(lines[1..]));
      assert lines == [lines[0]] + lines[1..];
    }
  }

  predicate AllWhole(lines: seq<Text>) { forall i :: 0 <= i < |lines| ==> Whole(lines[i]) }

  lemma ValueWhole(before: Text, v: Text)
    requires 0x0A !in before && before != [] && before[|before| - 1] != 0x0D && OneLine(v)
    ensures Whole(before + v)
  {
    assert forall i :: 0 <= i < |v| ==> !Terminator(v[i]);
  }

  lemma {:induction false} ItemsWhole(items: seq<Text>)
    requires LineItems(items)
    ensures AllWhole(ItemTexts(items))
  {
    if items != [] {
      ValueWhole(Spaces(6) + [0x2D, 32], items[0]);
      ItemsWhole(items[1..]);
    }
  }

  lemma OptionWhole(key: Text, v: Option<Text>)
    requires KeyText(key) && LineOption(v)
    ensures AllWhole(OptionalText(key, v))
  {
    if v.Some? { ValueWhole(Spaces(4) + key + [0x3A, 32], v.value); }
  }

  lemma WholeAppend(a: seq<Text>, b: seq<Text>)
    requires AllWhole(a) && AllWhole(b)
    ensures AllWhole(a + b)
  {
  }

  lemma ListWhole(e: TextEntry, k: ListKey)
    requires LineEntry(e)
    ensures AllWhole(ListTexts(e, k))
  {
    if k in e.lists {
      ListKeyText(k);
      ItemsWhole(e.lists[k]);
      assert Whole(HeadText(k));
      WholeAppend([HeadText(k)], ItemTexts(e.lists[k]));
    }
  }

  lemma {:induction false} ListsWhole(e: TextEntry, keys: seq<ListKey>)
    requires LineEntry(e)
    ensures AllWhole(ListsTexts(e, keys))
  {
    if keys != [] {
      ListWhole(e, keys[0]);
      ListsWhole(e, keys[1..]);
      WholeAppend(ListTexts(e, keys[0]), ListsTexts(e, keys[1..]));
    }
  }

  lemma EntryWhole(name: Text, e: TextEntry)
    requires 0x0A !in name && LineEntry(e)
    ensures AllWhole(EntryTexts(name, e))
  {
    LiteralKey("tier");
    LiteralKey("family");
    LiteralKey("notes");
    OptionWhole(Literal("tier"), e.tier);
    OptionWhole(Literal("family"), e.family);
    OptionWhole(Literal("notes"), e.notes);
    ListsWhole(e, LIST_KEYS);
    assert Whole(Spaces(2) + name + [0x3A]);
  }

  lemma {:induction false} PolicyWhole(p: TextPolicy, order: seq<Text>)
    requires forall i :: 0 <= i < |order| ==> order[i] in p && 0x0A !in order[i] && LineEntry(p[order[i]])
    ensures AllWhole(PolicyTexts(p, order))
  {
    if order != [] {
      EntryWhole(order[0], p[order[0]]);
      PolicyWhole(p, order[1..]);
    }
  }

  lemma HeadLinesTaken(rest: seq<Text>)
    ensures TakeAll(START, [Literal("version: 1"), Literal("skills:")] + rest) == TakeAll(START, rest)
  {
    var v, k := Literal("version: 1"), Literal("skills:");
    VersionLineRead();
    SkillsLineRead();
    TakeOne(START, v);
    TakeOne(START, k);
    TakeAppend(START, [v], [k]);
    assert [v] + [k] == [v, k];
    TakeAppend(START, [v, k], rest);
  }

  lemma BodyTaken(p: TextPolicy, order: seq<Text>)
    requires LinePolicy(p) && NoRepeats(order) && forall n :: n in order <==> n in p
    ensures var r := TakeAll(START, PolicyTexts(p, order) + [[]]); r.Some? && r.value.skills == Part(p, order)
  {
    assert [] + order == order && Part(p, []) == map[];
    EntriesTaken(START, p, [], order);
    TakeAppend(START, PolicyTexts(p, order), [[]]);
    TakeOne(TakeAll(START, PolicyTexts(p, order)).value, []);
    assert Classify(Clean([])) == Blank;
  }

  /** The lines of a printed policy are taken as they were printed. */
  lemma PrintedLines(p: TextPolicy, order: seq<Text>)
    requires forall i :: 0 <= i < |order| ==> order[i] in p && 0x0A !in order[i] && LineEntry(p[order[i]])
    ensures Parse(Render(p, order)) ==
              match TakeAll(START, PolicyTexts(p, order) + [[]]) case None => None case Some(s) => Some(s.skills)
  {
    var head := [Literal("version: 1"), Literal("skills:")];
    var body := PolicyTexts(p, order);
    PolicyWhole(p, order);
    HeadWhole();
    SplitJoined(head + body);
    assert head + body + [[]] == head + (body + [[]]);
    HeadLinesTaken(body + [[]]);
  }

  /** Where names survive and every text is one line, each entry comes back as it is read. */
  lemma PrintedReads(p: TextPolicy, order: seq<Text>)
    requires LinePolicy(p) && NoRepeats(order) && forall n :: n in order <==> n in p
    ensures Parse(Render(p, order)) == Some(Part(p, order))
  {
    forall i | 0 <= i < |order| ensures order[i] in p && ExactName(order[i]) && LineEntry(p[order[i]]) {
      assert order[i] in order;
    }
    PrintedLines(p, order);
    BodyTaken(p, order);
  }

  lemma HeadWhole()
    ensures Whole(Literal("version: 1")) && Whole(Literal("skills:"))
  {
    var v, k := Literal("version: 1"), Literal("skills:");
    forall i | 0 <= i < |v| ensures v[i] != 0x0A {
      assert "version: 1"[i] != '\n';
    }
    forall i | 0 <= i < |k| ensures k[i] != 0x0A {
      assert "skills:"[i] != '\n';
    }
    assert v[9] == 0x31 && k[6] == 0x3A;
  }
}
