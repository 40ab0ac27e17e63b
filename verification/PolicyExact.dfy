/** Which lines, and which policies, their own text gives back. */
module PolicyExact {
  import opened Common
  import opened Utf16
  import opened PolicyModel
  import opened PolicyText
  import opened PolicyRoundTrip

  // ---- one line ----

  lemma TrimShorter(w: Text)
    ensures |Trim(w)| <= |w|
    ensures OneLine(w) ==> OneLine(Trim(w)) && OneLine(StripQuotes(w))
    ensures |StripQuotes(w)| <= |w|
  {
    StartSuffix(w);
  }

  lemma {:induction false} CutShorter(v: Text)
    ensures Cut(v) == v <==> 0x23 !in v
    ensures |Cut(v)| == |v| ==> Cut(v) == v
  {
    if v != [] && v[0] != 0x23 {
      CutShorter(v[1..]);
      assert v == [v[0]] + v[1..];
    }
  }

  /** Reading never makes a text longer, so it keeps one only by keeping all of it. */
  lemma ReadKeeps(v: Text)
    requires OneLine(v)
    ensures Read(v) == v <==> ExactValue(v)
  {
    CutShorter(v);
    TrimShorter(Cut(v));
    TrimShorter(Trim(Cut(v)));
    if Read(v) == v {
      assert |v| <= |Trim(Cut(v))| <= |Cut(v)| <= |v|;
      assert Cut(v) == v;
      TrimSameLength(v);
    }
  }

  lemma TrimSameLength(v: Text)
    requires |Trim(v)| == |v|
    ensures Trim(v) == v
  {
    StartShrinks(v);
    assert |Trim(v)| <= |TrimStart(v)|;
  }

  /** The line of a field gives its value back. */
  predicate FieldReturns(key: Text, v: Text) {
    var line := Classify(Clean(FieldText(key, v)));
    line.FieldLine? && line.key == key && StripQuotes(line.value) == v
  }

  lemma FieldReturnsIff(key: Text, v: Text)
    requires KeyText(key) && 0x23 !in key
    ensures FieldReturns(key, v) <==> ExactValue(v)
  {
    var line := Classify(Clean(FieldText(key, v)));
    if line.FieldLine? { TrimShorter(line.value); }
    if OneLine(v) {
      FieldLineReads(key, v);
      ReadKeeps(v);
    }
  }

  predicate ItemReturns(v: Text) {
    var line := Classify(Clean(ItemText(v)));
    line.ItemLine? && StripQuotes(line.value) == v
  }

  lemma ItemReturnsIff(v: Text)
    ensures ItemReturns(v) <==> ExactValue(v)
  {
    var line := Classify(Clean(ItemText(v)));
    if line.ItemLine? { TrimShorter(line.value); }
    if OneLine(v) {
      ItemLineReads(v);
      ReadKeeps(v);
    }
  }

  // ---- the line of a name ----

  function HeadLine(n: Text): Text { Spaces(2) + n + [0x3A] }

  lemma {:induction false} StripPrefix(t: Text)
    ensures StripComment(t) <= t
  {
    if t != [] {
      StripPrefix(t[1..]);
      assert t == [t[0]] + t[1..];
    }
  }

  lemma CleanPrefix(t: Text)
    ensures Clean(t) <= t
    ensures Clean(t) == t ==> StripComment(t) == t
  {
    StripPrefix(t);
  }

  /** Only the last colon ends the line. */
  lemma LastColon(n: Text, c: Text)
    requires n != [] && 0x3A !in n[1..] && c <= HeadLine(n) && |c| >= 4 && c[|c| - 1] == 0x3A
    ensures c == HeadLine(n)
  {
    forall k | 3 <= k < |n| + 2 ensures HeadLine(n)[k] != 0x3A { assert HeadLine(n)[k] == n[k - 2] == n[1..][k - 3]; }
    assert c[|c| - 1] == HeadLine(n)[|c| - 1];
  }

  /** The name of a line, without the spaces at its end. */
  lemma NameOf(t: Text)
    requires IsSkillLine(t)
    ensures Trim(t[2..|t| - 1]) == TrimEnd(t[2..|t| - 1]) != []
    ensures ReadName(Trim(t[2..|t| - 1])) || 0x0A in t
  {
    var w := t[2..|t| - 1];
    var n := Trim(w);
    assert w[0] == t[2] && n == TrimEnd(w) <= w;
    TrimNotEmpty(w, 0);
    assert Trim(n) == n;
    forall i | 0 <= i < |n[1..]| ensures n[1..][i] != 0x3A { assert n[1..][i] == w[i + 1] == t[i + 3]; }
    if 0x0A in n {
      var i :| 0 <= i < |n| && n[i] == 0x0A;
      assert t[i + 2] == w[i] == 0x0A;
    }
  }

  lemma HeadUncommented(n: Text)
    requires Clean(HeadLine(n)) == HeadLine(n)
    ensures Uncommented(n)
  {
    CleanPrefix(HeadLine(n));
    assert HeadLine(n) == Spaces(2) + (n + [0x3A]);
    FrontStays(Spaces(2), n + [0x3A]);
  }

  lemma HeadReturnsIff(n: Text)
    requires 0x0A !in n
    ensures Classify(Clean(HeadLine(n))) == SkillLine(n) <==> ExactName(n)
  {
    if Classify(Clean(HeadLine(n))) == SkillLine(n) { HeadReturned(n, Clean(HeadLine(n))); }
    if ExactName(n) { SkillLineReads(n); }
  }

  lemma HeadReturned(n: Text, c: Text)
    requires 0x0A !in n && c == Clean(HeadLine(n)) && IsSkillLine(c) && n == Trim(c[2..|c| - 1])
    ensures ExactName(n)
  {
    CleanPrefix(HeadLine(n));
    NameOf(c);
    assert |n| <= |c| - 3;
    SameLength(c, HeadLine(n));
    HeadUncommented(n);
  }

  lemma SameLength(c: Text, t: Text)
    requires c <= t && |c| >= |t|
    ensures c == t
  {
  }

  // ---- what the parser gives ----

  /** What the parser makes names of. */
  predicate ReadName(n: Text) { n != [] && 0x0A !in n && Trim(n) == n && 0x3A !in n[1..] }

  predicate ReadPolicy(p: TextPolicy) { forall n :: n in p ==> ReadName(n) && LineEntry(p[n]) }

  lemma FieldKeeps(s: State, name: Text, key: FieldKey, value: Text)
    requires name in s.skills && ReadPolicy(s.skills) && OneLine(value)
    ensures var r := SetField(s, name, key, value); r.Some? ==> ReadPolicy(r.value.skills)
  {
    TrimShorter(value);
    assert LineEntry(s.skills[name]);
  }

  lemma ItemKeeps(s: State, value: Text)
    requires Sound(s) && ReadPolicy(s.skills) && OneLine(value)
    ensures ReadPolicy(Take(s, ItemLine(value)).value.skills)
  {
    TrimShorter(value);
    if s.skill.Some? && s.list.Some? {
      var e := s.skills[s.skill.value];
      assert LineEntry(e);
    }
  }

  lemma SkillKeeps(s: State, name: Text)
    requires Sound(s) && ReadPolicy(s.skills) && ReadName(name)
    ensures ReadPolicy(Take(s, SkillLine(name)).value.skills)
  {
  }

  /** What a line without a line feed can be. */
  predicate ReadLine(line: Line) {
    match line
    case SkillLine(name) => ReadName(name)
    case FieldLine(_, value) => OneLine(value)
    case ItemLine(value) => OneLine(value)
    case _ => true
  }

  lemma LineGives(t: Text)
    requires 0x0A !in t
    ensures ReadLine(Classify(t))
  {
    if IsSkillLine(t) { NameOf(t); }
  }

  lemma TakeKeeps(s: State, text: Text)
    requires Sound(s) && ReadPolicy(s.skills) && 0x0A !in text
    ensures var r := Take(s, Classify(Clean(text))); r.Some? ==> ReadPolicy(r.value.skills)
  {
    CleanPrefix(text);
    assert 0x0A !in Clean(text);
    LineGives(Clean(text));
    LineKeeps(s, Classify(Clean(text)));
  }

  lemma LineKeeps(s: State, line: Line)
    requires Sound(s) && ReadPolicy(s.skills) && ReadLine(line)
    ensures var r := Take(s, line); r.Some? ==> ReadPolicy(r.value.skills)
  {
    match line
    case SkillLine(name) => SkillKeeps(s, name);
    case FieldLine(key, value) => if s.skill.Some? { FieldKeeps(s, s.skill.value, KeyOf(key), value); }
    case ItemLine(value) => ItemKeeps(s, value);
    case _ =>
  }

  predicate Unbroken(lines: seq<Text>) { forall i :: 0 <= i < |lines| ==> 0x0A !in lines[i] }

  lemma {:induction false} AllKeep(s: State, lines: seq<Text>)
    requires Sound(s) && ReadPolicy(s.skills) && Unbroken(lines)
    ensures TakeAll(s, lines).Some? ==> ReadPolicy(TakeAll(s, lines).value.skills)
    decreases |lines|
  {
    if lines != [] {
      TakeKeeps(s, lines[0]);
      match Take(s, Classify(Clean(lines[0])))
      case None =>
      case Some(next) => AllKeep(next, lines[1..]);
    }
  }

  lemma {:induction false} SplitUnbroken(t: Text)
    ensures Unbroken(SplitLines(t))
  {
    if t == [] {
    } else if t[0] == 0x0A {
      SplitUnbroken(t[1..]);
    } else if t[0] == 0x0D && |t| > 1 && t[1] == 0x0A {
      SplitUnbroken(t[2..]);
    } else {
      SplitUnbroken(t[1..]);
    }
  }

  /** Whatever the text, the parser gives names without a colon and texts of one line. */
  lemma ParsedIsRead(t: Text)
    ensures Parse(t).Some? ==> ReadPolicy(Parse(t).value)
  {
    SplitUnbroken(t);
    AllKeep(START, SplitLines(t));
  }

  // ---- names with a comment sign are not read as names ----

  /** If the line is one of a name, the name has no comment. */
  predicate NamesPlainly(text: Text) {
    var line := Classify(Clean(text));
    line.SkillLine? ==> Uncommented(line.name)
  }

  predicate AllPlain(lines: seq<Text>) { forall i :: 0 <= i < |lines| ==> NamesPlainly(lines[i]) }

  lemma IndentedNames(text: Text)
    requires |text| >= 3 && text[..3] == Spaces(3)
    ensures NamesPlainly(text)
  {
    var t := Clean(text);
    CleanPrefix(text);
    if |t| > 3 {
      assert t[..3] == text[..3];
      NotHeaderNorSkill(t);
    }
  }

  lemma HeadNames(n: Text)
    requires ReadName(n)
    ensures NamesPlainly(HeadLine(n))
  {
    var c := Clean(HeadLine(n));
    CleanPrefix(HeadLine(n));
    if Classify(c).SkillLine? {
      LastColon(n, c);
      HeadUncommented(n);
      assert c[2..|c| - 1] == n;
    }
  }

  lemma {:induction false} ItemsPlain(items: seq<Text>)
    ensures AllPlain(ItemTexts(items))
  {
    if items != [] {
      IndentedNames(Spaces(6) + [0x2D, 32] + items[0]);
      ItemsPlain(items[1..]);
    }
  }

  lemma OptionPlain(key: Text, v: Option<Text>)
    ensures AllPlain(OptionalText(key, v))
  {
    if v.Some? { IndentedNames(FieldText(key, v.value)); }
  }

  lemma {:induction false} ListsPlain(e: TextEntry, keys: seq<ListKey>)
    ensures AllPlain(ListsTexts(e, keys))
  {
    if keys != [] {
      ListPlain(e, keys[0]);
      ListsPlain(e, keys[1..]);
      PlainAppend(ListTexts(e, keys[0]), ListsTexts(e, keys[1..]));
    }
  }

  lemma ListPlain(e: TextEntry, k: ListKey)
    ensures AllPlain(ListTexts(e, k))
  {
    if k in e.lists {
      IndentedNames(HeadText(k));
      ItemsPlain(e.lists[k]);
      PlainAppend([HeadText(k)], ItemTexts(e.lists[k]));
    }
  }

  lemma PlainAppend(a: seq<Text>, b: seq<Text>)
    requires AllPlain(a) && AllPlain(b)
    ensures AllPlain(a + b)
  {
  }

  lemma EntryPlain(name: Text, e: TextEntry)
    requires ReadName(name)
    ensures AllPlain(EntryTexts(name, e))
  {
    HeadNames(name);
    OptionPlain(Literal("tier"), e.tier);
    OptionPlain(Literal("family"), e.family);
    OptionPlain(Literal("notes"), e.notes);
    ListsPlain(e, LIST_KEYS);
  }

  lemma {:induction false} PolicyPlain(p: TextPolicy, order: seq<Text>)
    requires forall i :: 0 <= i < |order| ==> order[i] in p && ReadName(order[i])
    ensures AllPlain(PolicyTexts(p, order))
  {
    if order != [] {
      EntryPlain(order[0], p[order[0]]);
      PolicyPlain(p, order[1..]);
    }
  }

  predicate PlainNames(p: TextPolicy) { forall n :: n in p ==> Uncommented(n) }

  lemma TakePlain(s: State, text: Text)
    requires Sound(s) && PlainNames(s.skills) && NamesPlainly(text)
    ensures var r := Take(s, Classify(Clean(text))); r.Some? ==> PlainNames(r.value.skills)
  {
    LinePlain(s, Classify(Clean(text)));
  }

  lemma LinePlain(s: State, line: Line)
    requires Sound(s) && PlainNames(s.skills) && (line.SkillLine? ==> Uncommented(line.name))
    ensures var r := Take(s, line); r.Some? ==> PlainNames(r.value.skills)
  {
    if line.FieldLine? && s.skill.Some? { FieldPlain(s, s.skill.value, KeyOf(line.key), line.value); }
  }

  lemma FieldPlain(s: State, name: Text, key: FieldKey, value: Text)
    requires name in s.skills && PlainNames(s.skills)
    ensures var r := SetField(s, name, key, value); r.Some? ==> PlainNames(r.value.skills)
  {
  }

  lemma {:induction false} AllTakenPlain(s: State, lines: seq<Text>)
    requires Sound(s) && PlainNames(s.skills) && AllPlain(lines)
    ensures TakeAll(s, lines).Some? ==> PlainNames(TakeAll(s, lines).value.skills)
    decreases |lines|
  {
    if lines != [] {
      TakePlain(s, lines[0]);
      match Take(s, Classify(Clean(lines[0])))
      case None =>
      case Some(next) => AllTakenPlain(next, lines[1..]);
    }
  }

  lemma BlankPlain()
    ensures NamesPlainly([])
  {
  }

  lemma ReturnedIsPlain(p: TextPolicy, order: seq<Text>)
    requires ReadPolicy(p) && (forall n :: n in order <==> n in p) && Parse(Render(p, order)).Some?
    ensures PlainNames(Parse(Render(p, order)).value)
  {
    forall i | 0 <= i < |order| ensures order[i] in p && ReadName(order[i]) && LineEntry(p[order[i]]) {
      assert order[i] in order;
    }
    PrintedLines(p, order);
    PolicyPlain(p, order);
    BlankPlain();
    AllTakenPlain(START, PolicyTexts(p, order) + [[]]);
  }

  // ---- policies ----

  lemma OptionExact(v: Option<Text>)
    requires LineOption(v)
    ensures ReadOption(v) == v <==> ExactOption(v)
  {
    if v.Some? { ReadKeeps(v.value); }
  }

  lemma ItemsExact(items: seq<Text>)
    requires LineItems(items)
    ensures ReadItems(items) == items <==> forall i :: 0 <= i < |items| ==> ExactValue(items[i])
  {
    forall i | 0 <= i < |items| ensures Read(items[i]) == items[i] <==> ExactValue(items[i]) { ReadKeeps(items[i]); }
  }

  lemma ListsExact(lists: map<ListKey, seq<Text>>)
    requires forall k :: k in lists ==> LineItems(lists[k])
    ensures ReadLists(lists) == lists <==> forall k :: k in lists ==> ExactItems(lists[k])
  {
    forall k | k in lists ensures (ReadItems(lists[k]) == lists[k] && lists[k] != []) <==> ExactItems(lists[k]) {
      ItemsExact(lists[k]);
    }
    if ReadLists(lists) == lists {
      forall k | k in lists ensures ExactItems(lists[k]) {
        assert k in ReadLists(lists) && ReadLists(lists)[k] == lists[k];
      }
    }
  }

  lemma EntryExact(e: TextEntry)
    requires LineEntry(e)
    ensures ReadEntry(e) == e <==> ExactEntry(e)
  {
    OptionExact(e.tier);
    OptionExact(e.family);
    OptionExact(e.notes);
    ListsExact(e.lists);
  }

  lemma ExactIsLine(p: TextPolicy)
    requires ExactPolicy(p)
    ensures LinePolicy(p) && forall n :: n in p ==> ReadEntry(p[n]) == p[n]
  {
    forall n | n in p ensures LineEntry(p[n]) && ReadEntry(p[n]) == p[n] { EntryExact(p[n]); }
  }

  /** A printed policy comes back unchanged exactly if it is exact. */
  lemma PrintedParsesIff(p: TextPolicy, order: seq<Text>)
    requires NoRepeats(order) && forall n :: n in order <==> n in p
    ensures (forall i :: 0 <= i < |order| ==> order[i] in p) && (Parse(Render(p, order)) == Some(p) <==> ExactPolicy(p))
  {
    forall i | 0 <= i < |order| ensures order[i] in p { assert order[i] in order; }
    if ExactPolicy(p) {
      ExactIsLine(p);
      PrintedReads(p, order);
      assert Part(p, order) == p;
    }
    if Parse(Render(p, order)) == Some(p) { ReturnedIsExact(p, order); }
  }

  lemma ReturnedIsExact(p: TextPolicy, order: seq<Text>)
    requires NoRepeats(order) && (forall n :: n in order <==> n in p) && forall i :: 0 <= i < |order| ==> order[i] in p
    requires Parse(Render(p, order)) == Some(p)
    ensures ExactPolicy(p)
  {
    ParsedIsRead(Render(p, order));
    ReturnedIsPlain(p, order);
    assert LinePolicy(p);
    PrintedReads(p, order);
    forall n | n in p ensures ExactName(n) && ExactEntry(p[n]) {
      assert n in Part(p, order) && Part(p, order)[n] == p[n];
      EntryExact(p[n]);
    }
  }

  // ---- the comment sign ----

  lemma {:induction false} CutAt(v: Text, w: Text)
    requires 0x23 !in v
    ensures Cut(v + [0x23] + w) == v
  {
    var t := v + [0x23] + w;
    if v != [] {
      assert t[1..] == v[1..] + [0x23] + w;
      CutAt(v[1..], w);
      assert v == [v[0]] + v[1..];
    }
  }

  /** From a comment sign on, a value of one line is lost, and no error says so. */
  lemma CommentSignCuts(p: TextPolicy, n: Text, v: Text, w: Text, order: seq<Text>)
    requires LinePolicy(p) && NoRepeats(order) && (forall m :: m in order <==> m in p)
    requires n in p && p[n].notes == Some(v + [0x23] + w) && 0x23 !in v
    ensures forall i :: 0 <= i < |order| ==> order[i] in p
    ensures var r := Parse(Render(p, order)); r.Some? && n in r.value && r.value[n].notes == Some(StripQuotes(Trim(v)))
  {
    forall i | 0 <= i < |order| ensures order[i] in p { assert order[i] in order; }
    PrintedReads(p, order);
    CutAt(v, w);
  }

  /** A value that does not come back: of `x#y`, `x` is left. */
  lemma FailingPolicy(n: Text, e: TextEntry)
    requires n == [0x61] && e == EMPTY.(notes := Some([0x78, 0x23, 0x79]))
    ensures Parse(Render(map[n := e], [n])) == Some(map[n := EMPTY.(notes := Some([0x78]))])
  {
    SingleName(n);
    assert LineEntry(e) by { assert e.lists == map[]; }
    OneEntryReads(n, e);
    SignRead([0x78], [0x23], [0x79]);
    EmptyOtherwise(e);
  }

  lemma OneEntryReads(n: Text, e: TextEntry)
    requires ExactName(n) && LineEntry(e)
    ensures Parse(Render(map[n := e], [n])) == Some(map[n := ReadEntry(e)])
  {
    OneEntry(n, e, map[n := e], [n]);
    PrintedReads(map[n := e], [n]);
  }

  lemma OneEntry(n: Text, e: TextEntry, p: TextPolicy, order: seq<Text>)
    requires ExactName(n) && LineEntry(e) && p == map[n := e] && order == [n]
    ensures LinePolicy(p) && NoRepeats(order) && Part(p, order) == map[n := ReadEntry(e)]
    ensures forall m :: m in order <==> m in p
  {
  }

  lemma EmptyOtherwise(e: TextEntry)
    requires e == EMPTY.(notes := Some([0x78, 0x23, 0x79])) && Read([0x78, 0x23, 0x79]) == [0x78]
    ensures ReadEntry(e) == EMPTY.(notes := Some([0x78]))
  {
    assert ReadLists(e.lists) == map[];
  }

  lemma SignRead(v: Text, sign: Text, w: Text)
    requires v == [0x78] && sign == [0x23] && w == [0x79]
    ensures Read([0x78, 0x23, 0x79]) == v
  {
    CutAt(v, w);
    assert v + [0x23] + w == [0x78, 0x23, 0x79];
  }

  lemma SingleName(n: Text)
    requires n == [0x61]
    ensures ExactName(n)
  {
    NoComment(n + [0x3A]);
  }
}
