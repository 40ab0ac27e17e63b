/** The text form of a version 1 policy: the printer, and the line loop of the parser. */
module PolicyText {
  import opened Common
  import opened Utf16
  import opened PolicyModel

  datatype ListKey = Aliases | PreferredFor | AvoidFor | Overlaps | Supersedes

  /** An entry as it is parsed, before its tier is checked. */
  datatype TextEntry = TextEntry(tier: Option<Text>, family: Option<Text>, notes: Option<Text>, lists: map<ListKey, seq<Text>>)

  const EMPTY: TextEntry := TextEntry(None, None, None, map[])

  type TextPolicy = map<Text, TextEntry>

  const LIST_KEYS: seq<ListKey> := [Aliases, PreferredFor, AvoidFor, Overlaps, Supersedes]

  function ListName(k: ListKey): Text {
    match k
    case Aliases => Literal("aliases")
    case PreferredFor => Literal("preferred_for")
    case AvoidFor => Literal("avoid_for")
    case Overlaps => Literal("overlaps")
    case Supersedes => Literal("supersedes")
  }

  datatype FieldKey = TierKey | FamilyKey | NotesKey | ListField(list: ListKey) | UnknownKey

  function KeyOf(name: Text): FieldKey {
    if name == Literal("tier") then TierKey
    else if name == Literal("family") then FamilyKey
    else if name == Literal("notes") then NotesKey
    else if name == Literal("aliases") then ListField(Aliases)
    else if name == Literal("preferred_for") then ListField(PreferredFor)
    else if name == Literal("avoid_for") then ListField(AvoidFor)
    else if name == Literal("overlaps") then ListField(Overlaps)
    else if name == Literal("supersedes") then ListField(Supersedes)
    else UnknownKey
  }

  // ---- lines ----

  predicate Terminator(u: Unit) { u == 0x0A || u == 0x0D || u == 0x2028 || u == 0x2029 }

  predicate OneLine(t: Text) { forall i :: 0 <= i < |t| ==> !Terminator(t[i]) }

  /** Without the comment: from the first `#` after which the line does not break. */
  function StripComment(line: Text): Text {
    if line == [] then []
    else if line[0] == 0x23 && OneLine(line) then []
    else [line[0]] + StripComment(line[1..])
  }

  function Clean(line: Text): Text { TrimEnd(StripComment(line)) }

  predicate KeyChar(u: Unit) { 0x41 <= u <= 0x5A || 0x61 <= u <= 0x7A || 0x30 <= u <= 0x39 || u == 0x5F }

  /** How many key characters a text starts with. */
  function KeyLength(t: Text): (n: nat)
    ensures n <= |t|
    ensures n < |t| ==> !KeyChar(t[n])
  {
    if t == [] || !KeyChar(t[0]) then 0 else 1 + KeyLength(t[1..])
  }

  /** `n` spaces. */
  function Spaces(n: nat): (t: Text)
    ensures |t| == n
    ensures forall i :: 0 <= i < n ==> t[i] == 32
  {
    seq(n, _ => 32)
  }

  datatype Line = Blank | Header | SkillLine(name: Text) | FieldLine(key: Text, value: Text) | ItemLine(value: Text) | Ignored

  predicate VersionLine(t: Text) {
    Literal("version:") <= t && Trim(t[8..]) == [0x31]
  }

  predicate SkillsLine(t: Text) { Literal("skills:") <= t && Trim(t[7..]) == [] }

  /** Two spaces, a name that starts with no space, and a colon at the end. */
  predicate IsSkillLine(t: Text) {
    && |t| >= 4 && t[..2] == Spaces(2) && !Space(t[2]) && t[|t| - 1] == 0x3A
    && forall i :: 3 <= i < |t| - 1 ==> t[i] != 0x3A
  }

  /** Four spaces, a key, a colon and a value on one line. */
  predicate IsFieldLine(t: Text) {
    && |t| >= 5 && t[..4] == Spaces(4)
    && var n := KeyLength(t[4..]);
       n > 0 && 4 + n < |t| && t[4 + n] == 0x3A && OneLine(TrimStart(t[5 + n..]))
  }

  predicate IsItemLine(t: Text) { |t| >= 7 && t[..6] == Spaces(6) && t[6] == 0x2D && OneLine(TrimStart(t[7..])) }

  /** What a cleaned line is. */
  function Classify(t: Text): Line {
    if Trim(t) == [] then Blank
    else if VersionLine(t) || SkillsLine(t) then Header
    else if IsSkillLine(t) then SkillLine(Trim(t[2..|t| - 1]))
    else if IsFieldLine(t) then
      var n := KeyLength(t[4..]);
      FieldLine(t[4..4 + n], TrimStart(t[5 + n..]))
    else if IsItemLine(t) then ItemLine(TrimStart(t[7..]))
    else Ignored
  }

  function StripQuotes(v: Text): Text {
    var t := Trim(v);
    if t != [] && (t[0] == 0x22 || t[0] == 0x27) && t[|t| - 1] == t[0] then if |t| == 1 then [] else t[1..|t| - 1] else t
  }

  // ---- the parser ----

  datatype State = State(skills: TextPolicy, skill: Option<Text>, list: Option<ListKey>)

  const START: State := State(map[], None, None)

  /** An unsupported field fails the parse. */
  function SetField(s: State, name: Text, key: FieldKey, value: Text): Option<State>
    requires name in s.skills
  {
    var e := s.skills[name];
    match key
    case ListField(k) =>
      Some(s.(skills := s.skills[name := e.(lists := e.lists[k := if value == [] then [] else [StripQuotes(value)]])], list := Some(k)))
    case TierKey => Some(s.(skills := s.skills[name := e.(tier := Some(StripQuotes(value)))], list := None))
    case FamilyKey => Some(s.(skills := s.skills[name := e.(family := Some(StripQuotes(value)))], list := None))
    case NotesKey => Some(s.(skills := s.skills[name := e.(notes := Some(StripQuotes(value)))], list := None))
    case UnknownKey => None
  }

  predicate Sound(s: State) { s.skill.Some? ==> s.skill.value in s.skills }

  function Take(s: State, line: Line): (r: Option<State>)
    requires Sound(s)
    ensures r.Some? ==> Sound(r.value)
  {
    match line
    case SkillLine(name) => Some(State(if name in s.skills then s.skills else s.skills[name := EMPTY], Some(name), None))
    case FieldLine(key, value) => if s.skill.None? then Some(s) else SetField(s, s.skill.value, KeyOf(key), value)
    case ItemLine(value) =>
      if s.skill.None? || s.list.None? then Some(s)
      else
        var e := s.skills[s.skill.value];
        var before := if s.list.value in e.lists then e.lists[s.list.value] else [];
        Some(s.(skills := s.skills[s.skill.value := e.(lists := e.lists[s.list.value := before + [StripQuotes(value)]])]))
    case _ => Some(s)
  }

  function TakeAll(s: State, lines: seq<Text>): (r: Option<State>)
    requires Sound(s)
    ensures r.Some? ==> Sound(r.value)
    decreases |lines|
  {
    if lines == [] then Some(s)
    else match Take(s, Classify(Clean(lines[0])))
      case None => None
      case Some(next) => TakeAll(next, lines[1..])
  }

  /** `split(/\\r?\\n/)`. */
  function SplitLines(t: Text): (lines: seq<Text>)
    ensures lines != []
  {
    if t == [] then [[]]
    else if t[0] == 0x0A then [[]] + SplitLines(t[1..])
    else if t[0] == 0x0D && |t| > 1 && t[1] == 0x0A then [[]] + SplitLines(t[2..])
    else
      var rest := SplitLines(t[1..]);
      [[t[0]] + rest[0]] + rest[1..]
  }

  function Parse(t: Text): Option<TextPolicy> {
    match TakeAll(START, SplitLines(t)) case None => None case Some(s) => Some(s.skills)
  }

  /** The body of the line loop. */
  method TakeLine(s: State, line: Line) returns (r: Option<State>)
    requires Sound(s)
    ensures r == Take(s, line)
  {
    match line {
      case SkillLine(name) =>
        var skills := s.skills;
        if name !in skills { skills := skills[name := EMPTY]; }
        return Some(State(skills, Some(name), None));
      case FieldLine(key, value) =>
        if s.skill.None? { return Some(s); }
        return SetField(s, s.skill.value, KeyOf(key), value);
      case ItemLine(value) =>
        if s.skill.None? || s.list.None? { return Some(s); }
        var e := s.skills[s.skill.value];
        var list := if s.list.value in e.lists then e.lists[s.list.value] else [];
        list := list + [StripQuotes(value)];
        return Some(s.(skills := s.skills[s.skill.value := e.(lists := e.lists[s.list.value := list])]));
      case _ => return Some(s);
    }
  }

  /** `parsePolicyYaml`. */
  method ParsePolicy(t: Text) returns (r: Option<TextPolicy>)
    ensures r == Parse(t)
  {
    var lines := SplitLines(t);
    var s := START;
    assert lines[0..] == lines;
    for i := 0 to |lines|
      invariant Sound(s) && TakeAll(START, lines) == TakeAll(s, lines[i..])
    {
      assert lines[i..][1..] == lines[i + 1..];
      var next := TakeLine(s, Classify(Clean(lines[i])));
      if next.None? { return None; }
      s := next.value;
    }
    return Some(s.skills);
  }

  // ---- the printer ----

  function FieldText(key: Text, value: Text): Text { Spaces(4) + key + [0x3A, 32] + value }

  function ItemTexts(items: seq<Text>): seq<Text> {
    if items == [] then [] else [Spaces(6) + [0x2D, 32] + items[0]] + ItemTexts(items[1..])
  }

  function OptionalText(key: Text, value: Option<Text>): seq<Text> {
    if value.None? || value.value == [] then [] else [FieldText(key, value.value)]
  }

  function ListTexts(e: TextEntry, k: ListKey): seq<Text> {
    if k !in e.lists || e.lists[k] == [] then [] else [Spaces(4) + ListName(k) + [0x3A]] + ItemTexts(e.lists[k])
  }

  function ListsTexts(e: TextEntry, keys: seq<ListKey>): seq<Text> {
    if keys == [] then [] else ListTexts(e, keys[0]) + ListsTexts(e, keys[1..])
  }

  function EntryTexts(name: Text, e: TextEntry): seq<Text> {
    [Spaces(2) + name + [0x3A]]
    + (OptionalText(Literal("tier"), e.tier) + (OptionalText(Literal("family"), e.family)
       + (ListsTexts(e, LIST_KEYS) + OptionalText(Literal("notes"), e.notes))))
  }

  /** `order` lists the names as they are sorted. */
  function PolicyTexts(p: TextPolicy, order: seq<Text>): seq<Text>
    requires forall i :: 0 <= i < |order| ==> order[i] in p
  {
    if order == [] then [] else EntryTexts(order[0], p[order[0]]) + PolicyTexts(p, order[1..])
  }

  function JoinLines(lines: seq<Text>): Text {
    if lines == [] then [] else lines[0] + [0x0A] + JoinLines(lines[1..])
  }

  /** `renderPolicy`. */
  function Render(p: TextPolicy, order: seq<Text>): Text
    requires forall i :: 0 <= i < |order| ==> order[i] in p
  {
    JoinLines([Literal("version: 1"), Literal("skills:")] + PolicyTexts(p, order))
  }

  // ---- what survives ----

  /** A value up to the first comment sign. */
  function Cut(v: Text): (r: Text)
    ensures r <= v && 0x23 !in r
  {
    if v == [] || v[0] == 0x23 then [] else [v[0]] + Cut(v[1..])
  }

  /** What the parser makes of a printed value of one line. */
  function Read(v: Text): Text { StripQuotes(Trim(Cut(v))) }

  /** A value that its line gives back. */
  predicate ExactValue(v: Text) { OneLine(v) && 0x23 !in v && Trim(v) == v && StripQuotes(v) == v }

  /** No comment sign of the name starts a comment on its line. */
  predicate Uncommented(n: Text) { StripComment(n + [0x3A]) == n + [0x3A] }

  /** A name that its line gives back. */
  predicate ExactName(n: Text) { n != [] && 0x0A !in n && Trim(n) == n && 0x3A !in n[1..] && Uncommented(n) }

  predicate ExactOption(v: Option<Text>) { v.Some? ==> v.value != [] && ExactValue(v.value) }

  predicate ExactItems(items: seq<Text>) { items != [] && forall i :: 0 <= i < |items| ==> ExactValue(items[i]) }

  /** Texts that are there are not empty, and lists that are there have items. */
  predicate ExactEntry(e: TextEntry) {
    && ExactOption(e.tier) && ExactOption(e.family) && ExactOption(e.notes)
    && forall k :: k in e.lists ==> ExactItems(e.lists[k])
  }

  predicate ExactPolicy(p: TextPolicy) { forall n :: n in p ==> ExactName(n) && ExactEntry(p[n]) }

  // ---- what the parser makes of texts of one line ----

  predicate LineOption(v: Option<Text>) { v.Some? ==> OneLine(v.value) }

  predicate LineItems(items: seq<Text>) { forall i :: 0 <= i < |items| ==> OneLine(items[i]) }

  predicate LineEntry(e: TextEntry) {
    LineOption(e.tier) && LineOption(e.family) && LineOption(e.notes) && forall k :: k in e.lists ==> LineItems(e.lists[k])
  }

  function ReadOption(v: Option<Text>): Option<Text> {
    if v.None? || v.value == [] then None else Some(Read(v.value))
  }

  function ReadItems(items: seq<Text>): (r: seq<Text>)
    ensures |r| == |items|
    ensures forall i :: 0 <= i < |items| ==> r[i] == Read(items[i])
  {
    if items == [] then [] else [Read(items[0])] + ReadItems(items[1..])
  }

  function ReadLists(lists: map<ListKey, seq<Text>>): map<ListKey, seq<Text>> {
    map k | k in lists && lists[k] != [] :: ReadItems(lists[k])
  }

  function ReadEntry(e: TextEntry): TextEntry {
    TextEntry(ReadOption(e.tier), ReadOption(e.family), ReadOption(e.notes), ReadLists(e.lists))
  }
}
