/** An accepted manifest whose bytes depend on the order of its files. */
module ManifestWitness {
  import opened Common
  import opened Bytes
  import opened Lexical
  import opened Sequences
  import opened Sorting
  import opened TextEncoding
  import opened Utf16
  import opened ManifestModel
  import opened ManifestTheorems
  import opened ManifestCanonical
  import CanonicalJson
  import Decimals
  import Utf8

  // ---- a bound on the canonical bytes ----

  function DocSize(d: CanonicalJson.Doc): nat
    decreases d, 1
  {
    match d
    case Bool(_) => 5
    case Num(n) => |Decimals.Decimal(n)|
    case Str(t) => 2 + 6 * |t|
    case Arr(items) => 2 + ItemsSize(items)
    case Obj(members) => 2 + PairsSize(members)
  }

  function ItemsSize(items: seq<CanonicalJson.Doc>): nat
    decreases items, 0
  {
    if items == [] then 0 else DocSize(items[0]) + 1 + ItemsSize(items[1..])
  }

  function PairSize(p: (Utf8.Text, CanonicalJson.Doc)): nat
    decreases p, 2
  {
    4 + 6 * |p.0| + DocSize(p.1)
  }

  function PairsSize(pairs: seq<(Utf8.Text, CanonicalJson.Doc)>): nat
    decreases pairs, 0
  {
    if pairs == [] then 0 else PairSize(pairs[0]) + PairsSize(pairs[1..])
  }

  lemma {:induction false} ScalarsSize(t: Utf8.Text)
    ensures |CanonicalJson.WriteScalars(t)| <= 6 * |t|
  {
    if t != [] { ScalarsSize(t[1..]); }
  }

  lemma {:induction false} WriteSize(d: CanonicalJson.Doc)
    ensures |CanonicalJson.Write(d)| <= DocSize(d)
    decreases d, 1
  {
    match d
    case Bool(_) =>
    case Num(_) =>
    case Str(t) => ScalarsSize(t);
    case Arr(items) => WriteItemsSize(items);
    case Obj(members) => WriteMembersSize(members);
  }

  lemma {:induction false} WriteItemsSize(items: seq<CanonicalJson.Doc>)
    ensures |CanonicalJson.WriteItems(items)| <= ItemsSize(items)
    decreases items, 0
  {
    if items != [] {
      WriteSize(items[0]);
      if |items| > 1 { WriteItemsSize(items[1..]); }
    }
  }

  lemma {:induction false} WriteMemberSize(p: (Utf8.Text, CanonicalJson.Doc))
    ensures |CanonicalJson.WriteMember(p)| + 1 <= PairSize(p)
    decreases p, 2
  {
    ScalarsSize(p.0);
    WriteSize(p.1);
  }

  lemma {:induction false} WriteMembersSize(pairs: seq<(Utf8.Text, CanonicalJson.Doc)>)
    ensures |CanonicalJson.WriteMembers(pairs)| <= PairsSize(pairs)
    decreases pairs, 0
  {
    if pairs != [] {
      WriteMemberSize(pairs[0]);
      if |pairs| > 1 { WriteMembersSize(pairs[1..]); }
    }
  }

  lemma {:induction false} InsertSize(x: (Utf8.Text, CanonicalJson.Doc), s: seq<(Utf8.Text, CanonicalJson.Doc)>)
    ensures PairsSize(InsertBy(x, s, MemberBelow)) == PairSize(x) + PairsSize(s)
  {
    if s == [] || MemberBelow(x, s[0]) {
      assert ([x] + s)[1..] == s;
    } else {
      InsertSize(x, s[1..]);
      var rest := InsertBy(x, s[1..], MemberBelow);
      assert ([s[0]] + rest)[1..] == rest;
    }
  }

  lemma {:induction false} LastSize(s: seq<(Utf8.Text, CanonicalJson.Doc)>)
    requires s != []
    ensures PairsSize(s) == PairsSize(s[..|s| - 1]) + PairSize(s[|s| - 1])
  {
    if |s| > 1 {
      LastSize(s[1..]);
      assert s[1..][..|s| - 2] == s[..|s| - 1][1..];
    }
  }

  lemma {:induction false} SortSize(s: seq<(Utf8.Text, CanonicalJson.Doc)>)
    ensures PairsSize(SortBy(s, MemberBelow)) == PairsSize(s)
  {
    if s != [] {
      SortSize(s[..|s| - 1]);
      InsertSize(s[|s| - 1], SortBy(s[..|s| - 1], MemberBelow));
      LastSize(s);
    }
  }

  lemma {:induction false} ScalarsShorter(t: Text)
    ensures |Scalars(t)| <= |t|
    decreases |t|
  {
    if t != [] {
      ScalarsShorter(t[1..]);
      if |t| >= 2 { ScalarsShorter(t[2..]); }
    }
  }

  // ---- sizes of values ----

  /** The value is written in at most `bound` bytes. */
  ghost predicate Small(v: Value, depth: nat, bound: nat) {
    DocOf(v, depth).Some? && DocSize(DocOf(v, depth).value) <= bound
  }

  lemma {:induction false} PairsSmall(members: Members, depth: nat, key: nat, bound: nat)
    requires forall i :: 0 <= i < |members| ==> |members[i].0| <= key && Small(members[i].1, depth, bound)
    ensures PairsOf(members, depth).Some? && PairsSize(PairsOf(members, depth).value) <= |members| * (4 + 6 * key + bound)
  {
    if members != [] {
      PairsSmall(members[1..], depth, key, bound);
      assert |members[0].0| <= key && Small(members[0].1, depth, bound);
      ScalarsShorter(members[0].0);
      assert PairOf(members[0], depth).Some?;
      var pairs, rest := PairsOf(members, depth).value, PairsOf(members[1..], depth).value;
      assert pairs[1..] == rest;
      OneMoreTimes(|members| - 1, 4 + 6 * key + bound);
    }
  }

  lemma OneMoreTimes(n: nat, k: nat)
    ensures (n + 1) * k == n * k + k
  {
  }

  lemma ObjSmall(members: Members, depth: nat, key: nat, bound: nat)
    requires depth <= 10 && forall i :: 0 <= i < |members| ==> |members[i].0| <= key && Small(members[i].1, depth + 1, bound)
    ensures Small(Obj(members), depth, 2 + |members| * (4 + 6 * key + bound))
  {
    PairsSmall(members, depth + 1, key, bound);
    SortSize(PairsOf(members, depth + 1).value);
  }

  lemma {:induction false} ItemsSmall(items: seq<Value>, depth: nat, bound: nat)
    requires forall i :: 0 <= i < |items| ==> Small(items[i], depth, bound)
    ensures DocsOf(items, depth).Some? && ItemsSize(DocsOf(items, depth).value) <= |items| * (1 + bound)
  {
    if items != [] {
      ItemsSmall(items[1..], depth, bound);
      var docs, rest := DocsOf(items, depth).value, DocsOf(items[1..], depth).value;
      assert docs[1..] == rest;
      OneMoreTimes(|items| - 1, 1 + bound);
    }
  }

  lemma TextSmall(t: Text, depth: nat)
    requires |t| <= 200 && depth <= 10
    ensures Small(Str(t), depth, 1_202)
  {
    ScalarsShorter(t);
  }

  lemma DigitSmall(n: nat, depth: nat)
    requires n < 10 && depth <= 10
    ensures Small(Num(n), depth, 1_202)
  {
  }

  // ---- manifests the rules accept ----

  ghost predicate TextSuits(t: Text, field: Field, rules: Rules) {
    TextOf(Some(Str(t)), field, rules) == Some(t) && |t| <= 200
  }

  ghost predicate FileSuits(f: File, rules: Rules) {
    && rules.path(f.path) && |f.path| <= 200 && f.size < 10
    && TextSuits(f.mediaType, MediaType, rules) && TextSuits(f.digest, FileDigest, rules)
  }

  /** A manifest of short texts that the rules accept as they are. */
  ghost predicate Suits(m: Manifest, rules: Rules) {
    && rules.schema(m.schema) && |m.schema| <= 200
    && TextSuits(m.logicalId, LogicalId, rules) && TextSuits(m.publicId, PublicId, rules)
    && TextSuits(m.name, Name, rules) && TextSuits(m.description, Description, rules)
    && TextSuits(m.authority, Authority, rules) && TextSuits(m.kind, Kind, rules)
    && TextSuits(m.namespace, Namespace, rules) && TextSuits(m.sourceId, SourceId, rules) && TextSuits(m.revision, Revision, rules)
    && TextSuits(m.publisherId, PublisherId, rules) && TextSuits(m.ingestId, IngestId, rules) && TextSuits(m.createdAt, CreatedAt, rules)
    && 1 <= m.manifestMajor < 10 && 1 <= m.minimumMajor < 10
    && |m.files| == 2 && FileSuits(m.files[0], rules) && FileSuits(m.files[1], rules) && Distinct(m.files, rules)
  }

  lemma FileSmall(f: File, rules: Rules)
    requires FileSuits(f, rules)
    ensures Small(FileValue(f), 3, 7_002)
  {
    var o := FileValue(f).members;
    TextSmall(f.path, 4); TextSmall(f.mediaType, 4); TextSmall(f.digest, 4); DigitSmall(f.size, 4);
    assert Small(Bool(f.executable), 4, 1_202);
    ObjSmall(o, 3, 22, 1_202);
  }

  lemma IdentitySmall(m: Manifest, rules: Rules)
    requires Suits(m, rules)
    ensures Small(IdentityValue(m), 2, 14_008)
  {
    TextSmall(m.logicalId, 3);
    TextSmall(m.publicId, 3);
    ObjSmall(IdentityValue(m).members, 2, 22, 1_202);
  }

  lemma DisplaySmall(m: Manifest, rules: Rules)
    requires Suits(m, rules)
    ensures Small(DisplayValue(m), 2, 14_008)
  {
    TextSmall(m.name, 3);
    TextSmall(m.description, 3);
    ObjSmall(DisplayValue(m).members, 2, 22, 1_202);
  }

  lemma SourceSmall(m: Manifest, rules: Rules)
    requires Suits(m, rules)
    ensures Small(SourceValue(m), 2, 14_008)
  {
    TextSmall(m.authority, 3);
    TextSmall(m.kind, 3);
    TextSmall(m.namespace, 3);
    TextSmall(m.sourceId, 3);
    TextSmall(m.revision, 3);
    ObjSmall(SourceValue(m).members, 2, 22, 1_202);
  }

  lemma ProvenanceSmall(m: Manifest, rules: Rules)
    requires Suits(m, rules)
    ensures Small(ProvenanceValue(m), 2, 14_008)
  {
    TextSmall(m.publisherId, 3);
    TextSmall(m.ingestId, 3);
    TextSmall(m.createdAt, 3);
    ObjSmall(ProvenanceValue(m).members, 2, 22, 1_202);
  }

  lemma CompatibilitySmall(m: Manifest, rules: Rules)
    requires Suits(m, rules)
    ensures Small(CompatibilityValue(m), 2, 14_008)
  {
    DigitSmall(m.manifestMajor, 3);
    DigitSmall(m.minimumMajor, 3);
    ObjSmall(CompatibilityValue(m).members, 2, 22, 1_202);
  }

  lemma FilesSmall(m: Manifest, rules: Rules)
    requires Suits(m, rules)
    ensures Small(Arr(FileValues(m.files)), 2, 14_008)
  {
    FileSmall(m.files[0], rules);
    FileSmall(m.files[1], rules);
    ItemsSmall(FileValues(m.files), 3, 7_002);
  }

  lemma BytesSmall(m: Manifest, rules: Rules)
    requires Suits(m, rules)
    ensures CanonicalBytes(m).Some? && |CanonicalBytes(m).value| <= 262_144
  {
    IdentitySmall(m, rules);
    DisplaySmall(m, rules);
    SourceSmall(m, rules);
    ProvenanceSmall(m, rules);
    CompatibilitySmall(m, rules);
    FilesSmall(m, rules);
    TextSmall(m.schema, 2);
    var top := TopMembers(m);
    forall i | 0 <= i < |top| ensures |top[i].0| <= 14 && Small(top[i].1, 2, 14_008) {
    }
    ObjSmall(top, 1, 14, 14_008);
    WriteSize(DocOf(Obj(top), 1).value);
  }

  // ---- such a manifest is accepted ----

  lemma IdentityParses(m: Manifest, rules: Rules)
    requires Suits(m, rules)
    ensures IdentityOf(Some(IdentityValue(m)), rules) == Some(Identity(m.logicalId, m.publicId))
  {
    IdentityKeys(m);
    MemberAt(IdentityValue(m).members, 0); MemberAt(IdentityValue(m).members, 1);
  }

  lemma DisplayParses(m: Manifest, rules: Rules)
    requires Suits(m, rules)
    ensures DisplayOf(Some(DisplayValue(m)), rules) == Some(Display(m.name, m.description))
  {
    DisplayKeys(m);
    MemberAt(DisplayValue(m).members, 0); MemberAt(DisplayValue(m).members, 1);
  }

  lemma CompatibilityParses(m: Manifest, rules: Rules)
    requires Suits(m, rules)
    ensures CompatibilityOf(Some(CompatibilityValue(m))) == Some(Compatibility(m.manifestMajor, m.minimumMajor))
  {
    CompatibilityKeys(m);
    MemberAt(CompatibilityValue(m).members, 0); MemberAt(CompatibilityValue(m).members, 1);
  }

  lemma SourceParses(m: Manifest, rules: Rules)
    requires Suits(m, rules)
    ensures SourceOf(Some(SourceValue(m)), rules) == Some(Source(m.authority, m.kind, m.namespace, m.sourceId, m.revision))
  {
    var o := SourceValue(m).members;
    SourceKeys(m);
    MemberAt(o, 0); MemberAt(o, 1); MemberAt(o, 2); MemberAt(o, 3); MemberAt(o, 4);
  }

  lemma ProvenanceParses(m: Manifest, rules: Rules)
    requires Suits(m, rules)
    ensures ProvenanceOf(Some(ProvenanceValue(m)), rules) == Some(Provenance(m.publisherId, m.ingestId, m.createdAt))
  {
    var o := ProvenanceValue(m).members;
    ProvenanceKeys(m);
    MemberAt(o, 0); MemberAt(o, 1); MemberAt(o, 2);
  }

  lemma FileParses(f: File, rules: Rules)
    requires FileSuits(f, rules)
    ensures FileOf(FileValue(f), rules) == Some(f)
  {
    var p := FileValue(f).members;
    FileKeys(f);
    MemberAt(p, 0); MemberAt(p, 1); MemberAt(p, 2); MemberAt(p, 3); MemberAt(p, 4);
  }

  lemma FilesParse(m: Manifest, rules: Rules)
    requires Suits(m, rules)
    ensures FileListOf(Some(Arr(FileValues(m.files))), rules) == Some(m.files)
  {
    FileParses(m.files[0], rules);
    FileParses(m.files[1], rules);
    SettledParse(m.files, rules);
  }

  lemma TopFinds(m: Manifest)
    ensures var o := TopMembers(m);
            && Member(o, Literal("schema_version")) == Some(Str(m.schema)) && Member(o, Literal("identity")) == Some(IdentityValue(m))
            && Member(o, Literal("display")) == Some(DisplayValue(m)) && Member(o, Literal("source")) == Some(SourceValue(m))
            && Member(o, Literal("files")) == Some(Arr(FileValues(m.files)))
            && Member(o, Literal("provenance")) == Some(ProvenanceValue(m))
            && Member(o, Literal("compatibility")) == Some(CompatibilityValue(m))
    ensures Member(TopMembers(m), Literal("manifest_digest")) == None && AllKnown(TopMembers(m))
  {
    var o := TopMembers(m);
    TopKeys(m);
    MemberAt(o, 0); MemberAt(o, 1); MemberAt(o, 2); MemberAt(o, 3); MemberAt(o, 4); MemberAt(o, 5); MemberAt(o, 6);
    var c := Canonical(m, [], []);
    OutputKeys(c);
    var all := Output(c);
    forall i | 0 <= i < |o| ensures o[i].0 != Literal("manifest_digest") && Known(o[i].0) { assert all[i] == o[i] && all[7].0 == Literal("manifest_digest"); }
    MemberNone(o, Literal("manifest_digest"));
  }

  lemma Projects(m: Manifest, rules: Rules)
    requires Suits(m, rules) && SortFiles(m.files) == m.files
    ensures Projection(TopMembers(m), rules) == Some(m)
  {
    TopFinds(m);
    IdentityParses(m, rules);
    DisplayParses(m, rules);
    CompatibilityParses(m, rules);
    SourceParses(m, rules);
    ProvenanceParses(m, rules);
    FilesParse(m, rules);
  }

  lemma Accepts(input: Members, m: Manifest, bytes: seq<byte>, rules: Rules)
    requires Projection(input, rules) == Some(m) && CanonicalBytes(m) == Some(bytes) && |bytes| <= 262_144
    requires Member(input, Literal("manifest_digest")) == None
    ensures Canonicalize(input, rules) == Some(Canonical(m, bytes, rules.digest(bytes)))
  {
  }

  lemma NoDigest(m: Manifest)
    ensures Member(TopMembers(m), Literal("manifest_digest")) == None
  {
    TopFinds(m);
  }

  lemma Accepted(m: Manifest, rules: Rules)
    requires Suits(m, rules) && SortFiles(m.files) == m.files
    ensures CanonicalBytes(m).Some?
    ensures Canonicalize(TopMembers(m), rules) == Some(Canonical(m, CanonicalBytes(m).value, rules.digest(CanonicalBytes(m).value)))
  {
    Projects(m, rules);
    NoDigest(m);
    BytesSmall(m, rules);
    Accepts(TopMembers(m), m, CanonicalBytes(m).value, rules);
  }

  // ---- the failing input ----

  lemma EqualPathsStay(f: File, g: File)
    requires Utf8Of(f.path) == Utf8Of(g.path)
    ensures SortFiles([f, g]) == [f, g]
  {
    NotBelowItself(Utf8Of(f.path));
    SortKeepsAscending([f, g], FileBelow);
  }

  lemma Swapped(m: Manifest, f: File, g: File)
    ensures InputReordered(TopMembers(m.(files := [f, g])), TopMembers(m.(files := [g, f])))
  {
    var a, b := m.(files := [f, g]), m.(files := [g, f]);
    TopFinds(a);
    TopFinds(b);
    var x, y := FileValues(a.files), FileValues(b.files);
    assert x == [FileValue(f), FileValue(g)] && y == [FileValue(g), FileValue(f)];
    assert multiset(y) == multiset(x) && EachReordered(y, y);
    assert FilesReordered(Some(Arr(x)), Some(Arr(y)));
  }

  lemma SuitsSwapped(m: Manifest, f: File, g: File, rules: Rules)
    requires Suits(m.(files := [f, g]), rules)
    ensures Suits(m.(files := [g, f]), rules)
  {
    var x := m.(files := [f, g]);
    assert x.files[0] == f && x.files[1] == g;
  }

  lemma SizesTell(x: Manifest, y: Manifest)
    requires x.files != [] && y.files != [] && x.files[0].size != y.files[0].size
    ensures CanonicalBytes(x) != CanonicalBytes(y)
  {
    BytesTell(x, y);
    assert !SameFile(x.files[0], y.files[0]);
  }

  /** Of two files whose paths have the same bytes, either order is accepted, and the
      two orders have different canonical bytes if anything else in the files differs,
      as their sizes do here. */
  lemma FailingInput(m: Manifest, f: File, g: File, rules: Rules)
    requires Suits(m.(files := [f, g]), rules) && Utf8Of(f.path) == Utf8Of(g.path) && f.size != g.size
    ensures var a, b := TopMembers(m.(files := [f, g])), TopMembers(m.(files := [g, f]));
            && InputReordered(a, b) && Canonicalize(a, rules).Some? && Canonicalize(b, rules).Some?
            && Canonicalize(a, rules).value.bytes != Canonicalize(b, rules).value.bytes
  {
    var x, y := m.(files := [f, g]), m.(files := [g, f]);
    Swapped(m, f, g);
    SuitsSwapped(m, f, g, rules);
    EqualPathsStay(f, g);
    EqualPathsStay(g, f);
    Accepted(x, rules);
    Accepted(y, rules);
    SizesTell(x, y);
  }

  /** Rules that let short lower-case texts and any path through, and fold nothing. */
  function Lenient(): Rules {
    Rules((t: Text) => t, (t: Text) => false, (f: Field, t: Text) => true, (t: Text) => true, (t: Text) => true, (t: Text) => t,
          (b: seq<byte>) => [0x61])
  }

  /** Such inputs exist: two paths of one lone surrogate each. */
  lemma FailingInputExists()
    ensures exists rules, a, b ::
              && InputReordered(a, b) && Canonicalize(a, rules).Some? && Canonicalize(b, rules).Some?
              && Canonicalize(a, rules).value.bytes != Canonicalize(b, rules).value.bytes
  {
    var t: Text := [0x61];
    var f, g := File([0xD800], t, 0, t, false), File([0xD801], t, 1, t, false);
    var m := Manifest(t, t, t, t, t, t, t, t, t, t, [f, g], t, t, t, 1, 1);
    LoneSurrogatesCollapse(0xD800);
    LoneSurrogatesCollapse(0xD801);
    assert Suits(m.(files := [f, g]), Lenient());
    FailingInput(m, f, g, Lenient());
  }
}
