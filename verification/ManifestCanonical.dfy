/** Canonicalizing twice, in another order, and telling manifests apart by digest. */
module ManifestCanonical {
  import opened Common
  import opened Bytes
  import opened Lexical
  import opened Sequences
  import opened Sorting
  import opened TextEncoding
  import opened Utf16
  import opened ManifestModel
  import opened ManifestTheorems
  import CanonicalJson

  // ---- the path checks ----

  /** `parseFile` over the list, with the sets of seen paths and folded paths. */
  method ParseFiles(items: seq<Value>, rules: Rules) returns (r: Option<seq<File>>)
    ensures r == match FilesOf(items, rules)
                 case None => None
                 case Some(files) => if Distinct(files, rules) then Some(files) else None
  {
    var files: seq<File> := [];
    var caseFoldKeys: set<Text> := {};
    var exactPaths: set<Text> := {};
    for i := 0 to |items|
      invariant FilesOf(items[..i], rules) == Some(files) && Distinct(files, rules)
      invariant forall k :: k in caseFoldKeys <==> FoldSeen(files, rules, k)
      invariant forall p :: p in exactPaths <==> PathSeen(files, p)
    {
      FilesOneMore(items, i, rules);
      var parsed := FileOf(items[i], rules);
      if parsed.None? {
        FilesFail(items, i, rules);
        return None;
      }
      var f := parsed.value;
      var fold := rules.fold(f.path);
      if fold in caseFoldKeys || f.path in exactPaths {
        ExactPathsRedundant(files, f, rules);
        Collides(items, i, files, f, rules);
        return None;
      }
      caseFoldKeys, exactPaths := caseFoldKeys + {fold}, exactPaths + {f.path};
      SeenOneMore(files, f, rules);
      files := files + [f];
    }
    assert items[..|items|] == items;
    return Some(files);
  }

  predicate FoldSeen(files: seq<File>, rules: Rules, k: Text) { exists j :: 0 <= j < |files| && rules.fold(files[j].path) == k }

  predicate PathSeen(files: seq<File>, p: Text) { exists j :: 0 <= j < |files| && files[j].path == p }

  lemma SeenOneMore(files: seq<File>, f: File, rules: Rules)
    ensures forall k :: FoldSeen(files + [f], rules, k) <==> FoldSeen(files, rules, k) || rules.fold(f.path) == k
    ensures forall p :: PathSeen(files + [f], p) <==> PathSeen(files, p) || f.path == p
    ensures Distinct(files, rules) && !FoldSeen(files, rules, rules.fold(f.path)) ==> Distinct(files + [f], rules)
  {
    var more := files + [f];
    assert more[|files|] == f;
    forall k ensures FoldSeen(more, rules, k) <==> FoldSeen(files, rules, k) || rules.fold(f.path) == k {
      if j :| 0 <= j < |files| && rules.fold(files[j].path) == k { assert more[j] == files[j]; }
    }
    forall p ensures PathSeen(more, p) <==> PathSeen(files, p) || f.path == p {
      if j :| 0 <= j < |files| && files[j].path == p { assert more[j] == files[j]; }
    }
  }

  lemma {:induction false} FilesAppend(a: seq<Value>, b: seq<Value>, rules: Rules)
    ensures FilesOf(a + b, rules) == match (FilesOf(a, rules), FilesOf(b, rules))
                                     case (Some(x), Some(y)) => Some(x + y)
                                     case _ => None
  {
    if a == [] {
      assert a + b == b;
      if FilesOf(b, rules).Some? { assert [] + FilesOf(b, rules).value == FilesOf(b, rules).value; }
    } else {
      assert (a + b)[1..] == a[1..] + b;
      FilesAppend(a[1..], b, rules);
      if FileOf(a[0], rules).Some? && FilesOf(a[1..], rules).Some? && FilesOf(b, rules).Some? {
        Associate([FileOf(a[0], rules).value], FilesOf(a[1..], rules).value, FilesOf(b, rules).value);
      }
    }
  }

  lemma FilesOneMore(items: seq<Value>, i: nat, rules: Rules)
    requires i < |items|
    ensures FilesOf(items[..i + 1], rules) == match (FilesOf(items[..i], rules), FileOf(items[i], rules))
                                              case (Some(x), Some(f)) => Some(x + [f])
                                              case _ => None
  {
    assert items[..i + 1] == items[..i] + [items[i]] && [items[i]][1..] == [];
    FilesAppend(items[..i], [items[i]], rules);
    assert FilesOf([items[i]][1..], rules) == Some([]);
    if FileOf(items[i], rules).Some? { assert [FileOf(items[i], rules).value] + [] == [FileOf(items[i], rules).value]; }
  }

  lemma FilesFail(items: seq<Value>, i: nat, rules: Rules)
    requires i < |items| && FileOf(items[i], rules).None?
    ensures FilesOf(items, rules).None?
  {
    FilesOneMore(items, i, rules);
    assert items == items[..i + 1] + items[i + 1..];
    FilesAppend(items[..i + 1], items[i + 1..], rules);
  }

  lemma Collides(items: seq<Value>, i: nat, files: seq<File>, f: File, rules: Rules)
    requires i < |items| && FilesOf(items[..i], rules) == Some(files) && FileOf(items[i], rules) == Some(f)
    requires FoldSeen(files, rules, rules.fold(f.path))
    ensures FilesOf(items, rules).None? || !Distinct(FilesOf(items, rules).value, rules)
  {
    var front, back := items[..i + 1], items[i + 1..];
    assert items == front + back;
    FilesOneMore(items, i, rules);
    CollidesIn(front, back, files, f, rules);
  }

  lemma CollidesIn(front: seq<Value>, back: seq<Value>, files: seq<File>, f: File, rules: Rules)
    requires FilesOf(front, rules) == Some(files + [f]) && FoldSeen(files, rules, rules.fold(f.path))
    ensures FilesOf(front + back, rules).None? || !Distinct(FilesOf(front + back, rules).value, rules)
  {
    FilesAppend(front, back, rules);
    match FilesOf(back, rules)
    case None =>
    case Some(rest) => NotDistinct(files, f, rest, rules);
  }

  lemma NotDistinct(files: seq<File>, f: File, rest: seq<File>, rules: Rules)
    requires FoldSeen(files, rules, rules.fold(f.path))
    ensures !Distinct(files + [f] + rest, rules)
  {
    var all := files + [f] + rest;
    var j :| 0 <= j < |files| && rules.fold(files[j].path) == rules.fold(f.path);
    assert all[j] == files[j] && all[|files|] == f;
  }

  /** The set of exact paths never decides: equal paths fold alike. */
  lemma ExactPathsRedundant(files: seq<File>, f: File, rules: Rules)
    ensures PathSeen(files, f.path) ==> FoldSeen(files, rules, rules.fold(f.path))
  {
    if j :| 0 <= j < |files| && files[j].path == f.path { assert rules.fold(files[j].path) == rules.fold(f.path); }
  }

  // ---- sorting ----

  lemma FileOrders()
    ensures Orders(FileBelow)
  {
    forall a: File, b: File, c: File
      ensures !FileBelow(a, a)
      ensures FileBelow(a, b) && FileBelow(b, c) ==> FileBelow(a, c)
      ensures FileBelow(a, c) ==> FileBelow(a, b) || FileBelow(b, c)
    {
      NotBelowItself(Utf8Of(a.path));
      BelowTransitive(Utf8Of(a.path), Utf8Of(b.path), Utf8Of(c.path));
    }
  }

  /** The second sort, while the files are written, changes nothing. */
  lemma SecondSortIdle(files: seq<File>)
    ensures SortFiles(SortFiles(files)) == SortFiles(files)
  {
    FileOrders();
    SortAscends(files, FileBelow);
    SortKeepsAscending(SortFiles(files), FileBelow);
  }

  /** No two paths have the same UTF-8 bytes. */
  predicate PathBytesApart(files: seq<File>) {
    forall i, j :: 0 <= i < j < |files| ==> Utf8Of(files[i].path) != Utf8Of(files[j].path)
  }

  lemma PathsSeparate(files: seq<File>)
    requires PathBytesApart(files)
    ensures Separates(FileBelow, files)
  {
    forall x, y | x in files && y in files && !FileBelow(x, y) && !FileBelow(y, x) ensures x == y {
      var i :| 0 <= i < |files| && files[i] == x;
      var j :| 0 <= j < |files| && files[j] == y;
      BelowTotal(Utf8Of(x.path), Utf8Of(y.path));
      assert i == j;
    }
  }

  /** Different paths without lone surrogates have different bytes. */
  lemma WellFormedApart(files: seq<File>, rules: Rules)
    requires Distinct(files, rules) && forall i :: 0 <= i < |files| ==> WellFormed(files[i].path)
    ensures PathBytesApart(files)
  {
    forall i, j | 0 <= i < j < |files| ensures Utf8Of(files[i].path) != Utf8Of(files[j].path) {
      if Utf8Of(files[i].path) == Utf8Of(files[j].path) { BytesTellApart(files[i].path, files[j].path); }
    }
  }

  lemma DistinctIsKeyed(files: seq<File>, rules: Rules)
    ensures Distinct(files, rules) <==> DistinctBy(files, (f: File) => rules.fold(f.path))
  {
  }

  lemma DistinctAnyOrder(a: seq<File>, b: seq<File>, rules: Rules)
    requires multiset(a) == multiset(b)
    ensures Distinct(a, rules) <==> Distinct(b, rules)
  {
    DistinctIsKeyed(a, rules);
    DistinctIsKeyed(b, rules);
    if Distinct(a, rules) { DistinctPermutes(a, b, (f: File) => rules.fold(f.path)); }
    if Distinct(b, rules) { DistinctPermutes(b, a, (f: File) => rules.fold(f.path)); }
  }

  // ---- idempotence ----

  lemma TextSettles(v: Option<Value>, field: Field, rules: Rules)
    requires Lawful(rules) && TextOf(v, field, rules).Some?
    ensures TextOf(Some(Str(TextOf(v, field, rules).value)), field, rules) == TextOf(v, field, rules)
  {
  }

  lemma {:induction false} MemberAt(members: Members, k: nat)
    requires UniqueKeys(members) && k < |members|
    ensures Member(members, members[k].0) == Some(members[k].1)
  {
    if k > 0 { MemberAt(members[1..], k - 1); }
  }

  lemma {:induction false} MemberNone(members: Members, key: Text)
    requires forall i :: 0 <= i < |members| ==> members[i].0 != key
    ensures Member(members, key) == None
  {
    if members != [] { MemberNone(members[1..], key); }
  }

  /** Parsing what was parsed gives it back. */
  lemma IdentitySettles(v: Option<Value>, m: Manifest, rules: Rules)
    requires Lawful(rules) && IdentityOf(v, rules) == Some(Identity(m.logicalId, m.publicId))
    ensures IdentityOf(Some(IdentityValue(m)), rules) == Some(Identity(m.logicalId, m.publicId))
  {
    var o := v.value.members;
    TextSettles(Member(o, Literal("logical_id")), LogicalId, rules);
    TextSettles(Member(o, Literal("public_id")), PublicId, rules);
    IdentityKeys(m);
    MemberAt(IdentityValue(m).members, 0);
    MemberAt(IdentityValue(m).members, 1);
  }

  lemma DisplaySettles(v: Option<Value>, m: Manifest, rules: Rules)
    requires Lawful(rules) && DisplayOf(v, rules) == Some(Display(m.name, m.description))
    ensures DisplayOf(Some(DisplayValue(m)), rules) == Some(Display(m.name, m.description))
  {
    var o := v.value.members;
    TextSettles(Member(o, Literal("name")), Name, rules);
    TextSettles(Member(o, Literal("description")), Description, rules);
    DisplayKeys(m);
    MemberAt(DisplayValue(m).members, 0);
    MemberAt(DisplayValue(m).members, 1);
  }

  lemma SourceSettles(v: Option<Value>, m: Manifest, rules: Rules)
    requires Lawful(rules) && SourceOf(v, rules) == Some(Source(m.authority, m.kind, m.namespace, m.sourceId, m.revision))
    ensures SourceOf(Some(SourceValue(m)), rules) == Some(Source(m.authority, m.kind, m.namespace, m.sourceId, m.revision))
  {
    var o, p := v.value.members, SourceValue(m).members;
    TextSettles(Member(o, Literal("authority")), Authority, rules);
    TextSettles(Member(o, Literal("kind")), Kind, rules);
    TextSettles(Member(o, Literal("namespace")), Namespace, rules);
    TextSettles(Member(o, Literal("source_id")), SourceId, rules);
    TextSettles(Member(o, Literal("revision")), Revision, rules);
    SourceKeys(m);
    MemberAt(p, 0); MemberAt(p, 1); MemberAt(p, 2); MemberAt(p, 3); MemberAt(p, 4);
  }

  lemma ProvenanceSettles(v: Option<Value>, m: Manifest, rules: Rules)
    requires Lawful(rules) && ProvenanceOf(v, rules) == Some(Provenance(m.publisherId, m.ingestId, m.createdAt))
    ensures ProvenanceOf(Some(ProvenanceValue(m)), rules) == Some(Provenance(m.publisherId, m.ingestId, m.createdAt))
  {
    var o, p := v.value.members, ProvenanceValue(m).members;
    TextSettles(Member(o, Literal("publisher_id")), PublisherId, rules);
    TextSettles(Member(o, Literal("ingest_id")), IngestId, rules);
    TextSettles(Member(o, Literal("created_at")), CreatedAt, rules);
    ProvenanceKeys(m);
    MemberAt(p, 0); MemberAt(p, 1); MemberAt(p, 2);
  }

  lemma CompatibilitySettles(v: Option<Value>, m: Manifest)
    requires CompatibilityOf(v) == Some(Compatibility(m.manifestMajor, m.minimumMajor))
    ensures CompatibilityOf(Some(CompatibilityValue(m))) == Some(Compatibility(m.manifestMajor, m.minimumMajor))
  {
    CompatibilityKeys(m);
    MemberAt(CompatibilityValue(m).members, 0);
    MemberAt(CompatibilityValue(m).members, 1);
  }

  lemma FileSettles(v: Value, rules: Rules)
    requires Lawful(rules) && FileOf(v, rules).Some?
    ensures FileOf(FileValue(FileOf(v, rules).value), rules) == FileOf(v, rules)
  {
    var f, o := FileOf(v, rules).value, v.members;
    TextSettles(Member(o, Literal("media_type")), MediaType, rules);
    TextSettles(Member(o, Literal("digest")), FileDigest, rules);
    var p := FileValue(f).members;
    FileKeys(f);
    MemberAt(p, 0); MemberAt(p, 1); MemberAt(p, 2); MemberAt(p, 3); MemberAt(p, 4);
  }

  /** Files that parse from their own values. */
  predicate Settled(files: seq<File>, rules: Rules) {
    forall f :: f in files ==> FileOf(FileValue(f), rules) == Some(f)
  }

  lemma {:induction false} FilesSettle(items: seq<Value>, rules: Rules)
    requires Lawful(rules) && FilesOf(items, rules).Some?
    ensures Settled(FilesOf(items, rules).value, rules) && |FilesOf(items, rules).value| == |items|
  {
    if items != [] {
      FileSettles(items[0], rules);
      FilesSettle(items[1..], rules);
    }
  }

  lemma {:induction false} SettledParse(files: seq<File>, rules: Rules)
    requires Settled(files, rules)
    ensures FilesOf(FileValues(files), rules) == Some(files)
  {
    if files != [] {
      assert FileValues(files)[1..] == FileValues(files[1..]);
      SettledParse(files[1..], rules);
      assert files == [files[0]] + files[1..];
    }
  }

  /** The sorted list of files is accepted again, and stays as it is. */
  lemma FileListSettles(v: Option<Value>, rules: Rules)
    requires Lawful(rules) && FileListOf(v, rules).Some?
    ensures var sorted := SortFiles(FileListOf(v, rules).value);
            FileListOf(Some(Arr(FileValues(sorted))), rules) == Some(sorted) && SortFiles(sorted) == sorted
  {
    var files := FileListOf(v, rules).value;
    var sorted := SortFiles(files);
    FilesSettle(v.value.items, rules);
    SortPermutes(files, FileBelow);
    MembersOf(sorted, files);
    SettledParse(sorted, rules);
    DistinctAnyOrder(files, sorted, rules);
    SecondSortIdle(files);
  }

  /** The digest is one more member, under a key of its own. */
  lemma OutputKeys(c: Canonical)
    ensures UniqueKeys(Output(c)) && AllKnown(Output(c))
  {
    var top := TopMembers(c.manifest);
    TopKeys(c.manifest);
    assert ApartFrom("manifest_digest", TOP_KEYS);
    forall i | 0 <= i < 7 ensures top[i].0 != Literal("manifest_digest") {
      ApartFromAll("manifest_digest", TOP_KEYS, i);
      LiteralsDiffer("manifest_digest", TOP_KEYS[i]);
    }
    OutputKnown(Output(c), c);
  }

  lemma OutputKnown(o: Members, c: Canonical)
    requires o == Output(c)
    ensures AllKnown(o)
  {
    assert Known(o[0].0) && Known(o[1].0) && Known(o[2].0) && Known(o[3].0);
    assert Known(o[4].0) && Known(o[5].0) && Known(o[6].0) && Known(o[7].0);
  }

  lemma OutputFinds(c: Canonical)
    ensures var o, m := Output(c), c.manifest;
            && Member(o, Literal("schema_version")) == Some(Str(m.schema)) && Member(o, Literal("identity")) == Some(IdentityValue(m))
            && Member(o, Literal("display")) == Some(DisplayValue(m)) && Member(o, Literal("source")) == Some(SourceValue(m))
            && Member(o, Literal("files")) == Some(Arr(FileValues(m.files)))
            && Member(o, Literal("provenance")) == Some(ProvenanceValue(m))
            && Member(o, Literal("compatibility")) == Some(CompatibilityValue(m))
            && Member(o, Literal("manifest_digest")) == Some(Str(c.digest))
  {
    var o := Output(c);
    OutputKeys(c);
    MemberAt(o, 0); MemberAt(o, 1); MemberAt(o, 2); MemberAt(o, 3); MemberAt(o, 4); MemberAt(o, 5); MemberAt(o, 6); MemberAt(o, 7);
  }

  /** The written parts of a manifest are read as its parts. */
  predicate SettledParts(m: Manifest, rules: Rules) {
    && IdentityOf(Some(IdentityValue(m)), rules) == Some(Identity(m.logicalId, m.publicId))
    && DisplayOf(Some(DisplayValue(m)), rules) == Some(Display(m.name, m.description))
    && SourceOf(Some(SourceValue(m)), rules) == Some(Source(m.authority, m.kind, m.namespace, m.sourceId, m.revision))
    && FileListOf(Some(Arr(FileValues(m.files))), rules) == Some(m.files) && SortFiles(m.files) == m.files
    && ProvenanceOf(Some(ProvenanceValue(m)), rules) == Some(Provenance(m.publisherId, m.ingestId, m.createdAt))
    && CompatibilityOf(Some(CompatibilityValue(m))) == Some(Compatibility(m.manifestMajor, m.minimumMajor))
  }

  lemma PartsSettle(input: Members, rules: Rules, m: Manifest)
    requires Lawful(rules) && Projection(input, rules) == Some(m)
    ensures SettledParts(m, rules)
  {
    IdentitySettles(Member(input, Literal("identity")), m, rules);
    DisplaySettles(Member(input, Literal("display")), m, rules);
    SourceSettles(Member(input, Literal("source")), m, rules);
    FileListSettles(Member(input, Literal("files")), rules);
    ProvenanceSettles(Member(input, Literal("provenance")), m, rules);
    CompatibilitySettles(Member(input, Literal("compatibility")), m);
  }

  lemma ProjectionSettles(input: Members, rules: Rules, c: Canonical)
    requires Lawful(rules) && Projection(input, rules) == Some(c.manifest)
    ensures Projection(Output(c), rules) == Some(c.manifest)
  {
    OutputKeys(c);
    OutputFinds(c);
    PartsSettle(input, rules, c.manifest);
  }

  /** What was accepted is accepted again, digest included, with the same bytes. */
  lemma Idempotent(input: Members, rules: Rules)
    requires Lawful(rules) && Canonicalize(input, rules).Some?
    ensures Canonicalize(Output(Canonicalize(input, rules).value), rules) == Canonicalize(input, rules)
  {
    var c := Canonicalize(input, rules).value;
    ProjectionSettles(input, rules, c);
    OutputFinds(c);
  }

  // ---- order ----

  /** Objects with the same members in any order. */
  ghost predicate Reordered(v: Option<Value>, w: Option<Value>) {
    || v == w
    || (v.Some? && w.Some? && v.value.Obj? && w.value.Obj? && UniqueKeys(v.value.members)
        && multiset(v.value.members) == multiset(w.value.members))
  }

  lemma {:induction false} MemberHas(members: Members, key: Text)
    ensures Member(members, key).Some? ==> (key, Member(members, key).value) in members
    ensures Member(members, key).None? ==> forall m :: m in members ==> m.0 != key
  {
    if members != [] { MemberHas(members[1..], key); }
  }

  /** Looking a key up does not depend on the order of the members. */
  lemma SameMember(a: Members, b: Members, key: Text)
    requires UniqueKeys(a) && multiset(a) == multiset(b)
    ensures Member(a, key) == Member(b, key)
  {
    MembersOf(a, b);
    MemberHas(a, key);
    MemberHas(b, key);
    if Member(a, key).Some? && Member(b, key).Some? {
      var i :| 0 <= i < |a| && a[i] == (key, Member(a, key).value);
      var j :| 0 <= j < |a| && a[j] == (key, Member(b, key).value);
      assert i == j;
    }
  }

  lemma SameLookups(v: Option<Value>, w: Option<Value>, count: nat)
    requires Reordered(v, w)
    ensures ObjectOf(v, count).Some? <==> ObjectOf(w, count).Some?
    ensures ObjectOf(v, count).Some? ==>
              forall key :: Member(ObjectOf(v, count).value, key) == Member(ObjectOf(w, count).value, key)
  {
    if v != w {
      var a, b := v.value.members, w.value.members;
      assert |multiset(a)| == |a| && |multiset(b)| == |b|;
      forall key ensures Member(a, key) == Member(b, key) { SameMember(a, b, key); }
    }
  }

  lemma SectionsReordered(v: Option<Value>, w: Option<Value>, rules: Rules)
    requires Reordered(v, w)
    ensures IdentityOf(v, rules) == IdentityOf(w, rules) && DisplayOf(v, rules) == DisplayOf(w, rules)
    ensures CompatibilityOf(v) == CompatibilityOf(w) && ProvenanceOf(v, rules) == ProvenanceOf(w, rules)
  {
    SameLookups(v, w, 2);
    SameLookups(v, w, 3);
  }

  lemma LargeReordered(v: Option<Value>, w: Option<Value>, rules: Rules)
    requires Reordered(v, w)
    ensures SourceOf(v, rules) == SourceOf(w, rules)
    ensures v.Some? && w.Some? ==> FileOf(v.value, rules) == FileOf(w.value, rules)
  {
    SameLookups(v, w, 5);
  }

  /** The same file objects in any order, each with its members in any order. */
  ghost predicate FilesReordered(v: Option<Value>, w: Option<Value>) {
    || v == w
    || (v.Some? && w.Some? && v.value.Arr? && w.value.Arr? && exists x ::
          multiset(x) == multiset(v.value.items) && EachReordered(x, w.value.items))
  }

  ghost predicate EachReordered(x: seq<Value>, y: seq<Value>) {
    |x| == |y| && forall i :: 0 <= i < |x| ==> Reordered(Some(x[i]), Some(y[i]))
  }

  lemma {:induction false} EachSame(x: seq<Value>, y: seq<Value>, rules: Rules)
    requires EachReordered(x, y)
    ensures FilesOf(x, rules) == FilesOf(y, rules)
    decreases |x|
  {
    if x != [] {
      LargeReordered(Some(x[0]), Some(y[0]), rules);
      forall i | 0 <= i < |x[1..]| ensures Reordered(Some(x[1..][i]), Some(y[1..][i])) {
        assert x[1..][i] == x[i + 1] && y[1..][i] == y[i + 1];
      }
      EachSame(x[1..], y[1..], rules);
    }
  }

  const NO_FILE := File([], [], 0, [], false)

  function FileOr(v: Value, rules: Rules): File {
    match FileOf(v, rules) case None => NO_FILE case Some(f) => f
  }

  lemma {:induction false} FilesAreMap(items: seq<Value>, rules: Rules)
    ensures FilesOf(items, rules).Some? <==> forall v :: v in items ==> FileOf(v, rules).Some?
    ensures FilesOf(items, rules).Some? ==> FilesOf(items, rules).value == Map(items, (v: Value) => FileOr(v, rules))
  {
    if items != [] { FilesAreMap(items[1..], rules); }
  }

  lemma FilesPermute(a: seq<Value>, b: seq<Value>, rules: Rules)
    requires multiset(a) == multiset(b)
    ensures FilesOf(a, rules).Some? <==> FilesOf(b, rules).Some?
    ensures FilesOf(a, rules).Some? ==> multiset(FilesOf(a, rules).value) == multiset(FilesOf(b, rules).value)
  {
    MembersOf(a, b);
    FilesAreMap(a, rules);
    FilesAreMap(b, rules);
    MapPermutes(a, b, (v: Value) => FileOr(v, rules));
  }

  lemma FileListReordered(v: Option<Value>, w: Option<Value>, rules: Rules)
    requires FilesReordered(v, w)
    requires FileListOf(v, rules).Some? ==> PathBytesApart(FileListOf(v, rules).value)
    ensures FileListOf(v, rules).Some? <==> FileListOf(w, rules).Some?
    ensures FileListOf(v, rules).Some? ==> SortFiles(FileListOf(v, rules).value) == SortFiles(FileListOf(w, rules).value)
  {
    if v != w {
      var x :| multiset(x) == multiset(v.value.items) && EachReordered(x, w.value.items);
      assert |multiset(x)| == |x| && |multiset(v.value.items)| == |v.value.items|;
      EachSame(x, w.value.items, rules);
      FilesPermute(v.value.items, x, rules);
      if FilesOf(x, rules).Some? {
        DistinctAnyOrder(FilesOf(v.value.items, rules).value, FilesOf(x, rules).value, rules);
      }
      if FileListOf(v, rules).Some? {
        FileOrders();
        PathsSeparate(FileListOf(v, rules).value);
        SortForgetsOrder(FileListOf(v, rules).value, FileListOf(w, rules).value, FileBelow);
      }
    }
  }

  /** Neither the order of members, at any level, nor the order of files matters. */
  ghost predicate InputReordered(a: Members, b: Members) {
    && AllKnown(a) == AllKnown(b)
    && Member(a, Literal("schema_version")) == Member(b, Literal("schema_version"))
    && Member(a, Literal("manifest_digest")) == Member(b, Literal("manifest_digest"))
    && Reordered(Member(a, Literal("identity")), Member(b, Literal("identity")))
    && Reordered(Member(a, Literal("display")), Member(b, Literal("display")))
    && Reordered(Member(a, Literal("source")), Member(b, Literal("source")))
    && Reordered(Member(a, Literal("provenance")), Member(b, Literal("provenance")))
    && Reordered(Member(a, Literal("compatibility")), Member(b, Literal("compatibility")))
    && FilesReordered(Member(a, Literal("files")), Member(b, Literal("files")))
  }

  /** The order of the top-level members is one such order. */
  lemma TopOrder(a: Members, b: Members)
    requires UniqueKeys(a) && multiset(a) == multiset(b)
    ensures InputReordered(a, b)
  {
    forall key ensures Member(a, key) == Member(b, key) { SameMember(a, b, key); }
    MembersOf(a, b);
    if AllKnown(a) {
      forall i | 0 <= i < |b| ensures Known(b[i].0) { assert b[i] in a; }
    }
    if AllKnown(b) {
      forall i | 0 <= i < |a| ensures Known(a[i].0) { assert a[i] in b; }
    }
  }

  lemma ProjectionReordered(a: Members, b: Members, rules: Rules)
    requires InputReordered(a, b)
    requires var files := FileListOf(Member(a, Literal("files")), rules); files.Some? ==> PathBytesApart(files.value)
    ensures Projection(a, rules) == Projection(b, rules)
  {
    SectionsReordered(Member(a, Literal("identity")), Member(b, Literal("identity")), rules);
    SectionsReordered(Member(a, Literal("display")), Member(b, Literal("display")), rules);
    LargeReordered(Member(a, Literal("source")), Member(b, Literal("source")), rules);
    SectionsReordered(Member(a, Literal("provenance")), Member(b, Literal("provenance")), rules);
    SectionsReordered(Member(a, Literal("compatibility")), Member(b, Literal("compatibility")), rules);
    FileListReordered(Member(a, Literal("files")), Member(b, Literal("files")), rules);
  }

  /** The whole result is the same, provided no two file paths have the same bytes. */
  lemma OrderDoesNotMatter(a: Members, b: Members, rules: Rules)
    requires InputReordered(a, b)
    requires var files := FileListOf(Member(a, Literal("files")), rules); files.Some? ==> PathBytesApart(files.value)
    ensures Canonicalize(a, rules) == Canonicalize(b, rules)
  {
    ProjectionReordered(a, b, rules);
  }

  // ---- digests ----

  predicate FileWellFormed(f: File) { WellFormed(f.path) && WellFormed(f.mediaType) && WellFormed(f.digest) }

  predicate ManifestWellFormed(m: Manifest) {
    && WellFormed(m.schema) && WellFormed(m.logicalId) && WellFormed(m.publicId) && WellFormed(m.name) && WellFormed(m.description)
    && WellFormed(m.authority) && WellFormed(m.kind) && WellFormed(m.namespace) && WellFormed(m.sourceId) && WellFormed(m.revision)
    && WellFormed(m.publisherId) && WellFormed(m.ingestId) && WellFormed(m.createdAt)
    && forall i :: 0 <= i < |m.files| ==> FileWellFormed(m.files[i])
  }

  lemma SameTextIsEqual(a: Text, b: Text)
    requires WellFormed(a) && WellFormed(b) && SameText(a, b)
    ensures a == b
  {
    UnitsReturn(a);
    UnitsReturn(b);
  }

  lemma SameFilesAreEqual(a: seq<File>, b: seq<File>)
    requires SameFiles(a, b)
    requires forall i :: 0 <= i < |a| ==> FileWellFormed(a[i])
    requires forall i :: 0 <= i < |b| ==> FileWellFormed(b[i])
    ensures a == b
  {
    forall i | 0 <= i < |a| ensures a[i] == b[i] {
      SameTextIsEqual(a[i].path, b[i].path);
      SameTextIsEqual(a[i].mediaType, b[i].mediaType);
      SameTextIsEqual(a[i].digest, b[i].digest);
    }
  }

  /** Accepted inputs with the same digest have the same manifest, if neither has a
      lone surrogate and the hash does not collide on their bytes. */
  lemma DigestTellsManifests(a: Members, b: Members, rules: Rules)
    requires Canonicalize(a, rules).Some? && Canonicalize(b, rules).Some?
    requires var x, y := Canonicalize(a, rules).value.bytes, Canonicalize(b, rules).value.bytes;
             rules.digest(x) == rules.digest(y) ==> x == y
    requires ManifestWellFormed(Canonicalize(a, rules).value.manifest) && ManifestWellFormed(Canonicalize(b, rules).value.manifest)
    requires Canonicalize(a, rules).value.digest == Canonicalize(b, rules).value.digest
    ensures Canonicalize(a, rules) == Canonicalize(b, rules)
  {
    var m, n := Canonicalize(a, rules).value.manifest, Canonicalize(b, rules).value.manifest;
    BytesTell(m, n);
    SameTextIsEqual(m.schema, n.schema);
    SameTextIsEqual(m.logicalId, n.logicalId);
    SameTextIsEqual(m.publicId, n.publicId);
    SameTextIsEqual(m.name, n.name);
    SameTextIsEqual(m.description, n.description);
    SameTextIsEqual(m.authority, n.authority);
    SameTextIsEqual(m.kind, n.kind);
    SameTextIsEqual(m.namespace, n.namespace);
    SameTextIsEqual(m.sourceId, n.sourceId);
    SameTextIsEqual(m.revision, n.revision);
    SameFilesAreEqual(m.files, n.files);
    SameTextIsEqual(m.publisherId, n.publisherId);
    SameTextIsEqual(m.ingestId, n.ingestId);
    SameTextIsEqual(m.createdAt, n.createdAt);
  }
}
