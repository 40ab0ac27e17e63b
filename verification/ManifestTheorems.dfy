/** What the canonical bytes of a manifest determine, and what they do not depend on. */
module ManifestTheorems {
  import opened Common
  import opened Bytes
  import opened Lexical
  import opened Sequences
  import opened Sorting
  import opened TextEncoding
  import opened Utf16
  import opened ManifestModel
  import CanonicalJson
  import Utf8

  // ---- keys ----

  /** Names told apart by their length or first letter. */
  predicate Apart(a: string, b: string) {
    a != "" && b != "" && (|a| != |b| || (a[0] != b[0] && a[0] as int < 0x80 && b[0] as int < 0x80))
  }

  predicate ApartFrom(a: string, names: seq<string>) {
    names == [] || (Apart(a, names[0]) && ApartFrom(a, names[1..]))
  }

  predicate AllApart(names: seq<string>) {
    names == [] || (ApartFrom(names[0], names[1..]) && AllApart(names[1..]))
  }

  predicate KeyedBy(members: Members, names: seq<string>) {
    |members| == |names| && forall i :: 0 <= i < |names| ==> members[i].0 == Literal(names[i])
  }

  lemma {:induction false} ApartFromAll(a: string, names: seq<string>, k: nat)
    requires ApartFrom(a, names) && k < |names|
    ensures Apart(a, names[k])
  {
    if k > 0 { ApartFromAll(a, names[1..], k - 1); }
  }

  lemma {:induction false} KeysUnique(members: Members, names: seq<string>)
    requires KeyedBy(members, names) && AllApart(names)
    ensures UniqueKeys(members)
  {
    if members != [] {
      KeysUnique(members[1..], names[1..]);
      forall j | 1 <= j < |members| ensures members[0].0 != members[j].0 {
        ApartFromAll(names[0], names[1..], j - 1);
        assert names[1..][j - 1] == names[j];
        LiteralsDiffer(names[0], names[j]);
      }
    }
  }

  lemma LiteralsDiffer(a: string, b: string)
    requires Apart(a, b)
    ensures Literal(a) != Literal(b)
  {
    if |a| == |b| { assert Literal(a)[0] != Literal(b)[0]; }
  }

  lemma {:induction false} NoSurrogates(t: Text)
    requires forall i :: 0 <= i < |t| ==> !High(t[i]) && !Low(t[i])
    ensures WellFormed(t)
  {
    if t != [] { NoSurrogates(t[1..]); }
  }

  const FILE_KEYS := ["path", "media_type", "utf8_bytes", "digest", "executable"]
  const IDENTITY_KEYS := ["logical_id", "public_id"]
  const DISPLAY_KEYS := ["name", "description"]
  const SOURCE_KEYS := ["authority", "kind", "namespace", "source_id", "revision"]
  const PROVENANCE_KEYS := ["publisher_id", "ingest_id", "created_at"]
  const COMPATIBILITY_KEYS := ["manifest_major", "minimum_consumer_major"]
  const TOP_KEYS := ["schema_version", "identity", "display", "source", "files", "provenance", "compatibility"]

  lemma FileKeys(f: File)
    ensures KeyedBy(FileValue(f).members, FILE_KEYS) && UniqueKeys(FileValue(f).members)
  {
    assert AllApart(FILE_KEYS);
    KeysUnique(FileValue(f).members, FILE_KEYS);
  }

  lemma IdentityKeys(m: Manifest)
    ensures KeyedBy(IdentityValue(m).members, IDENTITY_KEYS) && UniqueKeys(IdentityValue(m).members)
  {
    assert AllApart(IDENTITY_KEYS);
    KeysUnique(IdentityValue(m).members, IDENTITY_KEYS);
  }

  lemma DisplayKeys(m: Manifest)
    ensures KeyedBy(DisplayValue(m).members, DISPLAY_KEYS) && UniqueKeys(DisplayValue(m).members)
  {
    assert AllApart(DISPLAY_KEYS);
    KeysUnique(DisplayValue(m).members, DISPLAY_KEYS);
  }

  lemma SourceKeys(m: Manifest)
    ensures KeyedBy(SourceValue(m).members, SOURCE_KEYS) && UniqueKeys(SourceValue(m).members)
  {
    assert AllApart(SOURCE_KEYS);
    KeysUnique(SourceValue(m).members, SOURCE_KEYS);
  }

  lemma ProvenanceKeys(m: Manifest)
    ensures KeyedBy(ProvenanceValue(m).members, PROVENANCE_KEYS) && UniqueKeys(ProvenanceValue(m).members)
  {
    assert AllApart(PROVENANCE_KEYS);
    KeysUnique(ProvenanceValue(m).members, PROVENANCE_KEYS);
  }

  lemma CompatibilityKeys(m: Manifest)
    ensures KeyedBy(CompatibilityValue(m).members, COMPATIBILITY_KEYS) && UniqueKeys(CompatibilityValue(m).members)
  {
    assert AllApart(COMPATIBILITY_KEYS);
    KeysUnique(CompatibilityValue(m).members, COMPATIBILITY_KEYS);
  }

  lemma TopKeys(m: Manifest)
    ensures KeyedBy(TopMembers(m), TOP_KEYS) && UniqueKeys(TopMembers(m))
  {
    TopKeysApart();
    KeysUnique(TopMembers(m), TOP_KEYS);
  }

  lemma TopKeysApart()
    ensures AllApart(TOP_KEYS)
  {
  }

  // ---- equal bytes ----

  lemma {:induction false} PairsAre(members: Members, depth: nat)
    requires PairsOf(members, depth).Some?
    ensures PairsMatch(members, PairsOf(members, depth).value, depth)
  {
    if members != [] {
      PairsAre(members[1..], depth);
      var pairs := PairsOf(members, depth).value;
      assert pairs[1..] == PairsOf(members[1..], depth).value;
      forall i | 0 <= i < |members| ensures PairAt(members, pairs, i, depth) {
        if i > 0 { assert PairAt(members[1..], pairs[1..], i - 1, depth); }
      }
    }
  }

  predicate PairAt(members: Members, pairs: seq<(Utf8.Text, CanonicalJson.Doc)>, i: nat, depth: nat)
    requires |pairs| == |members| && i < |members|
  {
    DocOf(members[i].1, depth).Some? && pairs[i] == (Scalars(members[i].0), DocOf(members[i].1, depth).value)
  }

  ghost predicate PairsMatch(members: Members, pairs: seq<(Utf8.Text, CanonicalJson.Doc)>, depth: nat) {
    |pairs| == |members| && forall i :: 0 <= i < |members| ==> PairAt(members, pairs, i, depth)
  }

  /** Both lists have the same keys in the same order. */
  ghost predicate SameKeys(a: Members, b: Members, names: seq<string>) {
    KeyedBy(a, names) && KeyedBy(b, names)
  }

  lemma ScalarKeysDiffer(a: Members, names: seq<string>, i: nat, j: nat)
    requires KeyedBy(a, names) && UniqueKeys(a) && i < |a| && j < |a| && Scalars(a[i].0) == Scalars(a[j].0)
    ensures i == j
  {
    NoSurrogates(a[i].0);
    NoSurrogates(a[j].0);
    UnitsReturn(a[i].0);
    UnitsReturn(a[j].0);
  }

  /** Objects with the same keys that are written alike agree member by member. */
  lemma MembersTell(a: Members, b: Members, names: seq<string>, depth: nat)
    requires SameKeys(a, b, names) && UniqueKeys(a)
    requires DocOf(Obj(a), depth).Some? && DocOf(Obj(a), depth) == DocOf(Obj(b), depth)
    ensures forall i :: 0 <= i < |a| ==> DocOf(a[i].1, depth + 1).Some? && DocOf(a[i].1, depth + 1) == DocOf(b[i].1, depth + 1)
  {
    SamePairs(a, b, depth);
    var pa, pb := PairsOf(a, depth + 1).value, PairsOf(b, depth + 1).value;
    PairsAre(a, depth + 1);
    PairsAre(b, depth + 1);
    forall i | 0 <= i < |a| ensures DocOf(a[i].1, depth + 1).Some? && DocOf(a[i].1, depth + 1) == DocOf(b[i].1, depth + 1) {
      MemberTells(a, b, pa, pb, names, i, depth + 1);
    }
  }

  /** Objects that are written alike have the same pairs. */
  lemma SamePairs(a: Members, b: Members, depth: nat)
    requires DocOf(Obj(a), depth).Some? && DocOf(Obj(a), depth) == DocOf(Obj(b), depth)
    ensures PairsOf(a, depth + 1).Some? && PairsOf(b, depth + 1).Some?
    ensures multiset(PairsOf(a, depth + 1).value) == multiset(PairsOf(b, depth + 1).value)
  {
    SortPermutes(PairsOf(a, depth + 1).value, MemberBelow);
    SortPermutes(PairsOf(b, depth + 1).value, MemberBelow);
  }

  lemma MemberTells(a: Members, b: Members, pa: seq<(Utf8.Text, CanonicalJson.Doc)>, pb: seq<(Utf8.Text, CanonicalJson.Doc)>,
                    names: seq<string>, i: nat, depth: nat)
    requires SameKeys(a, b, names) && UniqueKeys(a) && PairsMatch(a, pa, depth) && PairsMatch(b, pb, depth)
    requires i < |a| && multiset(pa) == multiset(pb)
    ensures DocOf(a[i].1, depth).Some? && DocOf(a[i].1, depth) == DocOf(b[i].1, depth)
  {
    MembersOf(pa, pb);
    assert pa[i] in pb;
    var j :| 0 <= j < |pb| && pb[j] == pa[i];
    assert PairAt(a, pa, i, depth) && PairAt(b, pb, j, depth);
    assert a[j].0 == b[j].0 == Literal(names[j]);
    ScalarKeysDiffer(a, names, i, j);
  }

  lemma {:induction false} PairsAlike(a: Members, b: Members, depth: nat)
    requires |a| == |b| && forall i :: 0 <= i < |a| ==> a[i].0 == b[i].0 && DocOf(a[i].1, depth) == DocOf(b[i].1, depth)
    ensures PairsOf(a, depth) == PairsOf(b, depth)
  {
    if a != [] { PairsAlike(a[1..], b[1..], depth); }
  }

  lemma {:induction false} PairsThere(a: Members, depth: nat)
    requires forall i :: 0 <= i < |a| ==> DocOf(a[i].1, depth).Some?
    ensures PairsOf(a, depth).Some?
  {
    if a != [] { PairsThere(a[1..], depth); }
  }

  predicate AgreeAt(a: Members, b: Members, i: nat, depth: nat)
    requires |a| == |b| && i < |a|
  {
    DocOf(a[i].1, depth + 1) == DocOf(b[i].1, depth + 1)
  }

  ghost predicate AllAgree(a: Members, b: Members, depth: nat)
    requires |a| == |b|
  {
    forall i :: 0 <= i < |a| ==> AgreeAt(a, b, i, depth)
  }

  predicate Writable(a: Members, depth: nat) { forall i :: 0 <= i < |a| ==> DocOf(a[i].1, depth).Some? }

  /** Objects with the same keys are written alike exactly when their members are. */
  lemma ObjectsTell(a: Members, b: Members, names: seq<string>, depth: nat)
    requires SameKeys(a, b, names) && UniqueKeys(a) && depth <= 9 && Writable(a, depth + 1) && Writable(b, depth + 1)
    ensures DocOf(Obj(a), depth).Some?
    ensures DocOf(Obj(a), depth) == DocOf(Obj(b), depth) <==> AllAgree(a, b, depth)
  {
    PairsThere(a, depth + 1);
    PairsThere(b, depth + 1);
    if DocOf(Obj(a), depth) == DocOf(Obj(b), depth) { MembersTell(a, b, names, depth); }
    if AllAgree(a, b, depth) {
      forall i | 0 <= i < |a| ensures DocOf(a[i].1, depth + 1) == DocOf(b[i].1, depth + 1) { assert AgreeAt(a, b, i, depth); }
      PairsAlike(a, b, depth + 1);
    }
  }

  /** The same text, up to lone surrogates. */
  predicate SameText(a: Text, b: Text) { Scalars(a) == Scalars(b) }

  predicate SameFile(f: File, g: File) {
    SameText(f.path, g.path) && SameText(f.mediaType, g.mediaType) && f.size == g.size && SameText(f.digest, g.digest)
    && f.executable == g.executable
  }

  predicate SameFiles(a: seq<File>, b: seq<File>) { |a| == |b| && forall i :: 0 <= i < |a| ==> SameFile(a[i], b[i]) }

  predicate SameIdentity(a: Manifest, b: Manifest) { SameText(a.logicalId, b.logicalId) && SameText(a.publicId, b.publicId) }
  predicate SameDisplay(a: Manifest, b: Manifest) { SameText(a.name, b.name) && SameText(a.description, b.description) }
  predicate SameSource(a: Manifest, b: Manifest) {
    SameText(a.authority, b.authority) && SameText(a.kind, b.kind) && SameText(a.namespace, b.namespace)
    && SameText(a.sourceId, b.sourceId) && SameText(a.revision, b.revision)
  }
  predicate SameProvenance(a: Manifest, b: Manifest) {
    SameText(a.publisherId, b.publisherId) && SameText(a.ingestId, b.ingestId) && SameText(a.createdAt, b.createdAt)
  }
  predicate SameCompatibility(a: Manifest, b: Manifest) { a.manifestMajor == b.manifestMajor && a.minimumMajor == b.minimumMajor }

  /** Manifests that agree up to lone surrogates. */
  predicate SameManifest(a: Manifest, b: Manifest) {
    SameText(a.schema, b.schema) && SameIdentity(a, b) && SameDisplay(a, b) && SameSource(a, b) && SameFiles(a.files, b.files)
    && SameProvenance(a, b) && SameCompatibility(a, b)
  }

  lemma TextAgrees(a: Members, b: Members, i: nat, depth: nat, s: Text, t: Text)
    requires |a| == |b| && i < |a| && a[i].1 == Str(s) && b[i].1 == Str(t) && depth <= 9
    ensures AgreeAt(a, b, i, depth) <==> SameText(s, t)
    ensures DocOf(a[i].1, depth + 1).Some? && DocOf(b[i].1, depth + 1).Some?
  {
  }

  lemma PlainAgrees(a: Members, b: Members, i: nat, depth: nat)
    requires |a| == |b| && i < |a| && depth <= 9
    requires (a[i].1.Num? && b[i].1.Num?) || (a[i].1.Bool? && b[i].1.Bool?)
    ensures AgreeAt(a, b, i, depth) <==> a[i].1 == b[i].1
    ensures DocOf(a[i].1, depth + 1).Some? && DocOf(b[i].1, depth + 1).Some?
  {
  }

  lemma IdentityTells(a: Manifest, b: Manifest)
    ensures DocOf(IdentityValue(a), 2).Some?
    ensures DocOf(IdentityValue(a), 2) == DocOf(IdentityValue(b), 2) <==> SameIdentity(a, b)
  {
    var x, y := IdentityValue(a).members, IdentityValue(b).members;
    IdentityKeys(a);
    IdentityKeys(b);
    TextAgrees(x, y, 0, 2, a.logicalId, b.logicalId);
    TextAgrees(x, y, 1, 2, a.publicId, b.publicId);
    ObjectsTell(x, y, IDENTITY_KEYS, 2);
  }

  lemma DisplayTells(a: Manifest, b: Manifest)
    ensures DocOf(DisplayValue(a), 2).Some?
    ensures DocOf(DisplayValue(a), 2) == DocOf(DisplayValue(b), 2) <==> SameDisplay(a, b)
  {
    var x, y := DisplayValue(a).members, DisplayValue(b).members;
    DisplayKeys(a);
    DisplayKeys(b);
    TextAgrees(x, y, 0, 2, a.name, b.name);
    TextAgrees(x, y, 1, 2, a.description, b.description);
    ObjectsTell(x, y, DISPLAY_KEYS, 2);
  }

  predicate SourceParts(x: Members, m: Manifest) {
    && |x| == 5 && x[0].1 == Str(m.authority) && x[1].1 == Str(m.kind) && x[2].1 == Str(m.namespace)
    && x[3].1 == Str(m.sourceId) && x[4].1 == Str(m.revision)
  }

  lemma SourcesAgree(x: Members, y: Members, a: Manifest, b: Manifest)
    requires SourceParts(x, a) && SourceParts(y, b)
    ensures Writable(x, 3) && Writable(y, 3) && (AllAgree(x, y, 2) <==> SameSource(a, b))
  {
    TextAgrees(x, y, 0, 2, a.authority, b.authority);
    TextAgrees(x, y, 1, 2, a.kind, b.kind);
    TextAgrees(x, y, 2, 2, a.namespace, b.namespace);
    TextAgrees(x, y, 3, 2, a.sourceId, b.sourceId);
    TextAgrees(x, y, 4, 2, a.revision, b.revision);
  }

  lemma SourceTells(a: Manifest, b: Manifest)
    ensures DocOf(SourceValue(a), 2).Some?
    ensures DocOf(SourceValue(a), 2) == DocOf(SourceValue(b), 2) <==> SameSource(a, b)
  {
    var x, y := SourceValue(a).members, SourceValue(b).members;
    SourceKeys(a);
    SourceKeys(b);
    SourcesAgree(x, y, a, b);
    ObjectsTell(x, y, SOURCE_KEYS, 2);
  }

  lemma ProvenanceTells(a: Manifest, b: Manifest)
    ensures DocOf(ProvenanceValue(a), 2).Some?
    ensures DocOf(ProvenanceValue(a), 2) == DocOf(ProvenanceValue(b), 2) <==> SameProvenance(a, b)
  {
    var x, y := ProvenanceValue(a).members, ProvenanceValue(b).members;
    ProvenanceKeys(a);
    ProvenanceKeys(b);
    TextAgrees(x, y, 0, 2, a.publisherId, b.publisherId);
    TextAgrees(x, y, 1, 2, a.ingestId, b.ingestId);
    TextAgrees(x, y, 2, 2, a.createdAt, b.createdAt);
    ObjectsTell(x, y, PROVENANCE_KEYS, 2);
  }

  lemma CompatibilityTells(a: Manifest, b: Manifest)
    ensures DocOf(CompatibilityValue(a), 2).Some?
    ensures DocOf(CompatibilityValue(a), 2) == DocOf(CompatibilityValue(b), 2) <==> SameCompatibility(a, b)
  {
    var x, y := CompatibilityValue(a).members, CompatibilityValue(b).members;
    CompatibilityKeys(a);
    CompatibilityKeys(b);
    PlainAgrees(x, y, 0, 2);
    PlainAgrees(x, y, 1, 2);
    ObjectsTell(x, y, COMPATIBILITY_KEYS, 2);
  }

  predicate FileParts(x: Members, f: File) {
    && |x| == 5 && x[0].1 == Str(f.path) && x[1].1 == Str(f.mediaType) && x[2].1 == Num(f.size)
    && x[3].1 == Str(f.digest) && x[4].1 == Bool(f.executable)
  }

  lemma FilesAgree(x: Members, y: Members, a: File, b: File)
    requires FileParts(x, a) && FileParts(y, b)
    ensures Writable(x, 4) && Writable(y, 4) && (AllAgree(x, y, 3) <==> SameFile(a, b))
  {
    TextAgrees(x, y, 0, 3, a.path, b.path);
    TextAgrees(x, y, 1, 3, a.mediaType, b.mediaType);
    PlainAgrees(x, y, 2, 3);
    TextAgrees(x, y, 3, 3, a.digest, b.digest);
    PlainAgrees(x, y, 4, 3);
  }

  lemma FileTells(a: File, b: File)
    ensures DocOf(FileValue(a), 3).Some?
    ensures DocOf(FileValue(a), 3) == DocOf(FileValue(b), 3) <==> SameFile(a, b)
  {
    var x, y := FileValue(a).members, FileValue(b).members;
    FileKeys(a);
    FileKeys(b);
    FilesAgree(x, y, a, b);
    ObjectsTell(x, y, FILE_KEYS, 3);
  }

  lemma SameFilesSplit(a: seq<File>, b: seq<File>)
    requires a != [] && b != []
    ensures SameFiles(a, b) <==> SameFile(a[0], b[0]) && SameFiles(a[1..], b[1..])
  {
    if SameFile(a[0], b[0]) && SameFiles(a[1..], b[1..]) {
      forall i | 0 <= i < |a| ensures SameFile(a[i], b[i]) {
        if i > 0 { assert a[i] == a[1..][i - 1] && b[i] == b[1..][i - 1]; }
      }
    }
  }

  lemma {:induction false} FilesWritable(a: seq<File>)
    ensures DocsOf(FileValues(a), 3).Some? && |DocsOf(FileValues(a), 3).value| == |a|
  {
    if a != [] {
      assert FileValues(a)[1..] == FileValues(a[1..]);
      FileTells(a[0], a[0]);
      FilesWritable(a[1..]);
    }
  }

  lemma {:induction false} FilesTell(a: seq<File>, b: seq<File>)
    ensures DocsOf(FileValues(a), 3) == DocsOf(FileValues(b), 3) <==> SameFiles(a, b)
    decreases |a|
  {
    FilesWritable(a);
    FilesWritable(b);
    if a != [] && b != [] {
      assert FileValues(a)[1..] == FileValues(a[1..]) && FileValues(b)[1..] == FileValues(b[1..]);
      FileTells(a[0], b[0]);
      FileTells(b[0], a[0]);
      FilesWritable(a[1..]);
      FilesWritable(b[1..]);
      FilesTell(a[1..], b[1..]);
      SameFilesSplit(a, b);
      DocsSplit(FileValues(a), FileValues(b), 3);
    }
  }

  lemma DocsSplit(a: seq<Value>, b: seq<Value>, depth: nat)
    requires a != [] && b != [] && DocsOf(a, depth).Some? && DocsOf(b, depth).Some?
    ensures DocsOf(a, depth) == DocsOf(b, depth) <==>
              DocOf(a[0], depth) == DocOf(b[0], depth) && DocsOf(a[1..], depth) == DocsOf(b[1..], depth)
  {
    var x, y := DocsOf(a, depth).value, DocsOf(b, depth).value;
    assert x[1..] == DocsOf(a[1..], depth).value && y[1..] == DocsOf(b[1..], depth).value;
  }

  /** The member at `i` agrees as its value does. */
  lemma EntryAgrees(x: Members, y: Members, i: nat, v: Value, w: Value)
    requires |x| == |y| && i < |x| && x[i].1 == v && y[i].1 == w
    ensures AgreeAt(x, y, i, 1) <==> DocOf(v, 2) == DocOf(w, 2)
  {
  }

  lemma FileListTells(a: Manifest, b: Manifest)
    ensures DocOf(Arr(FileValues(a.files)), 2).Some?
    ensures DocOf(Arr(FileValues(a.files)), 2) == DocOf(Arr(FileValues(b.files)), 2) <==> SameFiles(a.files, b.files)
  {
    FilesWritable(a.files);
    FilesWritable(b.files);
    FilesTell(a.files, b.files);
  }

  /** The seven members of a manifest. */
  ghost predicate Tops(x: Members, m: Manifest) {
    && |x| == 7 && x[0].1 == Str(m.schema) && x[1].1 == IdentityValue(m) && x[2].1 == DisplayValue(m) && x[3].1 == SourceValue(m)
    && x[4].1 == Arr(FileValues(m.files)) && x[5].1 == ProvenanceValue(m) && x[6].1 == CompatibilityValue(m)
  }

  lemma EntryWritable(x: Members, i: nat, v: Value)
    requires i < |x| && x[i].1 == v && DocOf(v, 2).Some?
    ensures WritableAt(x, i)
  {
  }

  predicate WritableAt(x: Members, i: nat)
    requires i < |x|
  {
    DocOf(x[i].1, 2).Some?
  }

  lemma FirstWritable(x: Members, m: Manifest)
    requires Tops(x, m)
    ensures WritableAt(x, 0) && WritableAt(x, 1) && WritableAt(x, 2) && WritableAt(x, 3)
  {
    IdentityTells(m, m);
    EntryWritable(x, 1, IdentityValue(m));
    DisplayTells(m, m);
    EntryWritable(x, 2, DisplayValue(m));
    SourceTells(m, m);
    EntryWritable(x, 3, SourceValue(m));
  }

  lemma LastWritable(x: Members, m: Manifest)
    requires Tops(x, m)
    ensures WritableAt(x, 4) && WritableAt(x, 5) && WritableAt(x, 6)
  {
    FileListTells(m, m);
    EntryWritable(x, 4, Arr(FileValues(m.files)));
    ProvenanceTells(m, m);
    EntryWritable(x, 5, ProvenanceValue(m));
    CompatibilityTells(m, m);
    EntryWritable(x, 6, CompatibilityValue(m));
  }

  lemma SevenWritable(x: Members)
    requires |x| == 7 && WritableAt(x, 0) && WritableAt(x, 1) && WritableAt(x, 2) && WritableAt(x, 3)
    requires WritableAt(x, 4) && WritableAt(x, 5) && WritableAt(x, 6)
    ensures Writable(x, 2)
  {
  }

  lemma TopsWritable(x: Members, m: Manifest)
    requires Tops(x, m)
    ensures Writable(x, 2)
  {
    FirstWritable(x, m);
    LastWritable(x, m);
    SevenWritable(x);
  }

  lemma FirstTell(x: Members, y: Members, a: Manifest, b: Manifest)
    requires Tops(x, a) && Tops(y, b)
    ensures AgreeAt(x, y, 0, 1) && AgreeAt(x, y, 1, 1) && AgreeAt(x, y, 2, 1) && AgreeAt(x, y, 3, 1) <==>
              SameText(a.schema, b.schema) && SameIdentity(a, b) && SameDisplay(a, b) && SameSource(a, b)
  {
    TextAgrees(x, y, 0, 1, a.schema, b.schema);
    EntryAgrees(x, y, 1, IdentityValue(a), IdentityValue(b));
    IdentityTells(a, b);
    EntryAgrees(x, y, 2, DisplayValue(a), DisplayValue(b));
    DisplayTells(a, b);
    EntryAgrees(x, y, 3, SourceValue(a), SourceValue(b));
    SourceTells(a, b);
  }

  lemma LastTell(x: Members, y: Members, a: Manifest, b: Manifest)
    requires Tops(x, a) && Tops(y, b)
    ensures AgreeAt(x, y, 4, 1) && AgreeAt(x, y, 5, 1) && AgreeAt(x, y, 6, 1) <==>
              SameFiles(a.files, b.files) && SameProvenance(a, b) && SameCompatibility(a, b)
  {
    EntryAgrees(x, y, 4, Arr(FileValues(a.files)), Arr(FileValues(b.files)));
    FileListTells(a, b);
    EntryAgrees(x, y, 5, ProvenanceValue(a), ProvenanceValue(b));
    ProvenanceTells(a, b);
    EntryAgrees(x, y, 6, CompatibilityValue(a), CompatibilityValue(b));
    CompatibilityTells(a, b);
  }

  lemma SevenAgree(x: Members, y: Members)
    requires |x| == |y| == 7
    ensures AllAgree(x, y, 1) <==>
              AgreeAt(x, y, 0, 1) && AgreeAt(x, y, 1, 1) && AgreeAt(x, y, 2, 1) && AgreeAt(x, y, 3, 1)
              && AgreeAt(x, y, 4, 1) && AgreeAt(x, y, 5, 1) && AgreeAt(x, y, 6, 1)
  {
  }

  lemma TopsTell(x: Members, y: Members, a: Manifest, b: Manifest)
    requires Tops(x, a) && Tops(y, b)
    ensures AllAgree(x, y, 1) <==> SameManifest(a, b)
  {
    FirstTell(x, y, a, b);
    LastTell(x, y, a, b);
    SevenAgree(x, y);
  }

  /** Every manifest has canonical bytes, and two manifests have the same bytes exactly
      when they agree up to lone surrogates. */
  lemma BytesTell(a: Manifest, b: Manifest)
    ensures CanonicalBytes(a).Some?
    ensures CanonicalBytes(a) == CanonicalBytes(b) <==> SameManifest(a, b)
  {
    TopsAre(a);
    TopsAre(b);
    BytesOf(TopMembers(a), TopMembers(b), a, b);
  }

  lemma TopsAre(m: Manifest)
    ensures Tops(TopMembers(m), m) && KeyedBy(TopMembers(m), TOP_KEYS) && UniqueKeys(TopMembers(m))
  {
    TopKeys(m);
  }

  lemma BytesOf(x: Members, y: Members, a: Manifest, b: Manifest)
    requires x == TopMembers(a) && y == TopMembers(b)
    requires Tops(x, a) && Tops(y, b) && SameKeys(x, y, TOP_KEYS) && UniqueKeys(x) && UniqueKeys(y)
    ensures CanonicalBytes(a).Some? && (CanonicalBytes(a) == CanonicalBytes(b) <==> SameManifest(a, b))
  {
    TopsWritten(x, y, a, b);
    BytesAre(a, x);
    BytesAre(b, y);
  }

  lemma BytesAre(m: Manifest, x: Members)
    requires x == TopMembers(m) && DocOf(Obj(x), 1).Some?
    ensures CanonicalBytes(m) == Some(CanonicalJson.Write(DocOf(Obj(x), 1).value))
  {
  }

  lemma TopsWritten(x: Members, y: Members, a: Manifest, b: Manifest)
    requires Tops(x, a) && Tops(y, b) && SameKeys(x, y, TOP_KEYS) && UniqueKeys(x) && UniqueKeys(y)
    ensures DocOf(Obj(x), 1).Some? && DocOf(Obj(y), 1).Some?
    ensures CanonicalJson.Write(DocOf(Obj(x), 1).value) == CanonicalJson.Write(DocOf(Obj(y), 1).value) <==> SameManifest(a, b)
  {
    TopsWritable(x, a);
    TopsWritable(y, b);
    TopsTell(x, y, a, b);
    WrittenAlike(x, y);
  }

  lemma WrittenAlike(x: Members, y: Members)
    requires SameKeys(x, y, TOP_KEYS) && UniqueKeys(x) && UniqueKeys(y) && Writable(x, 2) && Writable(y, 2)
    ensures DocOf(Obj(x), 1).Some? && DocOf(Obj(y), 1).Some?
    ensures CanonicalJson.Write(DocOf(Obj(x), 1).value) == CanonicalJson.Write(DocOf(Obj(y), 1).value) <==> AllAgree(x, y, 1)
  {
    ObjectsTell(x, y, TOP_KEYS, 1);
    ObjectsTell(y, y, TOP_KEYS, 1);
    var d, e := DocOf(Obj(x), 1).value, DocOf(Obj(y), 1).value;
    if CanonicalJson.Write(d) == CanonicalJson.Write(e) { CanonicalJson.WriteInjective(d, e); }
  }
}
