/** What an accepted manifest says, read off its members one by one. */
module ManifestMeaning {
  import opened Common
  import opened Bytes
  import opened Lexical
  import opened Sequences
  import opened Sorting
  import opened TextEncoding
  import opened Utf16
  import opened ManifestModel
  import opened ManifestCanonical
  import ManifestTheorems
  import CanonicalJson
  import Utf8

  // ---- members ----

  ghost predicate Holds(o: Members, key: string, v: Value) { (Literal(key), v) in o }

  /** The text under `key` becomes `t` in normal form and passes the checks of its
      field. Only a description may be empty. */
  ghost predicate SaysText(o: Members, key: string, field: Field, t: Text, rules: Rules) {
    exists raw :: Holds(o, key, Str(raw)) && t == rules.nfc(raw) && (raw == [] ==> field == Description)
                  && !rules.control(raw) && rules.accepts(field, t)
  }

  lemma MemberIff(o: Members, key: string, v: Value)
    requires UniqueKeys(o)
    ensures Member(o, Literal(key)) == Some(v) <==> Holds(o, key, v)
  {
    MemberHas(o, Literal(key));
    if Holds(o, key, v) {
      var k :| 0 <= k < |o| && o[k] == (Literal(key), v);
      MemberAt(o, k);
    }
  }

  lemma TextIff(o: Members, key: string, field: Field, t: Text, rules: Rules)
    requires UniqueKeys(o)
    ensures TextOf(Member(o, Literal(key)), field, rules) == Some(t) <==> SaysText(o, key, field, t, rules)
  {
    MemberHas(o, Literal(key));
    if TextOf(Member(o, Literal(key)), field, rules) == Some(t) { MemberIff(o, key, Member(o, Literal(key)).value); }
    if SaysText(o, key, field, t, rules) {
      var raw :| Holds(o, key, Str(raw)) && t == rules.nfc(raw) && (raw == [] ==> field == Description)
                 && !rules.control(raw) && rules.accepts(field, t);
      MemberIff(o, key, Str(raw));
    }
  }

  lemma NumberIff(o: Members, key: string, low: int, high: int, n: Safe)
    requires UniqueKeys(o)
    ensures NumberOf(Member(o, Literal(key)), low, high) == Some(n) <==> Holds(o, key, Num(n)) && low <= n <= high
  {
    MemberIff(o, key, Num(n));
  }

  // ---- sections ----

  ghost predicate SaysIdentity(o: Members, i: Identity, rules: Rules) {
    |o| == 2 && SaysText(o, "logical_id", LogicalId, i.logicalId, rules) && SaysText(o, "public_id", PublicId, i.publicId, rules)
  }

  ghost predicate SaysDisplay(o: Members, d: Display, rules: Rules) {
    |o| == 2 && SaysText(o, "name", Name, d.name, rules) && SaysText(o, "description", Description, d.description, rules)
  }

  ghost predicate SaysSource(o: Members, s: Source, rules: Rules) {
    && |o| == 5 && SaysText(o, "authority", Authority, s.authority, rules) && SaysText(o, "kind", Kind, s.kind, rules)
    && SaysText(o, "namespace", Namespace, s.namespace, rules) && SaysText(o, "source_id", SourceId, s.sourceId, rules)
    && SaysText(o, "revision", Revision, s.revision, rules)
  }

  ghost predicate SaysProvenance(o: Members, p: Provenance, rules: Rules) {
    && |o| == 3 && SaysText(o, "publisher_id", PublisherId, p.publisherId, rules)
    && SaysText(o, "ingest_id", IngestId, p.ingestId, rules) && SaysText(o, "created_at", CreatedAt, p.createdAt, rules)
  }

  ghost predicate SaysCompatibility(o: Members, c: Compatibility) {
    && |o| == 2 && Holds(o, "manifest_major", Num(c.manifestMajor)) && 1 <= c.manifestMajor
    && Holds(o, "minimum_consumer_major", Num(c.minimumMajor)) && 1 <= c.minimumMajor
  }

  ghost predicate SaysFile(o: Members, f: File, rules: Rules) {
    && |o| == 5 && Holds(o, "path", Str(f.path)) && rules.path(f.path)
    && SaysText(o, "media_type", MediaType, f.mediaType, rules)
    && Holds(o, "utf8_bytes", Num(f.size)) && f.size <= 16_777_216
    && SaysText(o, "digest", FileDigest, f.digest, rules) && Holds(o, "executable", Bool(f.executable))
  }

  lemma IdentityIff(o: Members, i: Identity, rules: Rules)
    requires UniqueKeys(o)
    ensures IdentityOf(Some(Obj(o)), rules) == Some(i) <==> SaysIdentity(o, i, rules)
  {
    TextIff(o, "logical_id", LogicalId, i.logicalId, rules);
    TextIff(o, "public_id", PublicId, i.publicId, rules);
  }

  lemma DisplayIff(o: Members, d: Display, rules: Rules)
    requires UniqueKeys(o)
    ensures DisplayOf(Some(Obj(o)), rules) == Some(d) <==> SaysDisplay(o, d, rules)
  {
    TextIff(o, "name", Name, d.name, rules);
    TextIff(o, "description", Description, d.description, rules);
  }

  lemma SourceIff(o: Members, s: Source, rules: Rules)
    requires UniqueKeys(o)
    ensures SourceOf(Some(Obj(o)), rules) == Some(s) <==> SaysSource(o, s, rules)
  {
    TextIff(o, "authority", Authority, s.authority, rules);
    TextIff(o, "kind", Kind, s.kind, rules);
    TextIff(o, "namespace", Namespace, s.namespace, rules);
    TextIff(o, "source_id", SourceId, s.sourceId, rules);
    TextIff(o, "revision", Revision, s.revision, rules);
  }

  lemma ProvenanceIff(o: Members, p: Provenance, rules: Rules)
    requires UniqueKeys(o)
    ensures ProvenanceOf(Some(Obj(o)), rules) == Some(p) <==> SaysProvenance(o, p, rules)
  {
    TextIff(o, "publisher_id", PublisherId, p.publisherId, rules);
    TextIff(o, "ingest_id", IngestId, p.ingestId, rules);
    TextIff(o, "created_at", CreatedAt, p.createdAt, rules);
  }

  lemma CompatibilityIff(o: Members, c: Compatibility)
    requires UniqueKeys(o)
    ensures CompatibilityOf(Some(Obj(o))) == Some(c) <==> SaysCompatibility(o, c)
  {
    NumberIff(o, "manifest_major", 1, 0x1F_FFFF_FFFF_FFFF, c.manifestMajor);
    NumberIff(o, "minimum_consumer_major", 1, 0x1F_FFFF_FFFF_FFFF, c.minimumMajor);
  }

  lemma FileIff(o: Members, f: File, rules: Rules)
    requires UniqueKeys(o)
    ensures FileOf(Obj(o), rules) == Some(f) <==> SaysFile(o, f, rules)
  {
    MemberIff(o, "path", Str(f.path));
    TextIff(o, "media_type", MediaType, f.mediaType, rules);
    NumberIff(o, "utf8_bytes", 0, 16_777_216, f.size);
    TextIff(o, "digest", FileDigest, f.digest, rules);
    MemberIff(o, "executable", Bool(f.executable));
  }

  /** Nothing else has members to read. */
  lemma OnlyObjects(v: Value, rules: Rules)
    requires !v.Obj?
    ensures IdentityOf(Some(v), rules).None? && DisplayOf(Some(v), rules).None? && SourceOf(Some(v), rules).None?
    ensures ProvenanceOf(Some(v), rules).None? && CompatibilityOf(Some(v)).None? && FileOf(v, rules).None?
  {
  }

  // ---- files ----

  /** As JSON.parse leaves an object: each key once. */
  ghost predicate Keyed(v: Value) { v.Obj? ==> UniqueKeys(v.members) }

  ghost predicate SaysFileAt(v: Value, f: File, rules: Rules) { v.Obj? && SaysFile(v.members, f, rules) }

  ghost predicate SaysFiles(items: seq<Value>, files: seq<File>, rules: Rules) {
    |files| == |items| && forall i :: 0 <= i < |items| ==> SaysFileAt(items[i], files[i], rules)
  }

  ghost predicate AllKeyed(items: seq<Value>) { forall i :: 0 <= i < |items| ==> Keyed(items[i]) }

  lemma FileAtIff(v: Value, f: File, rules: Rules)
    requires Keyed(v)
    ensures FileOf(v, rules) == Some(f) <==> SaysFileAt(v, f, rules)
  {
    if v.Obj? { FileIff(v.members, f, rules); } else { OnlyObjects(v, rules); }
  }

  lemma {:induction false} FilesIff(items: seq<Value>, files: seq<File>, rules: Rules)
    requires AllKeyed(items)
    ensures FilesOf(items, rules) == Some(files) <==> SaysFiles(items, files, rules)
  {
    if items != [] && files != [] {
      FileAtIff(items[0], files[0], rules);
      FilesIff(items[1..], files[1..], rules);
      FirstAndRest(items, files, rules);
      Uncons(files);
    }
  }

  lemma FirstAndRest(items: seq<Value>, files: seq<File>, rules: Rules)
    requires items != [] && files != []
    ensures SaysFiles(items, files, rules) <==>
              SaysFileAt(items[0], files[0], rules) && SaysFiles(items[1..], files[1..], rules)
  {
    if SaysFileAt(items[0], files[0], rules) && SaysFiles(items[1..], files[1..], rules) {
      forall i | 0 <= i < |items| ensures SaysFileAt(items[i], files[i], rules) {
        if i > 0 { assert items[i] == items[1..][i - 1] && files[i] == files[1..][i - 1]; }
      }
    }
    if SaysFiles(items, files, rules) {
      forall i | 0 <= i < |items[1..]| ensures SaysFileAt(items[1..][i], files[1..][i], rules) {
        assert items[i + 1] == items[1..][i] && files[i + 1] == files[1..][i];
      }
    }
  }

  /** One to 2048 files with different folded paths. */
  ghost predicate SaysList(items: seq<Value>, files: seq<File>, rules: Rules) {
    && 1 <= |items| <= 2_048 && SaysFiles(items, files, rules)
    && forall i, j :: 0 <= i < j < |files| ==> rules.fold(files[i].path) != rules.fold(files[j].path)
  }

  lemma ListIff(items: seq<Value>, files: seq<File>, rules: Rules)
    requires AllKeyed(items)
    ensures FileListOf(Some(Arr(items)), rules) == Some(files) <==> SaysList(items, files, rules)
  {
    FilesIff(items, files, rules);
  }

  // ---- the whole input ----

  const KEYS := ["schema_version", "identity", "display", "source", "files", "provenance", "compatibility", "manifest_digest"]

  ghost predicate KeyIn(key: Text) { exists k :: 0 <= k < 8 && key == Literal(KEYS[k]) }

  ghost predicate OnlyThese(input: Members) { forall i :: 0 <= i < |input| ==> KeyIn(input[i].0) }

  /** As JSON.parse leaves it: each key once, here, in the sections and in the files. */
  ghost predicate Parsed(input: Members) {
    && UniqueKeys(input)
    && forall i :: 0 <= i < |input| ==> Keyed(input[i].1) && (input[i].1.Arr? ==> AllKeyed(input[i].1.items))
  }

  datatype Parts = Parts(i: Identity, d: Display, s: Source, listed: seq<File>, p: Provenance, c: Compatibility)

  ghost predicate HasIdentity(input: Members, i: Identity, rules: Rules) {
    exists o :: Holds(input, "identity", Obj(o)) && SaysIdentity(o, i, rules)
  }

  ghost predicate HasDisplay(input: Members, d: Display, rules: Rules) {
    exists o :: Holds(input, "display", Obj(o)) && SaysDisplay(o, d, rules)
  }

  ghost predicate HasSource(input: Members, s: Source, rules: Rules) {
    exists o :: Holds(input, "source", Obj(o)) && SaysSource(o, s, rules)
  }

  ghost predicate HasFiles(input: Members, files: seq<File>, rules: Rules) {
    exists items :: Holds(input, "files", Arr(items)) && SaysList(items, files, rules)
  }

  ghost predicate HasProvenance(input: Members, p: Provenance, rules: Rules) {
    exists o :: Holds(input, "provenance", Obj(o)) && SaysProvenance(o, p, rules)
  }

  ghost predicate HasCompatibility(input: Members, c: Compatibility) {
    exists o :: Holds(input, "compatibility", Obj(o)) && SaysCompatibility(o, c)
  }

  /** The input says `m`, its files listed as `listed`. */
  ghost predicate Says(input: Members, m: Manifest, listed: seq<File>, rules: Rules) {
    && OnlyThese(input) && Holds(input, "schema_version", Str(m.schema)) && rules.schema(m.schema)
    && HasIdentity(input, Identity(m.logicalId, m.publicId), rules)
    && HasDisplay(input, Display(m.name, m.description), rules)
    && HasSource(input, Source(m.authority, m.kind, m.namespace, m.sourceId, m.revision), rules)
    && HasFiles(input, listed, rules)
    && HasProvenance(input, Provenance(m.publisherId, m.ingestId, m.createdAt), rules)
    && HasCompatibility(input, Compatibility(m.manifestMajor, m.minimumMajor))
  }

  /** The same files, rising by the UTF-8 bytes of their paths. */
  ghost predicate ByPath(files: seq<File>, listed: seq<File>) {
    && multiset(files) == multiset(listed)
    && forall i, j :: 0 <= i < j < |files| ==> !Below(Utf8Of(files[j].path), Utf8Of(files[i].path))
  }

  lemma HeldIsKeyed(input: Members, key: string, v: Value)
    requires Parsed(input) && Holds(input, key, v)
    ensures Keyed(v) && (v.Arr? ==> AllKeyed(v.items))
  {
    var i :| 0 <= i < |input| && input[i] == (Literal(key), v);
    assert Keyed(input[i].1);
  }

  lemma HasIdentityIff(input: Members, i: Identity, rules: Rules)
    requires Parsed(input)
    ensures IdentityOf(Member(input, Literal("identity")), rules) == Some(i) <==> HasIdentity(input, i, rules)
  {
    match Member(input, Literal("identity"))
    case None => MemberHas(input, Literal("identity"));
    case Some(w) =>
      MemberIff(input, "identity", w);
      HeldIsKeyed(input, "identity", w);
      if w.Obj? { IdentityIff(w.members, i, rules); }
      if o :| Holds(input, "identity", Obj(o)) && SaysIdentity(o, i, rules) { MemberIff(input, "identity", Obj(o)); }
  }

  lemma HasDisplayIff(input: Members, d: Display, rules: Rules)
    requires Parsed(input)
    ensures DisplayOf(Member(input, Literal("display")), rules) == Some(d) <==> HasDisplay(input, d, rules)
  {
    match Member(input, Literal("display"))
    case None => MemberHas(input, Literal("display"));
    case Some(w) =>
      MemberIff(input, "display", w);
      HeldIsKeyed(input, "display", w);
      if w.Obj? { DisplayIff(w.members, d, rules); }
      if o :| Holds(input, "display", Obj(o)) && SaysDisplay(o, d, rules) { MemberIff(input, "display", Obj(o)); }
  }

  lemma HasSourceIff(input: Members, s: Source, rules: Rules)
    requires Parsed(input)
    ensures SourceOf(Member(input, Literal("source")), rules) == Some(s) <==> HasSource(input, s, rules)
  {
    match Member(input, Literal("source"))
    case None => MemberHas(input, Literal("source"));
    case Some(w) =>
      MemberIff(input, "source", w);
      HeldIsKeyed(input, "source", w);
      if w.Obj? { SourceIff(w.members, s, rules); }
      if o :| Holds(input, "source", Obj(o)) && SaysSource(o, s, rules) { MemberIff(input, "source", Obj(o)); }
  }

  lemma HasProvenanceIff(input: Members, p: Provenance, rules: Rules)
    requires Parsed(input)
    ensures ProvenanceOf(Member(input, Literal("provenance")), rules) == Some(p) <==> HasProvenance(input, p, rules)
  {
    match Member(input, Literal("provenance"))
    case None => MemberHas(input, Literal("provenance"));
    case Some(w) =>
      MemberIff(input, "provenance", w);
      HeldIsKeyed(input, "provenance", w);
      if w.Obj? { ProvenanceIff(w.members, p, rules); }
      if o :| Holds(input, "provenance", Obj(o)) && SaysProvenance(o, p, rules) { MemberIff(input, "provenance", Obj(o)); }
  }

  lemma HasCompatibilityIff(input: Members, c: Compatibility)
    requires Parsed(input)
    ensures CompatibilityOf(Member(input, Literal("compatibility"))) == Some(c) <==> HasCompatibility(input, c)
  {
    match Member(input, Literal("compatibility"))
    case None => MemberHas(input, Literal("compatibility"));
    case Some(w) =>
      MemberIff(input, "compatibility", w);
      HeldIsKeyed(input, "compatibility", w);
      if w.Obj? { CompatibilityIff(w.members, c); }
      if o :| Holds(input, "compatibility", Obj(o)) && SaysCompatibility(o, c) { MemberIff(input, "compatibility", Obj(o)); }
  }

  lemma HasFilesIff(input: Members, files: seq<File>, rules: Rules)
    requires Parsed(input)
    ensures FileListOf(Member(input, Literal("files")), rules) == Some(files) <==> HasFiles(input, files, rules)
  {
    match Member(input, Literal("files"))
    case None => MemberHas(input, Literal("files"));
    case Some(w) =>
      MemberIff(input, "files", w);
      HeldIsKeyed(input, "files", w);
      if w.Arr? { ListIff(w.items, files, rules); }
      if items :| Holds(input, "files", Arr(items)) && SaysList(items, files, rules) { MemberIff(input, "files", Arr(items)); }
  }

  lemma KnownIff(input: Members)
    ensures AllKnown(input) <==> OnlyThese(input)
  {
    forall key: Text ensures Known(key) <==> KeyIn(key) {
      assert KEYS[0] == "schema_version" && KEYS[1] == "identity" && KEYS[2] == "display" && KEYS[3] == "source";
      assert KEYS[4] == "files" && KEYS[5] == "provenance" && KEYS[6] == "compatibility" && KEYS[7] == "manifest_digest";
    }
  }

  lemma SchemaIff(input: Members, t: Text, rules: Rules)
    requires Parsed(input)
    ensures SchemaOf(Member(input, Literal("schema_version")), rules) == Some(t) <==>
              Holds(input, "schema_version", Str(t)) && rules.schema(t)
  {
    MemberIff(input, "schema_version", Str(t));
  }

  lemma SortedByPath(listed: seq<File>)
    ensures ByPath(SortFiles(listed), listed)
  {
    FileOrders();
    SortPermutes(listed, FileBelow);
    SortAscends(listed, FileBelow);
    var files := SortFiles(listed);
    forall i, j | 0 <= i < j < |files| ensures !Below(Utf8Of(files[j].path), Utf8Of(files[i].path)) {
      assert !FileBelow(files[j], files[i]);
    }
  }

  /** What is read says so: every field is the member of its name, checked and in
      normal form, and the files rise by path. Input that says a manifest is read. */
  lemma ReadMeans(input: Members, rules: Rules, m: Manifest)
    requires Parsed(input) && Projection(input, rules) == Some(m)
    ensures exists listed :: Says(input, m, listed, rules) && ByPath(m.files, listed)
  {
    KnownIff(input);
    SchemaIff(input, m.schema, rules);
    var listed := FileListOf(Member(input, Literal("files")), rules).value;
    FirstMean(input, rules, m);
    LastMean(input, rules, m, listed);
    SortedByPath(listed);
    assert Says(input, m, listed, rules);
  }

  lemma FirstMean(input: Members, rules: Rules, m: Manifest)
    requires Parsed(input) && Projection(input, rules) == Some(m)
    ensures HasIdentity(input, Identity(m.logicalId, m.publicId), rules)
    ensures HasDisplay(input, Display(m.name, m.description), rules)
    ensures HasSource(input, Source(m.authority, m.kind, m.namespace, m.sourceId, m.revision), rules)
  {
    HasIdentityIff(input, Identity(m.logicalId, m.publicId), rules);
    HasDisplayIff(input, Display(m.name, m.description), rules);
    HasSourceIff(input, Source(m.authority, m.kind, m.namespace, m.sourceId, m.revision), rules);
  }

  lemma LastMean(input: Members, rules: Rules, m: Manifest, listed: seq<File>)
    requires Parsed(input) && Projection(input, rules) == Some(m)
    requires FileListOf(Member(input, Literal("files")), rules) == Some(listed)
    ensures HasFiles(input, listed, rules)
    ensures HasProvenance(input, Provenance(m.publisherId, m.ingestId, m.createdAt), rules)
    ensures HasCompatibility(input, Compatibility(m.manifestMajor, m.minimumMajor))
  {
    HasFilesIff(input, listed, rules);
    HasProvenanceIff(input, Provenance(m.publisherId, m.ingestId, m.createdAt), rules);
    HasCompatibilityIff(input, Compatibility(m.manifestMajor, m.minimumMajor));
  }

  lemma SaidIsRead(input: Members, rules: Rules, m: Manifest, listed: seq<File>)
    requires Parsed(input) && Says(input, m, listed, rules)
    ensures Projection(input, rules) == Some(m.(files := SortFiles(listed)))
  {
    KnownIff(input);
    SchemaIff(input, m.schema, rules);
    HasIdentityIff(input, Identity(m.logicalId, m.publicId), rules);
    HasDisplayIff(input, Display(m.name, m.description), rules);
    HasSourceIff(input, Source(m.authority, m.kind, m.namespace, m.sourceId, m.revision), rules);
    HasFilesIff(input, listed, rules);
    HasProvenanceIff(input, Provenance(m.publisherId, m.ingestId, m.createdAt), rules);
    HasCompatibilityIff(input, Compatibility(m.manifestMajor, m.minimumMajor));
  }

  // ---- what is written ----

  type Pairs = seq<(Utf8.Text, CanonicalJson.Doc)>

  /** Keys rise by their UTF-8 bytes. */
  ghost predicate KeysRise(pairs: Pairs) {
    forall i, j :: 0 <= i < j < |pairs| ==> !Below(Utf8.Encode(pairs[j].0), Utf8.Encode(pairs[i].0))
  }

  /** `d` stands for `v`: the same values in the same places, keys in byte order at
      every level, no null, no odd number, and at most ten levels. */
  ghost predicate Stands(d: CanonicalJson.Doc, v: Value, depth: nat)
    decreases v
  {
    depth <= 10 && match v
      case Null => false
      case OddNumber => false
      case Bool(b) => d == CanonicalJson.Bool(b)
      case Num(n) => d == CanonicalJson.Num(n)
      case Str(t) => d == CanonicalJson.Str(Scalars(t))
      case Arr(items) => d.Arr? && |d.items| == |items| && forall i :: 0 <= i < |items| ==> Stands(d.items[i], items[i], depth + 1)
      case Obj(members) =>
        d.Obj? && KeysRise(d.members) && exists pairs: Pairs ::
          && multiset(pairs) == multiset(d.members) && |pairs| == |members|
          && forall i :: 0 <= i < |members| ==> pairs[i].0 == Scalars(members[i].0) && Stands(pairs[i].1, members[i].1, depth + 1)
  }

  ghost predicate Plain(v: Value, depth: nat)
    decreases v
  {
    depth <= 10 && match v
      case Null => false
      case OddNumber => false
      case Bool(_) => true
      case Num(_) => true
      case Str(_) => true
      case Arr(items) => forall i :: 0 <= i < |items| ==> Plain(items[i], depth + 1)
      case Obj(members) => forall i :: 0 <= i < |members| ==> Plain(members[i].1, depth + 1)
  }

  lemma {:induction false} DocStands(v: Value, depth: nat)
    ensures DocOf(v, depth).Some? <==> Plain(v, depth)
    ensures DocOf(v, depth).Some? ==> Stands(DocOf(v, depth).value, v, depth)
    decreases v, 1
  {
    if depth <= 10 {
      match v
      case Arr(items) => DocsStand(items, depth + 1);
      case Obj(members) =>
        PairsStand(members, depth + 1);
        if PairsOf(members, depth + 1).Some? { SortedStand(members, depth, PairsOf(members, depth + 1).value); }
      case _ =>
    }
  }

  lemma {:induction false} DocsStand(items: seq<Value>, depth: nat)
    ensures DocsOf(items, depth).Some? <==> forall i :: 0 <= i < |items| ==> Plain(items[i], depth)
    ensures DocsOf(items, depth).Some? ==> |DocsOf(items, depth).value| == |items|
    ensures DocsOf(items, depth).Some? ==>
              forall i :: 0 <= i < |items| ==> Stands(DocsOf(items, depth).value[i], items[i], depth)
    decreases items, 0
  {
    if items != [] {
      DocStands(items[0], depth);
      DocsStand(items[1..], depth);
      assert forall i :: 0 <= i < |items| ==> items[i] == if i == 0 then items[0] else items[1..][i - 1];
      assert forall i :: 0 <= i < |items[1..]| ==> items[1..][i] == items[i + 1];
    }
  }

  ghost predicate PairStands(pair: (Utf8.Text, CanonicalJson.Doc), m: (Text, Value), depth: nat) {
    pair.0 == Scalars(m.0) && Stands(pair.1, m.1, depth)
  }

  lemma {:induction false} MemberStands(m: (Text, Value), depth: nat)
    ensures DocOf(m.1, depth).Some? <==> Plain(m.1, depth)
    ensures DocOf(m.1, depth).Some? ==> Stands(DocOf(m.1, depth).value, m.1, depth)
    decreases m, 0
  {
    DocStands(m.1, depth);
  }

  lemma {:induction false} PairsStand(members: Members, depth: nat)
    ensures PairsOf(members, depth).Some? <==> forall i :: 0 <= i < |members| ==> Plain(members[i].1, depth)
    ensures PairsOf(members, depth).Some? ==> |PairsOf(members, depth).value| == |members|
    ensures PairsOf(members, depth).Some? ==>
              forall i :: 0 <= i < |members| ==> PairStands(PairsOf(members, depth).value[i], members[i], depth)
    decreases members, 0
  {
    if members != [] {
      MemberStands(members[0], depth);
      PairsStand(members[1..], depth);
      assert forall i :: 0 <= i < |members| ==> members[i] == if i == 0 then members[0] else members[1..][i - 1];
      assert forall i :: 0 <= i < |members[1..]| ==> members[1..][i] == members[i + 1];
    }
  }

  lemma SortedStand(members: Members, depth: nat, pairs: Pairs)
    requires depth <= 10 && |pairs| == |members|
    requires forall i :: 0 <= i < |members| ==> PairStands(pairs[i], members[i], depth + 1)
    ensures Stands(CanonicalJson.Obj(SortBy(pairs, MemberBelow)), Obj(members), depth)
  {
    RisesBySort(pairs);
    SortPermutes(pairs, MemberBelow);
    assert forall i :: 0 <= i < |members| ==> pairs[i].0 == Scalars(members[i].0) && Stands(pairs[i].1, members[i].1, depth + 1)
    by { assert forall i :: 0 <= i < |members| ==> PairStands(pairs[i], members[i], depth + 1); }
  }

  lemma MembersInOrder()
    ensures Orders(MemberBelow)
  {
    forall a, b, c
      ensures !MemberBelow(a, a)
      ensures MemberBelow(a, b) && MemberBelow(b, c) ==> MemberBelow(a, c)
      ensures MemberBelow(a, c) ==> MemberBelow(a, b) || MemberBelow(b, c)
    {
      NotBelowItself(Utf8.Encode(a.0));
      BelowTransitive(Utf8.Encode(a.0), Utf8.Encode(b.0), Utf8.Encode(c.0));
    }
  }

  lemma RisesBySort(pairs: Pairs)
    ensures KeysRise(SortBy(pairs, MemberBelow))
  {
    MembersInOrder();
    SortAscends(pairs, MemberBelow);
    var sorted := SortBy(pairs, MemberBelow);
    forall i, j | 0 <= i < j < |sorted| ensures !Below(Utf8.Encode(sorted[j].0), Utf8.Encode(sorted[i].0)) {
      assert !MemberBelow(sorted[j], sorted[i]);
    }
  }

  /** A claimed digest, if there is one, is `digest`. */
  ghost predicate Claims(input: Members, digest: Text, rules: Rules) {
    forall v :: Holds(input, "manifest_digest", v) ==> SaysText(input, "manifest_digest", ManifestDigest, digest, rules)
  }

  /** `c` is the canonical form of the manifest `m`. */
  ghost predicate Stated(c: Canonical, m: Manifest, rules: Rules) {
    && c.manifest == m && |c.bytes| <= 262_144 && c.digest == rules.digest(c.bytes)
    && exists d :: Stands(d, Obj(TopMembers(m)), 1) && c.bytes == CanonicalJson.Write(d)
  }

  lemma ClaimIff(input: Members, digest: Text, rules: Rules)
    requires Parsed(input)
    ensures Claims(input, digest, rules) <==>
              Member(input, Literal("manifest_digest")).None?
              || TextOf(Member(input, Literal("manifest_digest")), ManifestDigest, rules) == Some(digest)
  {
    TextIff(input, "manifest_digest", ManifestDigest, digest, rules);
    MemberHas(input, Literal("manifest_digest"));
    match Member(input, Literal("manifest_digest"))
    case None =>
    case Some(w) => MemberIff(input, "manifest_digest", w);
  }

  /** The canonical form of accepted input is that of a manifest the input says, its
      digest is of its bytes, and a claimed digest is the true one. */
  lemma CanonicalMeans(input: Members, rules: Rules)
    requires Parsed(input) && Canonicalize(input, rules).Some?
    ensures var c := Canonicalize(input, rules).value;
            && Stated(c, c.manifest, rules) && Claims(input, c.digest, rules)
            && exists listed :: Says(input, c.manifest, listed, rules) && ByPath(c.manifest.files, listed)
  {
    var c := Canonicalize(input, rules).value;
    ReadMeans(input, rules, c.manifest);
    ClaimIff(input, c.digest, rules);
    DocStands(Obj(TopMembers(c.manifest)), 1);
  }

  /** Input that says a manifest is refused only for its size or a false claim. */
  lemma RefusedMeans(input: Members, rules: Rules, m: Manifest, listed: seq<File>)
    requires Parsed(input) && Says(input, m, listed, rules) && Canonicalize(input, rules).None?
    ensures var read := m.(files := SortFiles(listed));
            ByPath(read.files, listed) && CanonicalBytes(read).Some?
            && (|CanonicalBytes(read).value| > 262_144 || !Claims(input, rules.digest(CanonicalBytes(read).value), rules))
  {
    var read := m.(files := SortFiles(listed));
    SaidIsRead(input, rules, m, listed);
    SortedByPath(listed);
    ManifestTheorems.BytesTell(read, read);
    ClaimIff(input, rules.digest(CanonicalBytes(read).value), rules);
  }
}
