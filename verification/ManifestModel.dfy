/** Managed skill manifests: parsing, and their canonical bytes and digest. */
module ManifestModel {
  import opened Common
  import opened Bytes
  import opened Lexical
  import opened Sequences
  import opened Sorting
  import opened TextEncoding
  import opened Utf16
  import CanonicalJson
  import Utf8

  type Safe = n: int | 0 <= n <= 0x1F_FFFF_FFFF_FFFF

  /** A parsed JSON value. `OddNumber` is a number that is negative, fractional,
      negative zero or beyond the safe integers. */
  datatype Value =
    | Null
    | Bool(b: bool)
    | Num(n: Safe)
    | OddNumber
    | Str(t: Text)
    | Arr(items: seq<Value>)
    | Obj(members: seq<(Text, Value)>)

  type Members = seq<(Text, Value)>

  datatype File = File(path: Text, mediaType: Text, size: Safe, digest: Text, executable: bool)

  datatype Manifest = Manifest(
    schema: Text, logicalId: Text, publicId: Text, name: Text, description: Text,
    authority: Text, kind: Text, namespace: Text, sourceId: Text, revision: Text, files: seq<File>,
    publisherId: Text, ingestId: Text, createdAt: Text, manifestMajor: Safe, minimumMajor: Safe)

  datatype Field =
    | LogicalId | PublicId | Name | Description | Authority | Kind | Namespace | SourceId | Revision
    | PublisherId | IngestId | CreatedAt | MediaType | FileDigest | ManifestDigest

  /** Normal form C, control characters, the checks on a normalized field, the checks
      on the version and on a path, case folding of paths, and SHA-256 in text form. */
  datatype Rules = Rules(
    nfc: Text -> Text, control: Text -> bool, accepts: (Field, Text) -> bool,
    schema: Text -> bool, path: Text -> bool, fold: Text -> Text, digest: seq<byte> -> Text)

  /** Normalizing twice changes nothing and brings in no control character, and a
      digest in text form is an acceptable digest. */
  ghost predicate Lawful(rules: Rules) {
    && (forall t :: rules.nfc(rules.nfc(t)) == rules.nfc(t))
    && (forall t :: !rules.control(t) ==> !rules.control(rules.nfc(t)))
    && (forall t :: t != [] ==> rules.nfc(t) != [])
    && (forall b :: rules.digest(b) != [] && !rules.control(rules.digest(b)) && rules.nfc(rules.digest(b)) == rules.digest(b)
                    && rules.accepts(ManifestDigest, rules.digest(b)))
  }

  // ---- serialization ----

  predicate MemberBelow(a: (Utf8.Text, CanonicalJson.Doc), b: (Utf8.Text, CanonicalJson.Doc)) {
    Below(Utf8.Encode(a.0), Utf8.Encode(b.0))
  }

  /** The document that is written: members by the bytes of their keys, strings as
      scalar values. Null, odd numbers and deep nesting are refused. */
  function DocOf(v: Value, depth: nat): Option<CanonicalJson.Doc>
    decreases v
  {
    if depth > 10 then None
    else match v
      case Null => None
      case OddNumber => None
      case Bool(b) => Some(CanonicalJson.Bool(b))
      case Num(n) => Some(CanonicalJson.Num(n))
      case Str(t) => Some(CanonicalJson.Str(Scalars(t)))
      case Arr(items) => (match DocsOf(items, depth + 1) case None => None case Some(docs) => Some(CanonicalJson.Arr(docs)))
      case Obj(members) =>
        match PairsOf(members, depth + 1) case None => None case Some(pairs) => Some(CanonicalJson.Obj(SortBy(pairs, MemberBelow)))
  }

  function DocsOf(items: seq<Value>, depth: nat): Option<seq<CanonicalJson.Doc>>
    decreases items
  {
    if items == [] then Some([])
    else match (DocOf(items[0], depth), DocsOf(items[1..], depth))
      case (Some(d), Some(rest)) => Some([d] + rest)
      case _ => None
  }

  function PairsOf(members: Members, depth: nat): Option<seq<(Utf8.Text, CanonicalJson.Doc)>>
    decreases members
  {
    if members == [] then Some([])
    else
      match (PairOf(members[0], depth), PairsOf(members[1..], depth))
      case (Some(pair), Some(rest)) => Some([pair] + rest)
      case _ => None
  }

  function PairOf(m: (Text, Value), depth: nat): Option<(Utf8.Text, CanonicalJson.Doc)>
    decreases m
  {
    match DocOf(m.1, depth) case None => None case Some(d) => Some((Scalars(m.0), d))
  }

  // ---- typed manifests as values ----

  function FileValue(f: File): Value {
    Obj([(Literal("path"), Str(f.path)), (Literal("media_type"), Str(f.mediaType)), (Literal("utf8_bytes"), Num(f.size)),
         (Literal("digest"), Str(f.digest)), (Literal("executable"), Bool(f.executable))])
  }

  function FileValues(files: seq<File>): (values: seq<Value>)
    ensures |values| == |files|
    ensures forall i :: 0 <= i < |files| ==> values[i] == FileValue(files[i])
  {
    seq(|files|, i requires 0 <= i < |files| => FileValue(files[i]))
  }

  function IdentityValue(m: Manifest): Value {
    Obj([(Literal("logical_id"), Str(m.logicalId)), (Literal("public_id"), Str(m.publicId))])
  }

  function DisplayValue(m: Manifest): Value {
    Obj([(Literal("name"), Str(m.name)), (Literal("description"), Str(m.description))])
  }

  function SourceValue(m: Manifest): Value {
    Obj([(Literal("authority"), Str(m.authority)), (Literal("kind"), Str(m.kind)), (Literal("namespace"), Str(m.namespace)),
         (Literal("source_id"), Str(m.sourceId)), (Literal("revision"), Str(m.revision))])
  }

  function ProvenanceValue(m: Manifest): Value {
    Obj([(Literal("publisher_id"), Str(m.publisherId)), (Literal("ingest_id"), Str(m.ingestId)), (Literal("created_at"), Str(m.createdAt))])
  }

  function CompatibilityValue(m: Manifest): Value {
    Obj([(Literal("manifest_major"), Num(m.manifestMajor)), (Literal("minimum_consumer_major"), Num(m.minimumMajor))])
  }

  function TopMembers(m: Manifest): Members {
    [(Literal("schema_version"), Str(m.schema)), (Literal("identity"), IdentityValue(m)), (Literal("display"), DisplayValue(m)),
     (Literal("source"), SourceValue(m)), (Literal("files"), Arr(FileValues(m.files))),
     (Literal("provenance"), ProvenanceValue(m)), (Literal("compatibility"), CompatibilityValue(m))]
  }

  // ---- parsing ----

  function Member(members: Members, key: Text): Option<Value> {
    if members == [] then None else if members[0].0 == key then Some(members[0].1) else Member(members[1..], key)
  }

  /** A JavaScript object has each key once. */
  predicate UniqueKeys(members: Members) {
    forall i, j :: 0 <= i < j < |members| ==> members[i].0 != members[j].0
  }

  /** `requireString`: the text in normal form. */
  function TextOf(v: Option<Value>, field: Field, rules: Rules): Option<Text> {
    match v
    case Some(Str(t)) =>
      if (t == [] && !field.Description?) || rules.control(t) || !rules.accepts(field, rules.nfc(t)) then None else Some(rules.nfc(t))
    case _ => None
  }

  /** `requireSafeInteger`. */
  function NumberOf(v: Option<Value>, low: int, high: int): Option<Safe> {
    match v case Some(Num(n)) => if low <= n <= high then Some(n) else None case _ => None
  }

  /** The members of an object with exactly `count` members. */
  function ObjectOf(v: Option<Value>, count: nat): Option<Members> {
    match v case Some(Obj(o)) => if |o| == count then Some(o) else None case _ => None
  }

  function FileOf(v: Value, rules: Rules): Option<File> {
    match ObjectOf(Some(v), 5)
    case None => None
    case Some(o) =>
      match (Member(o, Literal("path")), TextOf(Member(o, Literal("media_type")), MediaType, rules),
             NumberOf(Member(o, Literal("utf8_bytes")), 0, 16_777_216), TextOf(Member(o, Literal("digest")), FileDigest, rules),
             Member(o, Literal("executable")))
      case (Some(Str(path)), Some(media), Some(size), Some(digest), Some(Bool(executable))) =>
        if rules.path(path) then Some(File(path, media, size, digest, executable)) else None
      case _ => None
  }

  function FilesOf(items: seq<Value>, rules: Rules): Option<seq<File>> {
    if items == [] then Some([])
    else match (FileOf(items[0], rules), FilesOf(items[1..], rules))
      case (Some(f), Some(rest)) => Some([f] + rest)
      case _ => None
  }

  /** No two paths fold to the same key. */
  predicate Distinct(files: seq<File>, rules: Rules) {
    forall i, j :: 0 <= i < j < |files| ==> rules.fold(files[i].path) != rules.fold(files[j].path)
  }

  predicate FileBelow(a: File, b: File) { Below(Utf8Of(a.path), Utf8Of(b.path)) }

  function SortFiles(files: seq<File>): seq<File> { SortBy(files, FileBelow) }

  datatype Identity = Identity(logicalId: Text, publicId: Text)
  datatype Display = Display(name: Text, description: Text)
  datatype Source = Source(authority: Text, kind: Text, namespace: Text, sourceId: Text, revision: Text)
  datatype Provenance = Provenance(publisherId: Text, ingestId: Text, createdAt: Text)
  datatype Compatibility = Compatibility(manifestMajor: Safe, minimumMajor: Safe)

  function IdentityOf(v: Option<Value>, rules: Rules): Option<Identity> {
    match ObjectOf(v, 2)
    case None => None
    case Some(o) =>
      match (TextOf(Member(o, Literal("logical_id")), LogicalId, rules), TextOf(Member(o, Literal("public_id")), PublicId, rules))
      case (Some(a), Some(b)) => Some(Identity(a, b))
      case _ => None
  }

  function DisplayOf(v: Option<Value>, rules: Rules): Option<Display> {
    match ObjectOf(v, 2)
    case None => None
    case Some(o) =>
      match (TextOf(Member(o, Literal("name")), Name, rules), TextOf(Member(o, Literal("description")), Description, rules))
      case (Some(a), Some(b)) => Some(Display(a, b))
      case _ => None
  }

  function SourceOf(v: Option<Value>, rules: Rules): Option<Source> {
    match ObjectOf(v, 5)
    case None => None
    case Some(o) =>
      match (TextOf(Member(o, Literal("authority")), Authority, rules), TextOf(Member(o, Literal("kind")), Kind, rules),
             TextOf(Member(o, Literal("namespace")), Namespace, rules), TextOf(Member(o, Literal("source_id")), SourceId, rules),
             TextOf(Member(o, Literal("revision")), Revision, rules))
      case (Some(a), Some(b), Some(c), Some(d), Some(e)) => Some(Source(a, b, c, d, e))
      case _ => None
  }

  function ProvenanceOf(v: Option<Value>, rules: Rules): Option<Provenance> {
    match ObjectOf(v, 3)
    case None => None
    case Some(o) =>
      match (TextOf(Member(o, Literal("publisher_id")), PublisherId, rules), TextOf(Member(o, Literal("ingest_id")), IngestId, rules),
             TextOf(Member(o, Literal("created_at")), CreatedAt, rules))
      case (Some(a), Some(b), Some(c)) => Some(Provenance(a, b, c))
      case _ => None
  }

  function CompatibilityOf(v: Option<Value>): Option<Compatibility> {
    match ObjectOf(v, 2)
    case None => None
    case Some(o) =>
      match (NumberOf(Member(o, Literal("manifest_major")), 1, 0x1F_FFFF_FFFF_FFFF),
             NumberOf(Member(o, Literal("minimum_consumer_major")), 1, 0x1F_FFFF_FFFF_FFFF))
      case (Some(a), Some(b)) => Some(Compatibility(a, b))
      case _ => None
  }

  predicate Known(key: Text) {
    key == Literal("schema_version") || key == Literal("identity") || key == Literal("display") || key == Literal("source")
    || key == Literal("files") || key == Literal("provenance") || key == Literal("compatibility") || key == Literal("manifest_digest")
  }

  predicate AllKnown(members: Members) { forall i :: 0 <= i < |members| ==> Known(members[i].0) }

  function ManifestFrom(schema: Text, i: Identity, d: Display, s: Source, files: seq<File>, p: Provenance, c: Compatibility): Manifest {
    Manifest(schema, i.logicalId, i.publicId, d.name, d.description, s.authority, s.kind, s.namespace, s.sourceId, s.revision,
             files, p.publisherId, p.ingestId, p.createdAt, c.manifestMajor, c.minimumMajor)
  }

  function SchemaOf(v: Option<Value>, rules: Rules): Option<Text> {
    match v case Some(Str(t)) => if rules.schema(t) then Some(t) else None case _ => None
  }

  function FileListOf(v: Option<Value>, rules: Rules): Option<seq<File>> {
    match v
    case Some(Arr(items)) =>
      if items == [] || |items| > 2_048 then None
      else (match FilesOf(items, rules) case None => None case Some(files) => if Distinct(files, rules) then Some(files) else None)
    case _ => None
  }

  /** The accepted projection, with its files sorted by path. */
  function Projection(input: Members, rules: Rules): Option<Manifest> {
    if !AllKnown(input) then None
    else match (SchemaOf(Member(input, Literal("schema_version")), rules), IdentityOf(Member(input, Literal("identity")), rules),
                DisplayOf(Member(input, Literal("display")), rules), SourceOf(Member(input, Literal("source")), rules),
                FileListOf(Member(input, Literal("files")), rules), ProvenanceOf(Member(input, Literal("provenance")), rules),
                CompatibilityOf(Member(input, Literal("compatibility"))))
      case (Some(schema), Some(i), Some(d), Some(s), Some(files), Some(p), Some(c)) =>
        Some(ManifestFrom(schema, i, d, s, SortFiles(files), p, c))
      case _ => None
  }

  function CanonicalBytes(m: Manifest): Option<seq<byte>> {
    match DocOf(Obj(TopMembers(m)), 1) case None => None case Some(d) => Some(CanonicalJson.Write(d))
  }

  datatype Canonical = Canonical(manifest: Manifest, bytes: seq<byte>, digest: Text)

  /** `canonicalizeManagedManifest`; a claimed digest must be the computed one. */
  function Canonicalize(input: Members, rules: Rules): Option<Canonical> {
    match Projection(input, rules)
    case None => None
    case Some(m) =>
      match CanonicalBytes(m)
      case None => None
      case Some(bytes) =>
        if |bytes| > 262_144 then None
        else match Member(input, Literal("manifest_digest"))
          case None => Some(Canonical(m, bytes, rules.digest(bytes)))
          case claimed =>
            if TextOf(claimed, ManifestDigest, rules) == Some(rules.digest(bytes)) then Some(Canonical(m, bytes, rules.digest(bytes)))
            else None
  }

  /** The result as it is handed on: the projection with its digest. */
  function Output(c: Canonical): Members { TopMembers(c.manifest) + [(Literal("manifest_digest"), Str(c.digest))] }
}
