/** The content envelope of a skill version and the stream a tree revision hashes. */
module ContentDigest {
  import opened Common
  import opened Bytes
  import opened Lexical
  import opened Sequences
  import opened Sorting
  import opened TextEncoding
  import opened Utf16
  import Utf8

  /** A claimed size that is not a safe integer never matches. */
  datatype Claim<T> = NoClaim | Claimed(value: T) | Malformed

  datatype ContentFile = ContentFile(path: Text, bytes: seq<byte>, size: Claim<nat>, digest: Claim<seq<byte>>)

  /** The path check, case folding, and SHA-256 as 32 bytes. */
  datatype Rules = Rules(path: Text -> bool, fold: Text -> Text, hash: seq<byte> -> seq<byte>)

  ghost predicate Hashes(rules: Rules) { forall b :: |rules.hash(b)| == 32 }

  /** The hash does not collide on the contents of these files. */
  ghost predicate NoCollision(a: seq<ContentFile>, b: seq<ContentFile>, rules: Rules) {
    forall x, y :: x in a && y in b && rules.hash(x.bytes) == rules.hash(y.bytes) ==> x.bytes == y.bytes
  }

  datatype DigestError = ManifestDigest | TooManyFiles | BadPath | Collision | BadSize | FileTooLarge | BadDigest | TreeTooLarge | FileDigest

  const MAX_FILES := 2_048
  const MAX_FILE := 16_777_216
  const MAX_TREE := 67_108_864

  /** "skillmap.skill-version\\0v1\\0" */
  const VERSION_TAG: seq<byte> := [
    0x73, 0x6B, 0x69, 0x6C, 0x6C, 0x6D, 0x61, 0x70, 0x2E, 0x73, 0x6B, 0x69, 0x6C, 0x6C, 0x2D, 0x76, 0x65, 0x72, 0x73, 0x69, 0x6F, 0x6E, 0,
    0x76, 0x31, 0]

  /** "manifest-digest\\0v1\\0" */
  const MANIFEST_TAG: seq<byte> := [0x6D, 0x61, 0x6E, 0x69, 0x66, 0x65, 0x73, 0x74, 0x2D, 0x64, 0x69, 0x67, 0x65, 0x73, 0x74, 0, 0x76, 0x31, 0]

  const HEAD := VERSION_TAG + MANIFEST_TAG

  /** "file-entry\\0v1\\0" */
  const ENTRY_TAG: seq<byte> := [0x66, 0x69, 0x6C, 0x65, 0x2D, 0x65, 0x6E, 0x74, 0x72, 0x79, 0, 0x76, 0x31, 0]

  /** "file-digest\\0v1\\0" */
  const DIGEST_TAG: seq<byte> := [0x66, 0x69, 0x6C, 0x65, 0x2D, 0x64, 0x69, 0x67, 0x65, 0x73, 0x74, 0, 0x76, 0x31, 0]

  // ---- framing ----

  /** What the envelope says of one file. */
  datatype Entry = Entry(path: seq<byte>, size: nat, digest: seq<byte>)

  predicate EntryFits(e: Entry) { |e.path| < 0x1_0000_0000 && e.size < 0x1_0000_0000_0000_0000 && |e.digest| == 32 }

  predicate EntriesFit(entries: seq<Entry>) {
    |entries| < 0x1_0000_0000 && forall i :: 0 <= i < |entries| ==> EntryFits(entries[i])
  }

  function U32(n: nat): (s: seq<byte>)
    requires n < 0x1_0000_0000
    ensures |s| == 4
  {
    Widths();
    BigEndian(n, 4)
  }

  function U64(n: nat): (s: seq<byte>)
    requires n < 0x1_0000_0000_0000_0000
    ensures |s| == 8
  {
    Widths();
    BigEndian(n, 8)
  }

  function EntryBytes(e: Entry): seq<byte>
    requires EntryFits(e)
  {
    ENTRY_TAG + (U32(|e.path|) + (e.path + (U64(e.size) + (DIGEST_TAG + e.digest))))
  }

  function EntriesBytes(entries: seq<Entry>): seq<byte>
    requires forall i :: 0 <= i < |entries| ==> EntryFits(entries[i])
  {
    if entries == [] then [] else EntryBytes(entries[0]) + EntriesBytes(entries[1..])
  }

  function Envelope(manifest: seq<byte>, entries: seq<Entry>): seq<byte>
    requires EntriesFit(entries)
  {
    HEAD + (manifest + (U32(|entries|) + EntriesBytes(entries)))
  }

  /** Equal strings with first parts of one length have equal parts. */
  lemma SplitEqual(a: seq<byte>, b: seq<byte>, c: seq<byte>, d: seq<byte>)
    requires a + b == c + d && |a| == |c|
    ensures a == c && b == d
  {
    assert (a + b)[..|a|] == a && (c + d)[..|c|] == c;
    assert (a + b)[|a|..] == b && (c + d)[|c|..] == d;
  }

  lemma U32Same(m: nat, n: nat)
    requires m < 0x1_0000_0000 && n < 0x1_0000_0000 && U32(m) == U32(n)
    ensures m == n
  {
    Widths();
    ReadsBack(m, 4);
    ReadsBack(n, 4);
  }

  lemma U64Same(m: nat, n: nat)
    requires m < 0x1_0000_0000_0000_0000 && n < 0x1_0000_0000_0000_0000 && U64(m) == U64(n)
    ensures m == n
  {
    Widths();
    ReadsBack(m, 8);
    ReadsBack(n, 8);
  }

  lemma EntryUnambiguous(e: Entry, x: seq<byte>, f: Entry, y: seq<byte>)
    requires EntryFits(e) && EntryFits(f) && EntryBytes(e) + x == EntryBytes(f) + y
    ensures e == f && x == y
  {
    var e1, f1 := U32(|e.path|) + (e.path + (U64(e.size) + (DIGEST_TAG + e.digest))), U32(|f.path|) + (f.path + (U64(f.size) + (DIGEST_TAG + f.digest)));
    Associate(ENTRY_TAG, e1, x);
    Associate(ENTRY_TAG, f1, y);
    SplitEqual(ENTRY_TAG, e1 + x, ENTRY_TAG, f1 + y);
    var e2, f2 := e.path + (U64(e.size) + (DIGEST_TAG + e.digest)), f.path + (U64(f.size) + (DIGEST_TAG + f.digest));
    Associate(U32(|e.path|), e2, x);
    Associate(U32(|f.path|), f2, y);
    SplitEqual(U32(|e.path|), e2 + x, U32(|f.path|), f2 + y);
    U32Same(|e.path|, |f.path|);
    var e3, f3 := U64(e.size) + (DIGEST_TAG + e.digest), U64(f.size) + (DIGEST_TAG + f.digest);
    Associate(e.path, e3, x);
    Associate(f.path, f3, y);
    SplitEqual(e.path, e3 + x, f.path, f3 + y);
    var e4, f4 := DIGEST_TAG + e.digest, DIGEST_TAG + f.digest;
    Associate(U64(e.size), e4, x);
    Associate(U64(f.size), f4, y);
    SplitEqual(U64(e.size), e4 + x, U64(f.size), f4 + y);
    U64Same(e.size, f.size);
    SplitEqual(e4, x, f4, y);
    SplitEqual(DIGEST_TAG, e.digest, DIGEST_TAG, f.digest);
  }

  lemma {:induction false} EntriesUnambiguous(a: seq<Entry>, b: seq<Entry>)
    requires |a| == |b| && (forall i :: 0 <= i < |a| ==> EntryFits(a[i])) && (forall i :: 0 <= i < |b| ==> EntryFits(b[i]))
    requires EntriesBytes(a) == EntriesBytes(b)
    ensures a == b
  {
    if a != [] {
      EntryUnambiguous(a[0], EntriesBytes(a[1..]), b[0], EntriesBytes(b[1..]));
      EntriesUnambiguous(a[1..], b[1..]);
      assert a == [a[0]] + a[1..] && b == [b[0]] + b[1..];
    }
  }

  /** Equal envelopes say the same of the manifest and of every file. */
  lemma EnvelopeUnambiguous(m: seq<byte>, a: seq<Entry>, n: seq<byte>, b: seq<Entry>)
    requires |m| == |n| == 32 && EntriesFit(a) && EntriesFit(b) && Envelope(m, a) == Envelope(n, b)
    ensures m == n && a == b
  {
    SplitEqual(HEAD, m + (U32(|a|) + EntriesBytes(a)), HEAD, n + (U32(|b|) + EntriesBytes(b)));
    SplitEqual(m, U32(|a|) + EntriesBytes(a), n, U32(|b|) + EntriesBytes(b));
    SplitEqual(U32(|a|), EntriesBytes(a), U32(|b|), EntriesBytes(b));
    U32Same(|a|, |b|);
    EntriesUnambiguous(a, b);
  }

  // ---- the checks on the files ----

  /** What is wrong with a file by itself. */
  function Fault(f: ContentFile, rules: Rules): Option<DigestError> {
    if !rules.path(f.path) then Some(BadPath)
    else if f.size.Malformed? || (f.size.Claimed? && f.size.value != |f.bytes|) then Some(BadSize)
    else if |f.bytes| > MAX_FILE then Some(FileTooLarge)
    else if f.digest.Malformed? then Some(BadDigest)
    else None
  }

  function TotalBytes(files: seq<ContentFile>): nat {
    if files == [] then 0 else TotalBytes(files[..|files| - 1]) + |files[|files| - 1].bytes|
  }

  predicate FoldSeen(files: seq<ContentFile>, rules: Rules, k: Text) {
    exists j :: 0 <= j < |files| && rules.fold(files[j].path) == k
  }

  predicate FoldsApart(files: seq<ContentFile>, rules: Rules) {
    forall i, j :: 0 <= i < j < |files| ==> rules.fold(files[i].path) != rules.fold(files[j].path)
  }

  /** A claimed digest is the digest of the bytes. */
  predicate Truthful(f: ContentFile, rules: Rules) { f.digest.Claimed? ==> f.digest.value == rules.hash(f.bytes) }

  /** The files a version may have. */
  predicate Acceptable(files: seq<ContentFile>, rules: Rules) {
    && |files| <= MAX_FILES && FoldsApart(files, rules) && TotalBytes(files) <= MAX_TREE
    && forall i :: 0 <= i < |files| ==> Fault(files[i], rules).None? && Truthful(files[i], rules)
  }

  predicate PathBelow(a: ContentFile, b: ContentFile) { Below(Utf8Of(a.path), Utf8Of(b.path)) }

  function EntryOf(f: ContentFile, rules: Rules): Entry { Entry(Utf8Of(f.path), |f.bytes|, rules.hash(f.bytes)) }

  function EntriesOf(files: seq<ContentFile>, rules: Rules): seq<Entry> { Map(files, (f: ContentFile) => EntryOf(f, rules)) }

  /** The paths allowed are short enough for their length field. */
  ghost predicate ShortPaths(rules: Rules) { forall t :: rules.path(t) ==> |Utf8Of(t)| < 0x1_0000_0000 }

  lemma EntriesAreFit(files: seq<ContentFile>, rules: Rules)
    requires Hashes(rules) && ShortPaths(rules) && |files| <= MAX_FILES
    requires forall f :: f in files ==> Fault(f, rules).None?
    ensures EntriesFit(EntriesOf(files, rules))
  {
    var entries := EntriesOf(files, rules);
    forall i | 0 <= i < |entries| ensures EntryFits(entries[i]) {
      assert files[i] in files;
    }
  }

  lemma SortedMembers(files: seq<ContentFile>)
    ensures multiset(SortBy(files, PathBelow)) == multiset(files) && |SortBy(files, PathBelow)| == |files|
    ensures forall f :: f in SortBy(files, PathBelow) <==> f in files
  {
    SortPermutes(files, PathBelow);
    MembersOf(SortBy(files, PathBelow), files);
  }

  /** The envelope of acceptable files. */
  ghost function EnvelopeOf(manifest: seq<byte>, files: seq<ContentFile>, rules: Rules): seq<byte>
    requires Hashes(rules) && ShortPaths(rules) && Acceptable(files, rules)
  {
    SortedMembers(files);
    EntriesAreFit(SortBy(files, PathBelow), rules);
    Envelope(manifest, EntriesOf(SortBy(files, PathBelow), rules))
  }

  // ---- the encoder ----

  /** The first loop: paths, sizes, claims and the running total. */
  method CollectEntries(files: seq<ContentFile>, rules: Rules) returns (r: Result<(), DigestError>)
    ensures r.Ok? <==> FoldsApart(files, rules) && TotalBytes(files) <= MAX_TREE && forall i :: 0 <= i < |files| ==> Fault(files[i], rules).None?
  {
    var caseFoldKeys: set<Text> := {};
    var totalBytes := 0;
    for i := 0 to |files|
      invariant forall k :: k in caseFoldKeys <==> FoldSeen(files[..i], rules, k)
      invariant totalBytes == TotalBytes(files[..i]) <= MAX_TREE && FoldsApart(files[..i], rules)
      invariant forall j :: 0 <= j < i ==> Fault(files[j], rules).None?
    {
      var f := files[i];
      FoldOneMore(files, i, rules);
      assert files[..i + 1][..i] == files[..i];
      TotalGrows(files, i + 1);
      if !rules.path(f.path) { return Err(BadPath); }
      if rules.fold(f.path) in caseFoldKeys { return Err(Collision); }
      caseFoldKeys := caseFoldKeys + {rules.fold(f.path)};
      if f.size.Malformed? || (f.size.Claimed? && f.size.value != |f.bytes|) { return Err(BadSize); }
      if |f.bytes| > MAX_FILE { return Err(FileTooLarge); }
      if f.digest.Malformed? { return Err(BadDigest); }
      totalBytes := totalBytes + |f.bytes|;
      if totalBytes > MAX_TREE { return Err(TreeTooLarge); }
    }
    assert files[..|files|] == files;
    return Ok(());
  }

  lemma FoldOneMore(files: seq<ContentFile>, i: nat, rules: Rules)
    requires i < |files|
    ensures forall k :: FoldSeen(files[..i + 1], rules, k) <==> FoldSeen(files[..i], rules, k) || rules.fold(files[i].path) == k
    ensures FoldsApart(files[..i], rules) && !FoldSeen(files[..i], rules, rules.fold(files[i].path)) <==> FoldsApart(files[..i + 1], rules)
    ensures FoldSeen(files[..i], rules, rules.fold(files[i].path)) ==> !FoldsApart(files, rules)
  {
    var less, more := files[..i], files[..i + 1];
    assert more[i] == files[i];
    forall k ensures FoldSeen(more, rules, k) <==> FoldSeen(less, rules, k) || rules.fold(files[i].path) == k {
      if j :| 0 <= j < |less| && rules.fold(less[j].path) == k { assert more[j] == less[j]; }
    }
    if j :| 0 <= j < |less| && rules.fold(less[j].path) == rules.fold(files[i].path) { assert more[j] == less[j] == files[j]; }
    if FoldsApart(more, rules) {
      forall a, b | 0 <= a < b < |less| ensures rules.fold(less[a].path) != rules.fold(less[b].path) {
        assert more[a] == less[a] && more[b] == less[b];
      }
    }
  }

  lemma {:induction false} TotalGrows(files: seq<ContentFile>, n: nat)
    requires n <= |files|
    ensures TotalBytes(files[..n]) <= TotalBytes(files)
    decreases |files| - n
  {
    if n < |files| {
      assert files[..n + 1][..n] == files[..n];
      TotalGrows(files, n + 1);
    } else {
      assert files[..n] == files;
    }
  }

  /** The second loop: claimed digests against computed ones. */
  method CheckDigests(entries: seq<ContentFile>, rules: Rules) returns (truthful: bool)
    ensures truthful <==> forall i :: 0 <= i < |entries| ==> Truthful(entries[i], rules)
  {
    for i := 0 to |entries|
      invariant forall j :: 0 <= j < i ==> Truthful(entries[j], rules)
    {
      if !Truthful(entries[i], rules) { return false; }
    }
    return true;
  }

  /** The third loop: one framed part after the other. */
  method WriteEntries(entries: seq<ContentFile>, rules: Rules) returns (parts: seq<byte>)
    requires EntriesFit(EntriesOf(entries, rules))
    ensures parts == EntriesBytes(EntriesOf(entries, rules))
  {
    ghost var all := EntriesOf(entries, rules);
    parts := [];
    for i := 0 to |entries|
      invariant parts == EntriesBytes(all[..i])
    {
      var e := EntryOf(entries[i], rules);
      EntriesOneMore(all, i);
      parts := parts + EntryBytes(e);
    }
    assert all[..|entries|] == all;
  }

  lemma TruthfulAnyOrder(a: seq<ContentFile>, b: seq<ContentFile>, rules: Rules)
    requires forall f :: f in a <==> f in b
    ensures (forall i :: 0 <= i < |a| ==> Truthful(a[i], rules)) <==> (forall i :: 0 <= i < |b| ==> Truthful(b[i], rules))
  {
    if forall i :: 0 <= i < |a| ==> Truthful(a[i], rules) {
      forall i | 0 <= i < |b| ensures Truthful(b[i], rules) { assert b[i] in a; }
    }
    if forall i :: 0 <= i < |b| ==> Truthful(b[i], rules) {
      forall i | 0 <= i < |a| ensures Truthful(a[i], rules) { assert a[i] in b; }
    }
  }

  /** `encodeContentDigest`: the envelope of acceptable files whose manifest digest is true. */
  method EncodeContentDigest(manifestBytes: seq<byte>, manifestDigest: seq<byte>, files: seq<ContentFile>, rules: Rules)
    returns (r: Result<seq<byte>, DigestError>)
    requires Hashes(rules) && ShortPaths(rules)
    ensures r.Ok? <==> manifestDigest == rules.hash(manifestBytes) && Acceptable(files, rules)
    ensures r.Ok? ==> r.value == EnvelopeOf(manifestDigest, files, rules)
  {
    if manifestDigest != rules.hash(manifestBytes) { return Err(ManifestDigest); }
    if |files| > MAX_FILES { return Err(TooManyFiles); }
    var collected := CollectEntries(files, rules);
    if collected.Err? { return Err(collected.error); }
    var entries := SortBy(files, PathBelow);
    SortedMembers(files);
    TruthfulAnyOrder(files, entries, rules);
    var truthful := CheckDigests(entries, rules);
    if !truthful { return Err(FileDigest); }
    EntriesAreFit(entries, rules);
    var parts := WriteEntries(entries, rules);
    return Ok(HEAD + (manifestDigest + (U32(|entries|) + parts)));
  }

  lemma {:induction false} EntriesOneMore(all: seq<Entry>, i: nat)
    requires i < |all| && forall k :: 0 <= k < |all| ==> EntryFits(all[k])
    ensures EntriesBytes(all[..i + 1]) == EntriesBytes(all[..i]) + EntryBytes(all[i])
  {
    if i == 0 {
      assert all[..1][1..] == [] && all[..0] == [];
    } else {
      EntriesOneMore(all[1..], i - 1);
      assert all[1..][..i] == all[..i + 1][1..] && all[1..][..i - 1] == all[..i][1..];
      Associate(EntryBytes(all[0]), EntriesBytes(all[..i][1..]), EntryBytes(all[i]));
    }
  }

  // ---- what a digest determines ----

  /** Equal envelopes come from the same manifest digest and, path by path in byte
      order, from files with the same bytes and the same path up to lone surrogates. */
  lemma EnvelopeTellsFiles(m: seq<byte>, a: seq<ContentFile>, n: seq<byte>, b: seq<ContentFile>, rules: Rules)
    requires Hashes(rules) && ShortPaths(rules) && Acceptable(a, rules) && Acceptable(b, rules) && |m| == |n| == 32
    requires EnvelopeOf(m, a, rules) == EnvelopeOf(n, b, rules) && NoCollision(a, b, rules)
    ensures m == n
    ensures var x, y := SortBy(a, PathBelow), SortBy(b, PathBelow);
            |x| == |y| && forall i :: 0 <= i < |x| ==>
              x[i].bytes == y[i].bytes && Scalars(x[i].path) == Scalars(y[i].path)
              && (WellFormed(x[i].path) && WellFormed(y[i].path) ==> x[i].path == y[i].path)
  {
    var x, y := SortBy(a, PathBelow), SortBy(b, PathBelow);
    SortedMembers(a);
    SortedMembers(b);
    EntriesAreFit(x, rules);
    EntriesAreFit(y, rules);
    EnvelopeUnambiguous(m, EntriesOf(x, rules), n, EntriesOf(y, rules));
    forall i | 0 <= i < |x|
      ensures x[i].bytes == y[i].bytes && Scalars(x[i].path) == Scalars(y[i].path)
      ensures WellFormed(x[i].path) && WellFormed(y[i].path) ==> x[i].path == y[i].path
    {
      assert EntriesOf(x, rules)[i] == EntryOf(x[i], rules) && EntriesOf(y, rules)[i] == EntryOf(y[i], rules);
      Utf8.EncodeInjective(Scalars(x[i].path), Scalars(y[i].path));
      if WellFormed(x[i].path) && WellFormed(y[i].path) { BytesTellApart(x[i].path, y[i].path); }
    }
  }

  lemma PathOrders()
    ensures Orders(PathBelow)
  {
    forall a: ContentFile, b: ContentFile, c: ContentFile
      ensures !PathBelow(a, a)
      ensures PathBelow(a, b) && PathBelow(b, c) ==> PathBelow(a, c)
      ensures PathBelow(a, c) ==> PathBelow(a, b) || PathBelow(b, c)
    {
      NotBelowItself(Utf8Of(a.path));
      BelowTransitive(Utf8Of(a.path), Utf8Of(b.path), Utf8Of(c.path));
    }
  }

  lemma {:induction false} TotalPermutes(a: seq<ContentFile>, b: seq<ContentFile>)
    requires multiset(a) == multiset(b)
    ensures TotalBytes(a) == TotalBytes(b)
    decreases |a|
  {
    assert |multiset(a)| == |a| && |multiset(b)| == |b|;
    if a != [] {
      var n := |a| - 1;
      assert a[n] in multiset(b);
      var i :| 0 <= i < |b| && b[i] == a[n];
      RemoveAt(a, n);
      assert a[..n] + a[n + 1..] == a[..n];
      RemoveAt(b, i);
      TotalPermutes(a[..n], b[..i] + b[i + 1..]);
      TotalWithout(b, i);
    }
  }

  lemma {:induction false} TotalWithout(b: seq<ContentFile>, i: nat)
    requires i < |b|
    ensures TotalBytes(b) == TotalBytes(b[..i] + b[i + 1..]) + |b[i].bytes|
  {
    var last := |b| - 1;
    if i == last {
      assert b[..i] + b[i + 1..] == b[..last];
    } else {
      TotalWithout(b[..last], i);
      WithoutShorter(b, i);
    }
  }

  lemma WithoutShorter<T>(b: seq<T>, i: nat)
    requires i < |b| - 1
    ensures var rest := b[..i] + b[i + 1..];
            rest[..|rest| - 1] == b[..|b| - 1][..i] + b[..|b| - 1][i + 1..] && rest[|rest| - 1] == b[|b| - 1]
  {
  }

  /** Files whose paths have the same bytes have the same contents. */
  predicate OneContentEach(files: seq<ContentFile>) {
    forall i, j :: 0 <= i < j < |files| && Utf8Of(files[i].path) == Utf8Of(files[j].path) ==> files[i].bytes == files[j].bytes
  }

  predicate EntryBelow(a: Entry, b: Entry) { Below(a.path, b.path) }

  lemma EntryOrders()
    ensures Orders(EntryBelow)
  {
    forall a: Entry, b: Entry, c: Entry
      ensures !EntryBelow(a, a)
      ensures EntryBelow(a, b) && EntryBelow(b, c) ==> EntryBelow(a, c)
      ensures EntryBelow(a, c) ==> EntryBelow(a, b) || EntryBelow(b, c)
    {
      NotBelowItself(a.path);
      BelowTransitive(a.path, b.path, c.path);
    }
  }

  /** What the sorted files say of themselves is sorted. */
  lemma EntriesAscend(files: seq<ContentFile>, rules: Rules)
    requires Ascending(files, PathBelow)
    ensures Ascending(EntriesOf(files, rules), EntryBelow)
  {
    var e := EntriesOf(files, rules);
    forall i, j | 0 <= i < j < |e| ensures !EntryBelow(e[j], e[i]) {
      assert !PathBelow(files[j], files[i]) && e[i] == EntryOf(files[i], rules) && e[j] == EntryOf(files[j], rules);
    }
  }

  lemma EntriesSeparate(files: seq<ContentFile>, rules: Rules)
    requires OneContentEach(files)
    ensures Separates(EntryBelow, EntriesOf(files, rules))
  {
    var e := EntriesOf(files, rules);
    forall x, y | x in e && y in e && !EntryBelow(x, y) && !EntryBelow(y, x) ensures x == y {
      var i :| 0 <= i < |e| && e[i] == x;
      var j :| 0 <= j < |e| && e[j] == y;
      assert e[i] == EntryOf(files[i], rules) && e[j] == EntryOf(files[j], rules);
      BelowTotal(x.path, y.path);
      if i != j { SameContent(files, i, j); }
    }
  }

  lemma SameContent(files: seq<ContentFile>, i: nat, j: nat)
    requires OneContentEach(files) && i < |files| && j < |files| && i != j && Utf8Of(files[i].path) == Utf8Of(files[j].path)
    ensures files[i].bytes == files[j].bytes
  {
  }

  lemma SortedEntries(files: seq<ContentFile>, rules: Rules)
    ensures Ascending(EntriesOf(SortBy(files, PathBelow), rules), EntryBelow)
    ensures multiset(EntriesOf(SortBy(files, PathBelow), rules)) == multiset(EntriesOf(files, rules))
  {
    PathOrders();
    SortAscends(files, PathBelow);
    EntriesAscend(SortBy(files, PathBelow), rules);
    SortPermutes(files, PathBelow);
    MapPermutes(SortBy(files, PathBelow), files, (f: ContentFile) => EntryOf(f, rules));
  }

  /** The order the files are given in never matters to acceptance, nor, where paths
      with the same bytes stand for the same contents, to the envelope. */
  lemma OrderDoesNotMatter(m: seq<byte>, a: seq<ContentFile>, b: seq<ContentFile>, rules: Rules)
    requires Hashes(rules) && ShortPaths(rules) && multiset(a) == multiset(b)
    ensures Acceptable(a, rules) <==> Acceptable(b, rules)
    ensures Acceptable(a, rules) && OneContentEach(a) ==> EnvelopeOf(m, a, rules) == EnvelopeOf(m, b, rules)
  {
    SameAcceptance(a, b, rules);
    SameAcceptance(b, a, rules);
    if Acceptable(a, rules) && OneContentEach(a) { SameEntries(a, b, rules); }
  }

  lemma SameEntries(a: seq<ContentFile>, b: seq<ContentFile>, rules: Rules)
    requires multiset(a) == multiset(b) && OneContentEach(a)
    ensures EntriesOf(SortBy(a, PathBelow), rules) == EntriesOf(SortBy(b, PathBelow), rules)
  {
    var x, y := EntriesOf(SortBy(a, PathBelow), rules), EntriesOf(SortBy(b, PathBelow), rules);
    SortedEntries(a, rules);
    SortedEntries(b, rules);
    MapPermutes(a, b, (f: ContentFile) => EntryOf(f, rules));
    EntriesSeparate(a, rules);
    MembersOf(x, EntriesOf(a, rules));
    SeparatesPart(EntryBelow, EntriesOf(a, rules), x);
    EntryOrders();
    OneAscendingOrder(x, y, EntryBelow);
  }

  lemma SameAcceptance(a: seq<ContentFile>, b: seq<ContentFile>, rules: Rules)
    requires multiset(a) == multiset(b)
    ensures Acceptable(a, rules) ==> Acceptable(b, rules)
  {
    assert |multiset(a)| == |a| && |multiset(b)| == |b|;
    MembersOf(a, b);
    TotalPermutes(a, b);
    if Acceptable(a, rules) {
      var key := (f: ContentFile) => rules.fold(f.path);
      DistinctPermutes(a, b, key);
      forall i, j | 0 <= i < j < |b| ensures rules.fold(b[i].path) != rules.fold(b[j].path) { assert key(b[i]) != key(b[j]); }
      forall i | 0 <= i < |b| ensures Fault(b[i], rules).None? && Truthful(b[i], rules) {
        assert b[i] in a;
        var k :| 0 <= k < |a| && a[k] == b[i];
      }
    }
  }

  // ---- an order that shows ----

  /** Two files of one path in bytes and different contents, in the sorted list. */
  lemma Clash(files: seq<ContentFile>) returns (i: nat, j: nat)
    requires !OneContentEach(files)
    ensures var t := SortBy(files, PathBelow); i < j < |t| && Level(t[i], t[j], PathBelow) && t[i].bytes != t[j].bytes
  {
    var k, l :| 0 <= k < l < |files| && Utf8Of(files[k].path) == Utf8Of(files[l].path) && files[k].bytes != files[l].bytes;
    var t := SortBy(files, PathBelow);
    SortedMembers(files);
    assert files[k] in t && files[l] in t;
    var x :| 0 <= x < |t| && t[x] == files[k];
    var y :| 0 <= y < |t| && t[y] == files[l];
    NotBelowItself(Utf8Of(files[k].path));
    i, j := if x < y then x else y, if x < y then y else x;
  }

  /** Where two accepted paths have the same bytes and their files differ, some other
      order of the files gives another envelope. */
  lemma OrderShows(m: seq<byte>, a: seq<ContentFile>, rules: Rules) returns (b: seq<ContentFile>)
    requires Hashes(rules) && ShortPaths(rules) && Acceptable(a, rules) && NoCollision(a, a, rules) && |m| == 32
    requires !OneContentEach(a)
    ensures multiset(b) == multiset(a) && Acceptable(b, rules) && EnvelopeOf(m, b, rules) != EnvelopeOf(m, a, rules)
  {
    var i;
    b, i := OtherOrder(a);
    SameAcceptance(a, b, rules);
    MembersOf(b, a);
    EnvelopesDiffer(m, a, b, i, rules);
  }

  /** An order of the files that sorts other contents to some place. */
  lemma OtherOrder(a: seq<ContentFile>) returns (b: seq<ContentFile>, i: nat)
    requires !OneContentEach(a)
    ensures multiset(b) == multiset(a)
    ensures var x, y := SortBy(a, PathBelow), SortBy(b, PathBelow); i < |x| == |y| && x[i].bytes != y[i].bytes
  {
    var t := SortBy(a, PathBelow);
    var j;
    i, j := Clash(a);
    b := Swap(t, i, j);
    SortedMembers(a);
    SwapPermutes(t, i, j);
    PathOrders();
    SortAscends(a, PathBelow);
    SwapStays(t, i, j, PathBelow);
  }

  lemma EnvelopesDiffer(m: seq<byte>, a: seq<ContentFile>, b: seq<ContentFile>, i: nat, rules: Rules)
    requires Hashes(rules) && ShortPaths(rules) && Acceptable(a, rules) && Acceptable(b, rules) && NoCollision(b, a, rules) && |m| == 32
    requires var x, y := SortBy(a, PathBelow), SortBy(b, PathBelow); i < |x| == |y| && x[i].bytes != y[i].bytes
    ensures EnvelopeOf(m, b, rules) != EnvelopeOf(m, a, rules)
  {
    if EnvelopeOf(m, b, rules) == EnvelopeOf(m, a, rules) { EnvelopeTellsFiles(m, b, m, a, rules); }
  }

  /** The envelope of accepted files is the same in every order if and only if paths
      with the same bytes stand for the same contents. */
  lemma OrderForgottenIff(m: seq<byte>, a: seq<ContentFile>, rules: Rules)
    requires Hashes(rules) && ShortPaths(rules) && Acceptable(a, rules) && NoCollision(a, a, rules) && |m| == 32
    ensures (forall b :: multiset(b) == multiset(a) ==> SameEnvelope(m, a, b, rules)) <==> OneContentEach(a)
  {
    if OneContentEach(a) {
      forall b | multiset(b) == multiset(a) ensures SameEnvelope(m, a, b, rules) { OrderDoesNotMatter(m, a, b, rules); }
    } else {
      var b := OrderShows(m, a, rules);
      assert !SameEnvelope(m, a, b, rules);
    }
  }

  ghost predicate SameEnvelope(m: seq<byte>, a: seq<ContentFile>, b: seq<ContentFile>, rules: Rules)
    requires Hashes(rules) && ShortPaths(rules) && Acceptable(a, rules)
  {
    Acceptable(b, rules) && EnvelopeOf(m, b, rules) == EnvelopeOf(m, a, rules)
  }

  /** Rules that let paths of at most 64 units through and fold nothing; the hash tells
      an empty file from all others. */
  function Lenient(): Rules {
    Rules((t: Text) => |t| <= 64, (t: Text) => t, (b: seq<byte>) => seq(32, i => if b == [] then 0 else 1))
  }

  lemma {:induction false} ShortBytes(u: Utf8.Text)
    ensures |Utf8.Encode(u)| <= 4 * |u|
  {
    if u != [] { ShortBytes(u[1..]); }
  }

  lemma {:induction false} FewerScalars(t: Text)
    ensures |Scalars(t)| <= |t|
    decreases |t|
  {
    if t != [] {
      FewerScalars(t[1..]);
      if |t| >= 2 { FewerScalars(t[2..]); }
    }
  }

  lemma LenientSuits()
    ensures Hashes(Lenient()) && ShortPaths(Lenient())
  {
    forall t | Lenient().path(t) ensures |Utf8Of(t)| < 0x1_0000_0000 {
      FewerScalars(t);
      ShortBytes(Scalars(t));
    }
  }

  /** Accepted files whose envelope shows their order exist: an empty file and another,
      under paths of one lone surrogate each. */
  lemma FailingInputExists()
    ensures exists rules, m, a, b ::
              && Hashes(rules) && ShortPaths(rules) && Acceptable(a, rules) && Acceptable(b, rules)
              && multiset(a) == multiset(b) && EnvelopeOf(m, a, rules) != EnvelopeOf(m, b, rules)
  {
    LenientSuits();
    Unordered(seq(32, _ => 0), ContentFile([0xD800], [], NoClaim, NoClaim), ContentFile([0xD801], [0], NoClaim, NoClaim), Lenient());
  }

  /** An order of the two files that changes the envelope. */
  lemma Unordered(m: seq<byte>, f: ContentFile, g: ContentFile, rules: Rules)
    requires |m| == 32 && rules == Lenient() && Hashes(rules) && ShortPaths(rules)
    requires f == ContentFile([0xD800], [], NoClaim, NoClaim) && g == ContentFile([0xD801], [0], NoClaim, NoClaim)
    ensures exists a, b :: Acceptable(a, rules) && Acceptable(b, rules) && multiset(a) == multiset(b)
                           && EnvelopeOf(m, a, rules) != EnvelopeOf(m, b, rules)
  {
    LoneSurrogatesCollapse(0xD800);
    LoneSurrogatesCollapse(0xD801);
    TwoAccepted(f, g, rules);
    HashesApart(f, g, rules);
    assert !OneContentEach([f, g]) by { assert [f, g][0] == f && [f, g][1] == g; }
    var b := OrderShows(m, [f, g], rules);
  }

  lemma HashesApart(f: ContentFile, g: ContentFile, rules: Rules)
    requires rules == Lenient() && f.bytes == [] && g.bytes == [0]
    ensures NoCollision([f, g], [f, g], rules)
  {
    assert rules.hash([])[0] == 0 && rules.hash([0])[0] == 1;
  }

  lemma TwoAccepted(f: ContentFile, g: ContentFile, rules: Rules)
    requires Fault(f, rules).None? && Fault(g, rules).None? && f.digest.NoClaim? && g.digest.NoClaim?
    requires rules.fold(f.path) != rules.fold(g.path) && |f.bytes| + |g.bytes| <= MAX_TREE
    ensures Acceptable([f, g], rules)
  {
    assert [f, g][..1] == [f] && [f][..0] == [];
    assert TotalBytes([f]) == |f.bytes|;
  }
}
