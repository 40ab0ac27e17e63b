/** Which files a version may have, and how its envelope is laid out. */
module ContentMeaning {
  import opened Common
  import opened Bytes
  import opened Lexical
  import opened Sequences
  import opened Sorting
  import opened TextEncoding
  import opened Utf16
  import opened ContentDigest

  // ---- acceptable files ----

  lemma {:induction false} TotalAdds(a: seq<ContentFile>, b: seq<ContentFile>)
    ensures TotalBytes(a + b) == TotalBytes(a) + TotalBytes(b)
    decreases |b|
  {
    if b == [] {
      assert a + b == a;
    } else {
      var before := b[..|b| - 1];
      assert (a + b)[..|a + b| - 1] == a + before;
      TotalAdds(a, before);
    }
  }

  /** The total counts every file once. */
  lemma TotalMeans(f: ContentFile, a: seq<ContentFile>, b: seq<ContentFile>)
    ensures TotalBytes([]) == 0 && TotalBytes([f]) == |f.bytes|
    ensures TotalBytes(a + b) == TotalBytes(a) + TotalBytes(b)
  {
    assert [f][..0] == [];
    TotalAdds(a, b);
  }

  /** At most 2048 files with different folded paths and 64 MiB in all, each with an
      allowed path, at most 16 MiB, and no false claim of its size or its digest. */
  lemma AcceptableIff(files: seq<ContentFile>, rules: Rules)
    ensures Acceptable(files, rules) <==>
              && |files| <= 2_048 && TotalBytes(files) <= 64 * 0x10_0000
              && (forall i, j :: 0 <= i < j < |files| ==> rules.fold(files[i].path) != rules.fold(files[j].path))
              && forall f :: f in files ==>
                   && rules.path(f.path) && |f.bytes| <= 16 * 0x10_0000
                   && (f.size == NoClaim || f.size == Claimed(|f.bytes|))
                   && (f.digest == NoClaim || f.digest == Claimed(rules.hash(f.bytes)))
  {
    forall i | 0 <= i < |files|
      ensures Fault(files[i], rules).None? && Truthful(files[i], rules) <==> Good(files[i], rules)
    {
    }
    assert (forall i :: 0 <= i < |files| ==> Good(files[i], rules)) <==> (forall f :: f in files ==> Good(f, rules));
  }

  ghost predicate Good(f: ContentFile, rules: Rules) {
    && rules.path(f.path) && |f.bytes| <= 16 * 0x10_0000
    && (f.size == NoClaim || f.size == Claimed(|f.bytes|))
    && (f.digest == NoClaim || f.digest == Claimed(rules.hash(f.bytes)))
  }

  // ---- the layout ----

  lemma Tags()
    ensures ENTRY_TAG == Ascii("file-entry\0v1\0") && DIGEST_TAG == Ascii("file-digest\0v1\0")
  {
  }

  lemma HeadTags()
    ensures VERSION_TAG == Ascii("skillmap.skill-version\0v1\0") && MANIFEST_TAG == Ascii("manifest-digest\0v1\0")
  {
  }

  /** An entry at the front: its tag, the length of its path in four bytes, the path,
      its size in eight bytes, a second tag and the digest. */
  ghost predicate EntryAt(s: seq<byte>, e: Entry) {
    var n := |e.path|;
    && |s| >= n + 73
    && s[..14] == Ascii("file-entry\0v1\0") && FromBigEndian(s[14..18]) == n && s[18..18 + n] == e.path
    && FromBigEndian(s[18 + n..26 + n]) == e.size && s[26 + n..41 + n] == Ascii("file-digest\0v1\0") && s[41 + n..73 + n] == e.digest
  }

  ghost predicate EntriesAt(s: seq<byte>, entries: seq<Entry>)
    decreases |entries|
  {
    if entries == [] then s == [] else EntryAt(s, entries[0]) && EntriesAt(s[|entries[0].path| + 73..], entries[1..])
  }

  /** The parts of a string one after the other. */
  lemma Cut(s: seq<byte>, i: nat, part: seq<byte>, tail: seq<byte>)
    requires i <= |s| && s[i..] == part + tail
    ensures |s| >= i + |part| && s[i..i + |part|] == part && s[i + |part|..] == tail
  {
    assert s[i..][..|part|] == part && s[i..][|part|..] == tail;
  }

  lemma EntryLaidOut(e: Entry, rest: seq<byte>)
    requires EntryFits(e)
    ensures EntryAt(EntryBytes(e) + rest, e) && (EntryBytes(e) + rest)[|e.path| + 73..] == rest
  {
    var n, u, w, s := |e.path|, U32(|e.path|), U64(e.size), EntryBytes(e) + rest;
    var s5 := e.digest + rest;
    var s4 := DIGEST_TAG + s5;
    var s3 := w + s4;
    var s2 := e.path + s3;
    var s1 := u + s2;
    assert s[0..] == ENTRY_TAG + s1;
    Cut(s, 0, ENTRY_TAG, s1);
    Cut(s, 14, u, s2);
    Cut(s, 18, e.path, s3);
    Cut(s, 18 + n, w, s4);
    Cut(s, 26 + n, DIGEST_TAG, s5);
    Cut(s, 41 + n, e.digest, rest);
    Tags();
    LengthsRead(e);
  }

  lemma LengthsRead(e: Entry)
    requires EntryFits(e)
    ensures FromBigEndian(U32(|e.path|)) == |e.path| && FromBigEndian(U64(e.size)) == e.size
  {
    Widths();
    ReadsBack(|e.path|, 4);
    ReadsBack(e.size, 8);
  }

  lemma {:induction false} EntriesLaidOut(entries: seq<Entry>)
    requires forall i :: 0 <= i < |entries| ==> EntryFits(entries[i])
    ensures EntriesAt(EntriesBytes(entries), entries)
  {
    if entries != [] {
      EntryLaidOut(entries[0], EntriesBytes(entries[1..]));
      EntriesLaidOut(entries[1..]);
    }
  }

  /** `files` in the byte order of their paths, as entries. */
  ghost predicate Listed(entries: seq<Entry>, files: seq<ContentFile>, rules: Rules) {
    exists sorted: seq<ContentFile> ::
      && multiset(sorted) == multiset(files) && Rising(sorted) && |entries| == |sorted|
      && forall i :: 0 <= i < |sorted| ==>
           entries[i] == Entry(Utf8Of(sorted[i].path), |sorted[i].bytes|, rules.hash(sorted[i].bytes))
  }

  ghost predicate Rising(files: seq<ContentFile>) {
    forall i, j :: 0 <= i < j < |files| ==> !Below(Utf8Of(files[j].path), Utf8Of(files[i].path))
  }

  lemma SortedRises(files: seq<ContentFile>)
    ensures Rising(SortBy(files, PathBelow))
  {
    PathOrders();
    SortAscends(files, PathBelow);
    var sorted := SortBy(files, PathBelow);
    forall i, j | 0 <= i < j < |sorted| ensures !Below(Utf8Of(sorted[j].path), Utf8Of(sorted[i].path)) {
      assert !PathBelow(sorted[j], sorted[i]);
    }
  }

  /** The envelope: the head, the digest of the manifest, the number of files in four
      bytes, and the files one after the other in the byte order of their paths. */
  lemma EnvelopeSays(manifest: seq<byte>, files: seq<ContentFile>, rules: Rules)
    requires Hashes(rules) && ShortPaths(rules) && Acceptable(files, rules) && |manifest| == 32
    ensures var s := EnvelopeOf(manifest, files, rules);
            && |s| >= 81 && s[..26] == Ascii("skillmap.skill-version\0v1\0") && s[26..45] == Ascii("manifest-digest\0v1\0")
            && s[45..77] == manifest && FromBigEndian(s[77..81]) == |files|
            && exists entries :: EntriesAt(s[81..], entries) && Listed(entries, files, rules)
  {
    var sorted := SortBy(files, PathBelow);
    var entries := EntriesOf(sorted, rules);
    SortedMembers(files);
    SortedRises(files);
    EntriesAreFit(sorted, rules);
    assert Listed(entries, files, rules) by {
      assert forall i :: 0 <= i < |sorted| ==> entries[i] == EntryOf(sorted[i], rules);
    }
    LaidOut(manifest, entries, EnvelopeOf(manifest, files, rules));
  }

  lemma HeadFirst(s: seq<byte>, a: seq<byte>, b: seq<byte>, tail: seq<byte>)
    requires s == (a + b) + tail && |a| == 26 && |b| == 19
    ensures |s| >= 45 && s[..26] == a && s[26..45] == b && s[45..] == tail
  {
  }

  lemma Placed(s: seq<byte>, a: seq<byte>, b: seq<byte>, manifest: seq<byte>, u: seq<byte>, rest: seq<byte>)
    requires s == (a + b) + (manifest + (u + rest)) && |a| == 26 && |b| == 19 && |manifest| == 32 && |u| == 4
    ensures |s| >= 81 && s[..26] == a && s[26..45] == b && s[45..77] == manifest && s[77..81] == u && s[81..] == rest
  {
    HeadFirst(s, a, b, manifest + (u + rest));
    Cut(s, 45, manifest, u + rest);
    Cut(s, 77, u, rest);
  }

  lemma LaidOut(manifest: seq<byte>, entries: seq<Entry>, s: seq<byte>)
    requires |manifest| == 32 && EntriesFit(entries) && s == Envelope(manifest, entries)
    ensures |s| >= 81 && s[..26] == Ascii("skillmap.skill-version\0v1\0") && s[26..45] == Ascii("manifest-digest\0v1\0")
    ensures s[45..77] == manifest && FromBigEndian(s[77..81]) == |entries| && EntriesAt(s[81..], entries)
  {
    Placed(s, VERSION_TAG, MANIFEST_TAG, manifest, U32(|entries|), EntriesBytes(entries));
    HeadTags();
    EntriesLaidOut(entries);
    CountReads(|entries|);
  }

  lemma CountReads(n: nat)
    requires n < 0x1_0000_0000
    ensures FromBigEndian(U32(n)) == n
  {
    Widths();
    ReadsBack(n, 4);
  }
}
