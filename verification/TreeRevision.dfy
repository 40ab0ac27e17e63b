/** The stream behind a content revision, and the relative paths of skills. */
module TreeRevision {
  import opened Common
  import opened Bytes
  import opened PathParts
  import opened Sequences
  import opened TextEncoding
  import opened Utf16
  import CD = ContentDigest
  import Utf8

  /** One regular file of a skill tree: its path, its permission bits and its bytes. */
  datatype TreeFile = TreeFile(path: Text, mode: nat, bytes: seq<byte>)

  /** "skillmap-content-revision\0v1\0" */
  const TAG: seq<byte> := [
    0x73, 0x6B, 0x69, 0x6C, 0x6C, 0x6D, 0x61, 0x70, 0x2D, 0x63, 0x6F, 0x6E, 0x74, 0x65, 0x6E, 0x74, 0x2D,
    0x72, 0x65, 0x76, 0x69, 0x73, 0x69, 0x6F, 0x6E, 0, 0x76, 0x31, 0]

  // ---- octal modes ----

  function Octal(n: nat): (t: seq<byte>)
    ensures t != []
  {
    if n < 8 then [0x30 + n] else Octal(n / 8) + [0x30 + n % 8]
  }

  function OctalValue(t: seq<byte>): int {
    if t == [] then 0 else 8 * OctalValue(t[..|t| - 1]) + DigitOf(t[|t| - 1])
  }

  function DigitOf(c: int): int { c - 0x30 }

  lemma {:induction false} OctalReads(n: nat)
    ensures OctalValue(Octal(n)) == n
  {
    var t := Octal(n);
    if n < 8 {
      assert t[..0] == [];
    } else {
      OctalReads(n / 8);
      assert t[..|t| - 1] == Octal(n / 8);
    }
  }

  // ---- the stream ----

  predicate Short(s: seq<byte>) { |s| < 0x1_0000_0000_0000_0000 }

  predicate TreeFits(f: TreeFile) { Short(Utf8Of(f.path)) && Short(Octal(f.mode)) && Short(f.bytes) }

  predicate AllFit(files: seq<TreeFile>) { forall i :: 0 <= i < |files| ==> TreeFits(files[i]) }

  /** `updateLengthPrefixed`. */
  function Prefixed(s: seq<byte>): seq<byte>
    requires Short(s)
  {
    CD.U64(|s|) + s
  }

  function FileStream(f: TreeFile): seq<byte>
    requires TreeFits(f)
  {
    Prefixed(Utf8Of(f.path)) + (Prefixed(Octal(f.mode)) + Prefixed(f.bytes))
  }

  function FilesStream(files: seq<TreeFile>): seq<byte>
    requires AllFit(files)
  {
    if files == [] then [] else FileStream(files[0]) + FilesStream(files[1..])
  }

  /** Everything that is hashed into the revision. */
  function TreeStream(files: seq<TreeFile>): seq<byte>
    requires AllFit(files)
  {
    TAG + FilesStream(files)
  }

  /** `hashSkillTree` feeding its hash, file by file. */
  method StreamTree(files: seq<TreeFile>) returns (stream: seq<byte>)
    requires AllFit(files)
    ensures stream == TreeStream(files)
  {
    stream := TAG;
    for i := 0 to |files|
      invariant stream == TAG + FilesStream(files[..i])
    {
      var f := files[i];
      StreamOneMore(files, i);
      Associate(TAG, FilesStream(files[..i]), FileStream(f));
      Associate(TAG + FilesStream(files[..i]), Prefixed(Utf8Of(f.path)), Prefixed(Octal(f.mode)) + Prefixed(f.bytes));
      stream := stream + Prefixed(Utf8Of(f.path));
      Associate(stream, Prefixed(Octal(f.mode)), Prefixed(f.bytes));
      stream := stream + Prefixed(Octal(f.mode));
      stream := stream + Prefixed(f.bytes);
    }
    assert files[..|files|] == files;
  }

  lemma {:induction false} StreamOneMore(files: seq<TreeFile>, i: nat)
    requires AllFit(files) && i < |files|
    ensures FilesStream(files[..i + 1]) == FilesStream(files[..i]) + FileStream(files[i])
  {
    if i == 0 {
      assert files[..1][1..] == [] && files[..0] == [];
    } else {
      StreamOneMore(files[1..], i - 1);
      assert files[1..][..i] == files[..i + 1][1..] && files[1..][..i - 1] == files[..i][1..];
      Associate(FileStream(files[0]), FilesStream(files[..i][1..]), FileStream(files[i]));
    }
  }

  lemma PrefixedUnambiguous(a: seq<byte>, x: seq<byte>, b: seq<byte>, y: seq<byte>)
    requires Short(a) && Short(b) && Prefixed(a) + x == Prefixed(b) + y
    ensures a == b && x == y
  {
    Associate(CD.U64(|a|), a, x);
    Associate(CD.U64(|b|), b, y);
    CD.SplitEqual(CD.U64(|a|), a + x, CD.U64(|b|), b + y);
    CD.U64Same(|a|, |b|);
    CD.SplitEqual(a, x, b, y);
  }

  /** Files of one tree entry, up to lone surrogates in the path. */
  predicate SameEntry(f: TreeFile, g: TreeFile) {
    Scalars(f.path) == Scalars(g.path) && f.mode == g.mode && f.bytes == g.bytes
  }

  lemma FileUnambiguous(f: TreeFile, x: seq<byte>, g: TreeFile, y: seq<byte>)
    requires TreeFits(f) && TreeFits(g) && FileStream(f) + x == FileStream(g) + y
    ensures SameEntry(f, g) && x == y
  {
    var f1, g1 := Prefixed(Octal(f.mode)) + Prefixed(f.bytes), Prefixed(Octal(g.mode)) + Prefixed(g.bytes);
    Associate(Prefixed(Utf8Of(f.path)), f1, x);
    Associate(Prefixed(Utf8Of(g.path)), g1, y);
    PrefixedUnambiguous(Utf8Of(f.path), f1 + x, Utf8Of(g.path), g1 + y);
    Utf8.EncodeInjective(Scalars(f.path), Scalars(g.path));
    Associate(Prefixed(Octal(f.mode)), Prefixed(f.bytes), x);
    Associate(Prefixed(Octal(g.mode)), Prefixed(g.bytes), y);
    PrefixedUnambiguous(Octal(f.mode), Prefixed(f.bytes) + x, Octal(g.mode), Prefixed(g.bytes) + y);
    OctalReads(f.mode);
    OctalReads(g.mode);
    PrefixedUnambiguous(f.bytes, x, g.bytes, y);
  }

  lemma StreamNotEmpty(files: seq<TreeFile>)
    requires AllFit(files) && files != []
    ensures FilesStream(files) != []
  {
  }

  lemma {:induction false} FilesUnambiguous(a: seq<TreeFile>, b: seq<TreeFile>)
    requires AllFit(a) && AllFit(b) && FilesStream(a) == FilesStream(b)
    ensures |a| == |b| && forall i :: 0 <= i < |a| ==> SameEntry(a[i], b[i])
    decreases |a|
  {
    if a == [] {
      if b != [] { StreamNotEmpty(b); }
    } else if b == [] {
      StreamNotEmpty(a);
    } else {
      FileUnambiguous(a[0], FilesStream(a[1..]), b[0], FilesStream(b[1..]));
      FilesUnambiguous(a[1..], b[1..]);
      forall i | 0 <= i < |a| ensures SameEntry(a[i], b[i]) {
        if i > 0 { assert a[i] == a[1..][i - 1] && b[i] == b[1..][i - 1]; }
      }
    }
  }

  /** Equal streams come from trees with the same paths (up to lone surrogates), modes
      and bytes, although the stream carries no count. */
  lemma TreeUnambiguous(a: seq<TreeFile>, b: seq<TreeFile>)
    requires AllFit(a) && AllFit(b) && TreeStream(a) == TreeStream(b)
    ensures |a| == |b| && forall i :: 0 <= i < |a| ==> SameEntry(a[i], b[i])
  {
    CD.SplitEqual(TAG, FilesStream(a), TAG, FilesStream(b));
    FilesUnambiguous(a, b);
  }

  // ---- relative paths ----

  predicate Letter(u: Unit) { 0x41 <= u <= 0x5A || 0x61 <= u <= 0x7A }

  /** `path.posix.isAbsolute` or `path.win32.isAbsolute`. */
  predicate Absolute(t: Text) {
    && t != []
    && (t[0] == SLASH || t[0] == 0x5C
        || (|t| > 2 && Letter(t[0]) && t[1] == 0x3A && (t[2] == SLASH || t[2] == 0x5C)))
  }

  predicate Dots(part: seq<int>) { part == [] || part == [0x2E] || part == [0x2E, 0x2E] }

  predicate Control(part: seq<int>) { exists i :: 0 <= i < |part| && (part[i] < 0x20 || part[i] == 0x7F) }

  function Portable(t: Text): (p: Text)
    ensures |p| == |t|
    ensures forall i :: 0 <= i < |t| ==> p[i] == if t[i] == 0x5C then SLASH else t[i]
  {
    seq(|t|, i requires 0 <= i < |t| => if t[i] == 0x5C then SLASH else t[i])
  }

  /** Normal form C on strings of integers: units only ever come from units. */
  ghost predicate Lawful(nfc: seq<int> -> seq<int>) {
    && (forall t :: nfc(nfc(t)) == nfc(t))
    && (forall t :: SLASH !in t && 0x5C !in t && 0 !in t ==> SLASH !in nfc(t) && 0x5C !in nfc(t) && 0 !in nfc(t))
    && (forall t :: Dots(nfc(t)) ==> nfc(t) == t)
    && (forall t :: (forall i :: 0 <= i < |t| ==> 0 <= t[i] < 0x1_0000) ==> forall i :: 0 <= i < |nfc(t)| ==> 0 <= nfc(t)[i] < 0x1_0000)
  }

  function Normalized(parts: seq<seq<int>>, nfc: seq<int> -> seq<int>): (r: seq<seq<int>>)
    ensures |r| == |parts|
    ensures forall i :: 0 <= i < |parts| ==> r[i] == nfc(parts[i])
  {
    seq(|parts|, i requires 0 <= i < |parts| => nfc(parts[i]))
  }

  /** `normalizeRelativeSkillPath`. */
  function NormalizeRelative(t: seq<int>, nfc: seq<int> -> seq<int>): Option<seq<int>> {
    if t == [] || 0 in t || (exists i :: 0 <= i < |t| && !(0 <= t[i] < 0x1_0000)) || Absolute(t) then None
    else
      var parts := Split(Portable(t));
      if exists i :: 0 <= i < |parts| && Dots(parts[i]) then None
      else
        var segments := Normalized(parts, nfc);
        if exists i :: 0 <= i < |segments| && Control(segments[i]) then None else Some(Join(segments))
  }

  predicate Units(t: seq<int>) { forall i :: 0 <= i < |t| ==> 0 <= t[i] < 0x1_0000 }

  /** A segment of a normalized path. */
  ghost predicate Segment(p: seq<int>, nfc: seq<int> -> seq<int>) {
    Units(p) && SLASH !in p && 0x5C !in p && 0 !in p && !Dots(p) && !Control(p) && nfc(p) == p
  }

  lemma SegmentUnits(t: seq<int>, nfc: seq<int> -> seq<int>)
    requires Lawful(nfc) && NormalizeRelative(t, nfc).Some?
    ensures forall i :: 0 <= i < |Split(Portable(t))| ==> Segment(Normalized(Split(Portable(t)), nfc)[i], nfc)
  {
    var parts := Split(Portable(t));
    var segments := Normalized(parts, nfc);
    PartsPlain(Portable(t));
    SplitMembers(Portable(t), 0x5C);
    SplitMembers(Portable(t), 0);
    SplitUnits(Portable(t));
    forall i | 0 <= i < |segments| ensures Segment(segments[i], nfc) {
      assert !Dots(parts[i]) && Units(parts[i]);
    }
  }

  lemma {:induction false} SplitUnits(s: seq<int>)
    requires Units(s)
    ensures forall i :: 0 <= i < |Split(s)| ==> Units(Split(s)[i])
  {
    if s != [] { SplitUnits(s[1..]); }
  }

  lemma {:induction false} JoinUnits(parts: seq<seq<int>>)
    requires parts != [] && forall i :: 0 <= i < |parts| ==> Units(parts[i])
    ensures Units(Join(parts))
  {
    if |parts| > 1 { JoinUnits(parts[1..]); }
  }

  lemma PortableSame(t: Text)
    requires 0x5C !in t
    ensures Portable(t) == t
  {
  }

  lemma JoinedSegments(segments: seq<seq<int>>, nfc: seq<int> -> seq<int>)
    requires segments != [] && forall i :: 0 <= i < |segments| ==> Segment(segments[i], nfc)
    ensures var n := Join(segments);
            n != [] && Units(n) && 0 !in n && Portable(n) == n && Split(n) == segments && Normalized(segments, nfc) == segments
  {
    forall i | 0 <= i < |segments|
      ensures Units(segments[i]) && SLASH !in segments[i] && 0x5C !in segments[i] && 0 !in segments[i] && segments[i] != []
    {
      assert Segment(segments[i], nfc);
    }
    JoinUnits(segments);
    JoinMembers(segments, 0);
    JoinMembers(segments, 0x5C);
    JoinStarts(segments);
    PortableSame(Join(segments));
    SplitJoin(segments);
    assert forall i :: 0 <= i < |segments| ==> Segment(segments[i], nfc);
  }

  lemma SegmentsStay(n: seq<int>, segments: seq<seq<int>>, nfc: seq<int> -> seq<int>)
    requires n != [] && Units(n) && 0 !in n && Portable(n) == n && Split(n) == segments && Normalized(segments, nfc) == segments
    requires segments != [] && Join(segments) == n && forall i :: 0 <= i < |segments| ==> Segment(segments[i], nfc)
    ensures NormalizeRelative(n, nfc) == if Absolute(n) then None else Some(n)
  {
    forall i | 0 <= i < |segments| ensures !Dots(segments[i]) && !Control(segments[i]) { assert Segment(segments[i], nfc); }
  }

  /** A normalized path is its own normal form, unless normalization has turned its
      start into a drive letter: then the path it produced is refused. */
  lemma NormalizingTwice(t: seq<int>, nfc: seq<int> -> seq<int>)
    requires Lawful(nfc) && NormalizeRelative(t, nfc).Some?
    ensures Units(NormalizeRelative(t, nfc).value)
    ensures var n := NormalizeRelative(t, nfc).value;
            NormalizeRelative(n, nfc) == if Absolute(n) then None else Some(n)
  {
    var segments := Normalized(Split(Portable(t)), nfc);
    SegmentUnits(t, nfc);
    JoinedSegments(segments, nfc);
    SegmentsStay(Join(segments), segments, nfc);
  }

  /** The Kelvin sign becomes the letter K: the path "K:/x" that comes of it is
      refused as absolute when it is normalized again. */
  lemma KelvinDrive(nfc: seq<int> -> seq<int>)
    requires nfc([0x212A, 0x3A]) == [0x4B, 0x3A] && nfc([0x78]) == [0x78]
    ensures NormalizeRelative([0x212A, 0x3A, 0x2F, 0x78], nfc) == Some([0x4B, 0x3A, 0x2F, 0x78])
    ensures NormalizeRelative([0x4B, 0x3A, 0x2F, 0x78], nfc) == None
  {
    var t: Text := [0x212A, 0x3A, 0x2F, 0x78];
    KelvinParts();
    assert Normalized([[0x212A, 0x3A], [0x78]], nfc) == [[0x4B, 0x3A], [0x78]];
    FromParts(t, [[0x212A, 0x3A], [0x78]], [[0x4B, 0x3A], [0x78]], nfc);
  }

  lemma KelvinParts()
    ensures Split(Portable([0x212A, 0x3A, 0x2F, 0x78])) == [[0x212A, 0x3A], [0x78]]
    ensures Join([[0x4B, 0x3A], [0x78]]) == [0x4B, 0x3A, 0x2F, 0x78]
  {
    assert Portable([0x212A, 0x3A, 0x2F, 0x78]) == [0x212A, 0x3A] + [SLASH] + [0x78];
    TwoParts([0x212A, 0x3A], [0x78]);
    TwoParts([0x4B, 0x3A], [0x78]);
    assert [0x4B, 0x3A] + [SLASH] + [0x78] == [0x4B, 0x3A, 0x2F, 0x78];
  }

  lemma FromParts(t: Text, parts: seq<seq<int>>, segments: seq<seq<int>>, nfc: seq<int> -> seq<int>)
    requires t != [] && 0 !in t && !Absolute(t) && Split(Portable(t)) == parts && Normalized(parts, nfc) == segments
    requires forall i :: 0 <= i < |parts| ==> !Dots(parts[i]) && !Control(segments[i])
    ensures segments != [] && NormalizeRelative(t, nfc) == Some(Join(segments))
  {
  }

  lemma TwoParts(p: seq<int>, q: seq<int>)
    requires SLASH !in p && SLASH !in q
    ensures Split(p + [SLASH] + q) == [p, q] && Join([p, q]) == p + [SLASH] + q
  {
    SplitPlain(q);
    SplitAfter(p, q);
    assert [p, q][1..] == [q];
  }
}
