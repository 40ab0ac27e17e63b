/** The structural PNG check against the chunk grammar (sections 5.2, 5.3 and 5.6 of
    the PNG specification). */
module Png {
  import opened Common
  import opened Bytes
  import opened Crc32

  const SIGNATURE: seq<byte> := [0x89, 0x50, 0x4E, 0x47, 0x0D, 0x0A, 0x1A, 0x0A]
  const IHDR: seq<byte> := [0x49, 0x48, 0x44, 0x52]
  const IDAT: seq<byte> := [0x49, 0x44, 0x41, 0x54]
  const IEND: seq<byte> := [0x49, 0x45, 0x4E, 0x44]

  /** Chunk types: the three the check names, and any other. */
  datatype Kind = Ihdr | Idat | Iend | Other(letters: seq<byte>)

  datatype Chunk = Chunk(kind: Kind, data: seq<byte>)

  function KindOf(letters: seq<byte>): Kind {
    if letters == IHDR then Ihdr else if letters == IDAT then Idat else if letters == IEND then Iend else Other(letters)
  }

  function LettersOf(kind: Kind): seq<byte> {
    match kind case Ihdr => IHDR case Idat => IDAT case Iend => IEND case Other(letters) => letters
  }

  predicate Letters(kind: seq<byte>) {
    forall i :: 0 <= i < |kind| ==> 0x41 <= kind[i] <= 0x5A || 0x61 <= kind[i] <= 0x7A
  }

  predicate ChunkFits(c: Chunk) {
    KindOf(LettersOf(c.kind)) == c.kind && |LettersOf(c.kind)| == 4 && Letters(LettersOf(c.kind)) && |c.data| < 0x1_0000_0000
  }

  // ---- the grammar ----

  /** Length, type, data and the checksum of type and data; the checksum is any four
      bytes that read as the CRC. */
  ghost predicate Spells(bytes: seq<byte>, c: Chunk) {
    && ChunkFits(c) && |bytes| == |c.data| + 12
    && FromBigEndian(bytes[..4]) == |c.data| && bytes[4..8] == LettersOf(c.kind) && bytes[8..8 + |c.data|] == c.data
    && FromBigEndian(bytes[8 + |c.data|..]) == Crc(LettersOf(c.kind) + c.data)
  }

  ghost predicate SpellsAll(bytes: seq<byte>, chunks: seq<Chunk>)
    decreases |chunks|
  {
    if chunks == [] then bytes == []
    else |bytes| >= |chunks[0].data| + 12 && Spells(bytes[..|chunks[0].data| + 12], chunks[0])
         && SpellsAll(bytes[|chunks[0].data| + 12..], chunks[1..])
  }

  /** `validDepths`. */
  predicate ColorFormat(depth: byte, color: byte) {
    match color
    case 0 => depth in {1, 2, 4, 8, 16}
    case 3 => depth in {1, 2, 4, 8}
    case 2 => depth in {8, 16}
    case 4 => depth in {8, 16}
    case 6 => depth in {8, 16}
    case _ => false
  }

  predicate Header(c: Chunk) {
    && c.kind.Ihdr? && |c.data| == 13 && FromBigEndian(c.data[..4]) > 0 && FromBigEndian(c.data[4..8]) > 0
    && ColorFormat(c.data[8], c.data[9])
  }

  /** After the header: no other header, some image data, and an empty end chunk that
      is the last chunk and the only one of its type. */
  predicate Body(chunks: seq<Chunk>) {
    && chunks != [] && chunks[|chunks| - 1] == Chunk(Iend, [])
    && (forall i :: 0 <= i < |chunks| ==> !chunks[i].kind.Ihdr?)
    && (forall i :: 0 <= i < |chunks| - 1 ==> !chunks[i].kind.Iend?)
    && HasData(chunks)
  }

  predicate HasData(chunks: seq<Chunk>) { exists i :: 0 <= i < |chunks| && chunks[i].kind.Idat? }

  ghost predicate IsPng(content: seq<byte>) {
    && SIGNATURE <= content
    && exists chunks :: PngChunks(content, chunks)
  }

  ghost predicate PngChunks(content: seq<byte>, chunks: seq<Chunk>)
    requires SIGNATURE <= content
  {
    chunks != [] && Header(chunks[0]) && Body(chunks[1..]) && SpellsAll(content[8..], chunks)
  }

  // ---- the walk ----

  /** A chunk, if its type is letters and its checksum is right. */
  function Checked(kind: seq<byte>, data: seq<byte>, covered: seq<byte>, stored: seq<byte>): (r: Option<Chunk>)
    ensures r.Some? ==> r.value.data == data
  {
    if !Letters(kind) || Crc(covered) != FromBigEndian(stored) then None else Some(Chunk(KindOf(kind), data))
  }

  /** The chunk at the front. */
  function FirstChunk(s: seq<byte>): (r: Option<Chunk>)
    ensures r.Some? ==> |r.value.data| + 12 <= |s|
  {
    if |s| < 12 then None
    else
      var length := FromBigEndian(s[..4]);
      if 12 + length > |s| then None
      else Checked(s[4..8], s[8..8 + length], s[4..8 + length], s[8 + length..12 + length])
  }

  /** What the loop accepts from here on. */
  predicate Walk(s: seq<byte>, sawHeader: bool, sawData: bool)
    decreases |s|
  {
    if s == [] then false
    else match FirstChunk(s)
      case None => false
      case Some(c) =>
        var rest := s[|c.data| + 12..];
        if !sawHeader && !Header(c) then false
        else if sawHeader && c.kind.Ihdr? then false
        else if c.kind.Iend? then c.data == [] && sawData && rest == []
        else Walk(rest, true, sawData || c.kind.Idat?)
  }

  /** The slices of a front part are slices of the whole. */
  lemma FrontSlices(s: seq<byte>, n: nat)
    requires |s| >= n + 12
    ensures var t := s[..n + 12];
            && t[..4] == s[..4] && t[4..8] == s[4..8] && t[8..8 + n] == s[8..8 + n] && t[8 + n..] == s[8 + n..12 + n]
            && s[4..8 + n] == s[4..8] + s[8..8 + n]
  {
  }

  /** A chunk is found at the front exactly when it is spelled there. */
  lemma FirstChunkSpells(s: seq<byte>, c: Chunk)
    ensures FirstChunk(s) == Some(c) <==> |s| >= |c.data| + 12 && Spells(s[..|c.data| + 12], c)
  {
    var n := |c.data|;
    if |s| >= n + 12 {
      FrontSlices(s, n);
      Widths();
      if FromBigEndian(s[..4]) != n {
        assert !Spells(s[..n + 12], c);
      } else {
        assert FirstChunk(s) == Checked(s[4..8], s[8..8 + n], s[4..8 + n], s[8 + n..12 + n]);
      }
    }
  }

  /** The chunks after the header that the loop is still to see. */
  ghost predicate Ends(s: seq<byte>, chunks: seq<Chunk>, sawData: bool) {
    && SpellsAll(s, chunks) && chunks != [] && chunks[|chunks| - 1] == Chunk(Iend, [])
    && (forall i :: 0 <= i < |chunks| ==> !chunks[i].kind.Ihdr?)
    && (forall i :: 0 <= i < |chunks| - 1 ==> !chunks[i].kind.Iend?)
    && (sawData || HasData(chunks))
  }

  /** One turn of the walk. */
  lemma WalkFront(s: seq<byte>, c: Chunk, sawHeader: bool, sawData: bool)
    requires FirstChunk(s) == Some(c)
    ensures Walk(s, sawHeader, sawData) <==>
              (if sawHeader then !c.kind.Ihdr? else Header(c))
              && if c.kind.Iend? then c.data == [] && sawData && |s| == |c.data| + 12
                 else Walk(s[|c.data| + 12..], true, sawData || c.kind.Idat?)
  {
  }

  lemma WalkStarts(s: seq<byte>, sawHeader: bool, sawData: bool)
    requires Walk(s, sawHeader, sawData)
    ensures FirstChunk(s).Some?
  {
  }

  lemma SpellsMore(s: seq<byte>, c: Chunk, more: seq<Chunk>)
    requires FirstChunk(s) == Some(c) && SpellsAll(s[|c.data| + 12..], more)
    ensures SpellsAll(s, [c] + more)
  {
    FirstChunkSpells(s, c);
    assert ([c] + more)[1..] == more;
  }

  lemma {:induction false} WalkFinds(s: seq<byte>, sawData: bool) returns (chunks: seq<Chunk>)
    requires Walk(s, true, sawData)
    ensures Ends(s, chunks, sawData)
    decreases |s|
  {
    WalkStarts(s, true, sawData);
    var c := FirstChunk(s).value;
    WalkFront(s, c, true, sawData);
    var rest := s[|c.data| + 12..];
    if c.kind.Iend? {
      chunks := [c];
      EndsSole(s, c);
    } else {
      var more := WalkFinds(rest, sawData || c.kind.Idat?);
      chunks := [c] + more;
      EndsMore(s, c, more, sawData);
    }
  }

  lemma EndsSole(s: seq<byte>, c: Chunk)
    requires FirstChunk(s) == Some(c) && c == Chunk(Iend, []) && |s| == 12
    ensures Ends(s, [c], true)
  {
    SpellsMore(s, c, []);
    assert [c] + [] == [c];
  }

  lemma EndsMore(s: seq<byte>, c: Chunk, more: seq<Chunk>, sawData: bool)
    requires FirstChunk(s) == Some(c) && !c.kind.Ihdr? && !c.kind.Iend?
    requires Ends(s[|c.data| + 12..], more, sawData || c.kind.Idat?)
    ensures Ends(s, [c] + more, sawData)
  {
    SpellsMore(s, c, more);
    DataAdded(c, more);
    KindsAdded(c, more);
  }

  lemma KindsAdded(c: Chunk, more: seq<Chunk>)
    requires more != [] && !c.kind.Ihdr? && !c.kind.Iend?
    ensures var all := [c] + more;
            && all[|all| - 1] == more[|more| - 1]
            && ((forall i :: 0 <= i < |more| ==> !more[i].kind.Ihdr?) ==> forall i :: 0 <= i < |all| ==> !all[i].kind.Ihdr?)
            && ((forall i :: 0 <= i < |more| - 1 ==> !more[i].kind.Iend?) ==> forall i :: 0 <= i < |all| - 1 ==> !all[i].kind.Iend?)
  {
  }

  lemma DataAdded(c: Chunk, more: seq<Chunk>)
    ensures HasData([c] + more) <==> c.kind.Idat? || HasData(more)
  {
    var all := [c] + more;
    if i :| 0 <= i < |more| && more[i].kind.Idat? { assert all[i + 1] == more[i]; }
    if c.kind.Idat? { assert all[0] == c; }
  }

  lemma SoleEnd(s: seq<byte>, chunks: seq<Chunk>, sawData: bool)
    requires Ends(s, chunks, sawData) && |chunks| == 1
    ensures sawData && |s| == 12
  {
    SpelledAlone(s, chunks);
    assert chunks[0] == Chunk(Iend, []);
  }

  lemma SpelledAlone(s: seq<byte>, chunks: seq<Chunk>)
    requires SpellsAll(s, chunks) && |chunks| == 1
    ensures |s| == |chunks[0].data| + 12
  {
    assert chunks[1..] == [];
  }

  lemma {:induction false} WalkAccepts(s: seq<byte>, chunks: seq<Chunk>, sawData: bool)
    requires Ends(s, chunks, sawData)
    ensures Walk(s, true, sawData)
    decreases |chunks|
  {
    var c := chunks[0];
    FirstChunkSpells(s, c);
    WalkFront(s, c, true, sawData);
    if |chunks| == 1 {
      SoleEnd(s, chunks, sawData);
    } else {
      EndsGoOn(s, chunks, sawData);
      WalkAccepts(s[|c.data| + 12..], chunks[1..], sawData || c.kind.Idat?);
    }
  }

  lemma EndsGoOn(s: seq<byte>, chunks: seq<Chunk>, sawData: bool)
    requires Ends(s, chunks, sawData) && |chunks| > 1
    ensures Ends(s[|chunks[0].data| + 12..], chunks[1..], sawData || chunks[0].kind.Idat?)
  {
    assert chunks == [chunks[0]] + chunks[1..];
    DataAdded(chunks[0], chunks[1..]);
    LaterKinds(chunks, chunks[1..]);
  }

  lemma LaterKinds(chunks: seq<Chunk>, more: seq<Chunk>)
    requires |chunks| > 1 && more == chunks[1..]
    requires (forall i :: 0 <= i < |chunks| ==> !chunks[i].kind.Ihdr?) && (forall i :: 0 <= i < |chunks| - 1 ==> !chunks[i].kind.Iend?)
    ensures (forall i :: 0 <= i < |more| ==> !more[i].kind.Ihdr?) && (forall i :: 0 <= i < |more| - 1 ==> !more[i].kind.Iend?)
    ensures more != [] && more[|more| - 1] == chunks[|chunks| - 1]
  {
  }

  lemma WalkIsPng(content: seq<byte>)
    requires SIGNATURE <= content && Walk(content[8..], false, false)
    ensures IsPng(content)
  {
    var s := content[8..];
    WalkStarts(s, false, false);
    var c := FirstChunk(s).value;
    WalkFront(s, c, false, false);
    var more := WalkFinds(s[|c.data| + 12..], false);
    SpellsMore(s, c, more);
    assert ([c] + more)[1..] == more;
    assert PngChunks(content, [c] + more);
  }

  lemma PngIsWalked(content: seq<byte>, chunks: seq<Chunk>)
    requires SIGNATURE <= content && PngChunks(content, chunks)
    ensures Walk(content[8..], false, false)
  {
    var s := content[8..];
    FirstChunkSpells(s, chunks[0]);
    WalkFront(s, chunks[0], false, false);
    WalkAccepts(s[|chunks[0].data| + 12..], chunks[1..], false);
  }

  /** The walk accepts exactly the strings of the grammar. */
  lemma WalkIsGrammar(content: seq<byte>)
    ensures IsPng(content) <==> SIGNATURE <= content && Walk(content[8..], false, false)
  {
    if SIGNATURE <= content && Walk(content[8..], false, false) { WalkIsPng(content); }
    if IsPng(content) {
      var chunks :| PngChunks(content, chunks);
      PngIsWalked(content, chunks);
    }
  }

  function Four(a: int, b: int, c: int, d: int): int { a * 0x100_0000 + b * 0x1_0000 + c * 0x100 + d }

  /** `readUint32Be` where all four bytes are there. */
  method ReadUint32(content: seq<byte>, offset: nat) returns (n: nat)
    requires offset + 4 <= |content|
    ensures n == FromBigEndian(content[offset..offset + 4])
  {
    FourBytes(content[offset..offset + 4]);
    n := Four(content[offset], content[offset + 1], content[offset + 2], content[offset + 3]);
  }

  lemma FourBytes(s: seq<byte>)
    requires |s| == 4
    ensures FromBigEndian(s) == Four(s[0], s[1], s[2], s[3])
  {
    OneMore(s, 0);
    OneMore(s, 1);
    OneMore(s, 2);
    OneMore(s, 3);
    assert s[..4] == s && s[..0] == [];
  }

  function Shifted(n: int, d: int): int { n * 256 + d }

  lemma OneMore(s: seq<byte>, k: nat)
    requires k < |s|
    ensures FromBigEndian(s[..k + 1]) == Shifted(FromBigEndian(s[..k]), s[k])
  {
    assert s[..k + 1][..k] == s[..k];
  }

  lemma Inside(content: seq<byte>, offset: nat, i: nat, j: nat)
    requires offset + j <= |content| && i <= j
    ensures content[offset..][i..j] == content[offset + i..offset + j]
  {
  }

  lemma ChunkOf(s: seq<byte>, length: nat)
    requires |s| >= 12 && length == FromBigEndian(s[0..4])
    ensures FirstChunk(s) ==
              if 12 + length > |s| then None else Checked(s[4..8], s[8..8 + length], s[4..8 + length], s[8 + length..12 + length])
  {
  }

  /** The first chunk of a suffix, by positions in the whole. */
  lemma FirstChunkAt(content: seq<byte>, offset: nat, length: nat)
    requires offset + 12 <= |content| && length == FromBigEndian(content[offset..offset + 4])
    ensures var dataEnd := offset + 8 + length;
            FirstChunk(content[offset..]) ==
              if dataEnd + 4 > |content| then None
              else Checked(content[offset + 4..offset + 8], content[offset + 8..dataEnd], content[offset + 4..dataEnd],
                           content[dataEnd..dataEnd + 4])
  {
    Inside(content, offset, 0, 4);
    ChunkOf(content[offset..], length);
    if offset + 12 + length <= |content| {
      Inside(content, offset, 4, 8);
      Inside(content, offset, 4, 8 + length);
      Inside(content, offset, 8, 8 + length);
      Inside(content, offset, 8 + length, 12 + length);
    }
  }

  /** The chunk at `offset` with its checks, or nothing. */
  method ReadChunk(content: seq<byte>, offset: nat) returns (r: Option<Chunk>)
    requires offset <= |content|
    ensures r == FirstChunk(content[offset..])
  {
    if offset + 12 > |content| { return None; }
    var length := ReadUint32(content, offset);
    FirstChunkAt(content, offset, length);
    var typeOffset := offset + 4;
    var dataOffset := typeOffset + 4;
    var dataEnd := dataOffset + length;
    var chunkEnd := dataEnd + 4;
    if chunkEnd > |content| { return None; }
    var kind, data, covered := content[typeOffset..dataOffset], content[dataOffset..dataEnd], content[typeOffset..dataEnd];
    assert FirstChunk(content[offset..]) == Checked(kind, data, covered, content[dataEnd..chunkEnd]);
    if !Letters(kind) { return None; }
    var crc := Checksum(covered);
    var stored := ReadUint32(content, dataEnd);
    return if crc == stored then Some(Chunk(KindOf(kind), data)) else None;
  }

  /** The header comes first and does not come again. */
  predicate Proceeds(c: Chunk, sawHeader: bool) { if sawHeader then !c.kind.Ihdr? else Header(c) }

  method CheckHeader(c: Chunk, sawHeader: bool) returns (valid: bool)
    ensures valid <==> Proceeds(c, sawHeader)
  {
    if sawHeader { return !c.kind.Ihdr?; }
    if !c.kind.Ihdr? || |c.data| != 13 { return false; }
    var width := ReadUint32(c.data, 0);
    var height := ReadUint32(c.data, 4);
    assert c.data[0..4] == c.data[..4];
    return width != 0 && height != 0 && ColorFormat(c.data[8], c.data[9]);
  }

  predicate WalkAt(content: seq<byte>, offset: nat, sawHeader: bool, sawData: bool)
    requires offset <= |content|
  {
    Walk(content[offset..], sawHeader, sawData)
  }

  /** What one sound chunk decides, if anything; `next` is where it ends. */
  method Judge(c: Chunk, proceeds: bool, sawData: bool, next: nat, size: nat) returns (answer: Option<bool>, data: bool)
    ensures answer == if !proceeds then Some(false)
                      else if c.kind.Iend? then Some(c.data == [] && sawData && next == size) else None
    ensures data == (sawData || c.kind.Idat?)
  {
    data := sawData;
    if !proceeds { return Some(false), data || c.kind.Idat?; }
    if c.kind.Iend? { return Some(|c.data| == 0 && sawData && next == size), data; }
    if c.kind.Idat? { data := true; }
    return None, data;
  }

  /** What one turn decided is what the walk says. */
  lemma Turned(content: seq<byte>, offset: nat, c: Chunk, sawHeader: bool, sawData: bool, answer: Option<bool>, next: nat, data: bool)
    requires offset < |content| && FirstChunk(content[offset..]) == Some(c) && next == offset + |c.data| + 12
    requires answer == if !Proceeds(c, sawHeader) then Some(false)
                       else if c.kind.Iend? then Some(c.data == [] && sawData && next == |content|) else None
    requires data == (sawData || c.kind.Idat?)
    ensures next <= |content|
    ensures WalkAt(content, offset, sawHeader, sawData) <==> if answer.Some? then answer.value else WalkAt(content, next, true, data)
  {
    var s := content[offset..];
    WalkFront(s, c, sawHeader, sawData);
    assert s[|c.data| + 12..] == content[next..];
  }

  /** The loop body: an answer, or where to go on. */
  method Turn(content: seq<byte>, offset: nat, sawHeader: bool, sawData: bool) returns (answer: Option<bool>, next: nat, data: bool)
    requires offset < |content|
    ensures answer.None? ==> offset < next
    ensures next <= |content|
    ensures WalkAt(content, offset, sawHeader, sawData) <==> if answer.Some? then answer.value else WalkAt(content, next, true, data)
  {
    next, data := offset, sawData;
    var chunk := ReadChunk(content, offset);
    if chunk.None? { return Some(false), next, data; }
    var c := chunk.value;
    var proceeds := CheckHeader(c, sawHeader);
    next := offset + |c.data| + 12;
    answer, data := Judge(c, proceeds, sawData, next, |content|);
    Turned(content, offset, c, sawHeader, sawData, answer, next, data);
  }

  /** `isStructurallyValidPng`. */
  method IsStructurallyValid(content: seq<byte>) returns (valid: bool)
    ensures valid <==> IsPng(content)
  {
    WalkIsGrammar(content);
    if |content| < 8 || content[..8] != SIGNATURE { return false; }
    var offset := 8;
    var sawHeader, sawData := false, false;
    ghost var expected := WalkAt(content, 8, false, false);
    while offset < |content|
      invariant 8 <= offset <= |content|
      invariant expected <==> WalkAt(content, offset, sawHeader, sawData)
    {
      var answer, next, data := Turn(content, offset, sawHeader, sawData);
      if answer.Some? { return answer.value; }
      offset, sawHeader, sawData := next, true, data;
    }
    return false;
  }
}
