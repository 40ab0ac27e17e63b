/** What an accepted image looks like byte by byte, and images that are accepted. */
module PngMeaning {
  import opened Common
  import opened Bytes
  import opened Crc32
  import opened ChecksumDetects
  import opened Png

  /** Colour type and bit depth, as the PNG specification allows them together (table 11.1). */
  const FORMATS: set<(int, int)> := {
    (0, 1), (0, 2), (0, 4), (0, 8), (0, 16), (2, 8), (2, 16), (3, 1), (3, 2), (3, 4), (3, 8), (4, 8), (4, 16), (6, 8), (6, 16)}

  lemma FormatIff(depth: byte, color: byte)
    ensures ColorFormat(depth, color) <==> (color, depth) in FORMATS
  {
  }

  /** The types of chunks are spelled with letters of ASCII. */
  lemma LettersIff(kind: seq<byte>)
    ensures Letters(kind) <==> forall b :: b in kind ==> 'A' as int <= b <= 'Z' as int || 'a' as int <= b <= 'z' as int
  {
    if !Letters(kind) {
      var i :| 0 <= i < |kind| && !(0x41 <= kind[i] <= 0x5A || 0x61 <= kind[i] <= 0x7A);
      assert kind[i] in kind;
    }
  }

  // ---- accepted images ----

  lemma EndAlone(s: seq<byte>, chunks: seq<Chunk>)
    requires SpellsAll(s, chunks) && |chunks| == 1 && chunks[0] == Chunk(Iend, [])
    ensures |s| == 12 && s[0..8] == [0, 0, 0, 0, 0x49, 0x45, 0x4E, 0x44]
  {
    SpelledAlone(s, chunks);
    assert s[..12] == s;
    SmallLength(s[..4], 0);
    assert s[0..8] == s[..4] + s[4..8];
  }

  lemma {:induction false} EndSpelled(s: seq<byte>, chunks: seq<Chunk>)
    requires SpellsAll(s, chunks) && chunks != [] && chunks[|chunks| - 1] == Chunk(Iend, [])
    ensures |s| >= 12 && s[|s| - 12..|s| - 4] == [0, 0, 0, 0, 0x49, 0x45, 0x4E, 0x44]
    decreases |chunks|
  {
    if |chunks| == 1 {
      EndAlone(s, chunks);
    } else {
      var n := |chunks[0].data| + 12;
      var rest := s[n..];
      EndSpelled(rest, chunks[1..]);
      SliceOfSlice(s, n, |s|, |rest| - 12, |rest| - 4);
    }
  }

  lemma SmallFour(a: byte, b: byte, c: byte, d: byte)
    ensures Four(a, b, c, d) < 256 ==> a == b == c == 0 && d == Four(a, b, c, d)
  {
  }

  lemma SmallLength(s: seq<byte>, n: byte)
    requires |s| == 4 && FromBigEndian(s) == n
    ensures s == [0, 0, 0, n]
  {
    FourBytes(s);
    SmallFour(s[0], s[1], s[2], s[3]);
  }

  /** The type of an image data chunk that would begin at `k`. */
  predicate DataAt(s: seq<byte>, k: nat) { k + 8 <= |s| && s[k + 4..k + 8] == [0x49, 0x44, 0x41, 0x54] }

  lemma DataLater(s: seq<byte>, n: nat, k: nat)
    requires n <= |s| && DataAt(s[n..], k)
    ensures DataAt(s, n + k)
  {
    assert s[n..][k + 4..k + 8] == s[n + k + 4..n + k + 8];
  }

  lemma DataFirst(s: seq<byte>, c: Chunk)
    requires |s| >= |c.data| + 12 && Spells(s[..|c.data| + 12], c) && c.kind.Idat?
    ensures DataAt(s, 0)
  {
    assert s[..|c.data| + 12][4..8] == s[4..8];
  }

  lemma {:induction false} DataSpelled(s: seq<byte>, chunks: seq<Chunk>) returns (k: nat)
    requires SpellsAll(s, chunks) && HasData(chunks)
    ensures DataAt(s, k)
    decreases |chunks|
  {
    if chunks[0].kind.Idat? {
      k := 0;
      DataFirst(s, chunks[0]);
    } else {
      var n, rest := |chunks[0].data| + 12, chunks[1..];
      DataLeft(chunks);
      assert SpellsAll(s[n..], rest);
      var j := DataSpelled(s[n..], rest);
      k := n + j;
      DataLater(s, n, j);
    }
  }

  lemma DataLeft(chunks: seq<Chunk>)
    requires chunks != [] && HasData(chunks) && !chunks[0].kind.Idat?
    ensures HasData(chunks[1..])
  {
    assert chunks == [chunks[0]] + chunks[1..];
    DataAdded(chunks[0], chunks[1..]);
  }

  /** An accepted image begins with the signature and a header chunk of 13 bytes that
      gives it a width, a height and a known format; somewhere behind that a data chunk
      begins; and it ends with an empty end chunk. */
  lemma AcceptedSays(content: seq<byte>)
    requires IsPng(content)
    ensures |content| >= 45 && content[..8] == [0x89, 0x50, 0x4E, 0x47, 0x0D, 0x0A, 0x1A, 0x0A]
    ensures content[8..16] == [0, 0, 0, 13, 0x49, 0x48, 0x44, 0x52]
    ensures FromBigEndian(content[16..20]) > 0 && FromBigEndian(content[20..24]) > 0 && (content[25], content[24]) in FORMATS
    ensures exists k :: 33 <= k && DataAt(content, k)
    ensures content[|content| - 12..|content| - 4] == [0, 0, 0, 0, 0x49, 0x45, 0x4E, 0x44]
  {
    var chunks: seq<Chunk> :| PngChunks(content, chunks);
    var s, header, more := content[8..], chunks[0], chunks[1..];
    assert |header.data| == 13;
    var front, rest := s[..25], s[25..];
    HeaderSays(front, header);
    EndSpelled(rest, more);
    var k := DataSpelled(rest, more);
    assert rest == content[33..];
    DataLater(content, 33, k);
    Placed(content, front, rest);
  }

  lemma Placed(content: seq<byte>, front: seq<byte>, rest: seq<byte>)
    requires |content| >= 45 && front == content[8..][..25] && rest == content[33..]
    ensures content[8..16] == front[..8] && content[16..20] == front[8..12] && content[20..24] == front[12..16]
    ensures content[24] == front[16] && content[25] == front[17]
    ensures content[|content| - 12..|content| - 4] == rest[|rest| - 12..|rest| - 4]
  {
  }

  lemma SliceOfSlice(s: seq<byte>, i: nat, j: nat, a: nat, b: nat)
    requires i <= j <= |s| && a <= b <= j - i
    ensures s[i..j][a..b] == s[i + a..i + b]
  {
    var t, u := s[i..j][a..b], s[i + a..i + b];
    assert |t| == |u| && forall k :: 0 <= k < |t| ==> t[k] == u[k];
  }

  lemma FieldsAt(s: seq<byte>)
    requires |s| == 25
    ensures s[8..21][..4] == s[8..12]
    ensures s[8..21][4..8] == s[12..16]
    ensures s[8..21][8] == s[16] && s[8..21][9] == s[17]
  {
    SliceOfSlice(s, 8, 21, 0, 4);
    SliceOfSlice(s, 8, 21, 4, 8);
  }

  lemma HeaderSays(s: seq<byte>, c: Chunk)
    requires |s| == 25 && Spells(s, c) && Header(c)
    ensures s[..8] == [0, 0, 0, 13, 0x49, 0x48, 0x44, 0x52]
    ensures FromBigEndian(s[8..12]) > 0 && FromBigEndian(s[12..16]) > 0 && (s[17], s[16]) in FORMATS
  {
    SmallLength(s[..4], 13);
    assert s[..8] == s[..4] + s[4..8];
    assert s[8..8 + |c.data|] == s[8..21];
    FieldsAt(s);
    FormatIff(c.data[8], c.data[9]);
  }

  // ---- images that are accepted ----

  lemma {:induction false} ValueBounded(bits: Bits)
    ensures Value(bits) < Power(|bits|)
  {
    if bits != [] { ValueBounded(bits[1..]); }
  }

  lemma CrcFits(message: seq<byte>)
    ensures Crc(message) < 0x1_0000_0000
  {
    WordPower(32);
    ValueBounded(Xor(Remainder(XorFront(MessageBits(message) + Zeros(32), Ones(32))), Ones(32)));
  }

  /** `n` in four bytes. */
  function Word(n: nat): (s: seq<byte>)
    requires n < 0x1_0000_0000
    ensures |s| == 4
  {
    Widths();
    BigEndian(n, 4)
  }

  function Assemble(letters: seq<byte>, data: seq<byte>): (s: seq<byte>)
    requires |letters| == 4 && |data| < 0x1_0000_0000
    ensures |s| == |data| + 12
  {
    CrcFits(letters + data);
    Word(|data|) + letters + data + Word(Crc(letters + data))
  }

  lemma WordReads(n: nat)
    requires n < 0x1_0000_0000
    ensures FromBigEndian(Word(n)) == n
  {
    Widths();
    ReadsBack(n, 4);
  }

  lemma AssembledSpells(kind: Kind, data: seq<byte>)
    requires ChunkFits(Chunk(kind, data))
    ensures Spells(Assemble(LettersOf(kind), data), Chunk(kind, data))
  {
    var letters := LettersOf(kind);
    CrcFits(letters + data);
    var s := Assemble(letters, data);
    WordReads(|data|);
    WordReads(Crc(letters + data));
    assert s[..4] == Word(|data|) && s[4..8] == letters && s[8..8 + |data|] == data && s[8 + |data|..] == Word(Crc(letters + data));
  }

  lemma OneMoreSpelled(first: seq<byte>, c: Chunk, s: seq<byte>, chunks: seq<Chunk>)
    requires Spells(first, c) && SpellsAll(s, chunks)
    ensures SpellsAll(first + s, [c] + chunks)
  {
    assert (first + s)[..|c.data| + 12] == first && (first + s)[|c.data| + 12..] == s;
    assert ([c] + chunks)[1..] == chunks;
  }

  /** The letters of the three named chunks are letters, and name them. */
  lemma NamedFit(data: seq<byte>)
    requires |data| < 0x1_0000_0000
    ensures ChunkFits(Chunk(Ihdr, data)) && ChunkFits(Chunk(Idat, data)) && ChunkFits(Chunk(Iend, data))
  {
  }

  /** An image of any size above zero in any of these formats, with any image data, is
      accepted when its parts are put together with their lengths and checksums. */
  lemma AssembledAccepted(width: nat, height: nat, depth: byte, color: byte, methods: seq<byte>, data: seq<byte>)
    requires 0 < width < 0x1_0000_0000 && 0 < height < 0x1_0000_0000 && (color, depth) in FORMATS
    requires |methods| == 3 && |data| < 0x1_0000_0000
    ensures IsPng([0x89, 0x50, 0x4E, 0x47, 0x0D, 0x0A, 0x1A, 0x0A]
                  + (Assemble([0x49, 0x48, 0x44, 0x52], Word(width) + Word(height) + [depth, color] + methods)
                     + (Assemble([0x49, 0x44, 0x41, 0x54], data) + Assemble([0x49, 0x45, 0x4E, 0x44], []))))
  {
    var fields := Word(width) + Word(height) + [depth, color] + methods;
    HeaderFields(width, height, depth, color, methods);
    Joined(fields, data);
  }

  lemma Joined(fields: seq<byte>, data: seq<byte>)
    requires Header(Chunk(Ihdr, fields)) && |data| < 0x1_0000_0000
    ensures IsPng(SIGNATURE + (Assemble(IHDR, fields) + (Assemble(IDAT, data) + Assemble(IEND, []))))
  {
    var header, image, end := Chunk(Ihdr, fields), Chunk(Idat, data), Chunk(Iend, []);
    var front, rest := Assemble(IHDR, fields), Assemble(IDAT, data) + Assemble(IEND, []);
    NamedFit(fields);
    AssembledSpells(Ihdr, fields);
    TailSpelled(data);
    OneMoreSpelled(front, header, rest, [image, end]);
    PartsMakePng(SIGNATURE + (front + rest), front + rest, header, image, end);
  }

  lemma TailSpelled(data: seq<byte>)
    requires |data| < 0x1_0000_0000
    ensures SpellsAll(Assemble(IDAT, data) + Assemble(IEND, []), [Chunk(Idat, data), Chunk(Iend, [])])
  {
    var image, end := Chunk(Idat, data), Chunk(Iend, []);
    NamedFit(data);
    NamedFit([]);
    AssembledSpells(Idat, data);
    AssembledSpells(Iend, []);
    var s := Assemble(IEND, []);
    assert SpellsAll([], []);
    OneMoreSpelled(s, end, [], []);
    assert s + [] == s && [end] + [] == [end];
    OneMoreSpelled(Assemble(IDAT, data), image, s, [end]);
    assert [image] + [end] == [image, end];
  }

  lemma PartsMakePng(all: seq<byte>, s: seq<byte>, header: Chunk, image: Chunk, end: Chunk)
    requires all == SIGNATURE + s && Header(header) && image.kind.Idat? && end == Chunk(Iend, [])
    requires SpellsAll(s, [header] + [image, end])
    ensures IsPng(all)
  {
    var chunks := [header] + [image, end];
    assert chunks[1..] == [image, end] && chunks[1..][0] == image;
    assert all[8..] == s;
    assert PngChunks(all, chunks);
  }

  lemma HeaderFields(width: nat, height: nat, depth: byte, color: byte, methods: seq<byte>)
    requires 0 < width < 0x1_0000_0000 && 0 < height < 0x1_0000_0000 && (color, depth) in FORMATS && |methods| == 3
    ensures Header(Chunk(Ihdr, Word(width) + Word(height) + [depth, color] + methods))
  {
    var fields := Word(width) + Word(height) + [depth, color] + methods;
    WordReads(width);
    WordReads(height);
    assert fields[..4] == Word(width) && fields[4..8] == Word(height) && fields[8] == depth && fields[9] == color;
    FormatIff(depth, color);
  }
}
