/** What the checksum is worth: any change within four consecutive bytes shows in it. */
module ChecksumDetects {
  import opened Bytes
  import opened Crc32

  // ---- the register after a message ----

  function Absorb(r: Bits, b: byte): (s: Bits)
    requires |r| == 32
    ensures |s| == 32
  {
    Shifts(Xor(r, ByteBits(b) + Zeros(24)), |ByteBits(b)|)
  }

  function Register(r: Bits, message: seq<byte>): (s: Bits)
    requires |r| == 32
    ensures |s| == 32
    decreases |message|
  {
    if message == [] then r else Register(Absorb(r, message[0]), message[1..])
  }

  lemma {:induction false} RegisterDivides(r: Bits, message: seq<byte>)
    requires |r| == 32
    ensures Remainder(XorFront(MessageBits(message) + Zeros(32), r)) == Register(r, message)
    decreases |message|
  {
    if message == [] {
      assert MessageBits(message) + Zeros(32) == Zeros(32);
      assert XorFront(Zeros(32), r) == r;
    } else {
      var d := MessageBits(message[1..]) + Zeros(32);
      assert MessageBits(message) + Zeros(32) == ByteBits(message[0]) + d;
      ByteDivides(r, message[0], d);
      RegisterDivides(Absorb(r, message[0]), message[1..]);
    }
  }

  lemma {:induction false} RegisterAppend(r: Bits, a: seq<byte>, b: seq<byte>)
    requires |r| == 32
    ensures Register(r, a + b) == Register(Register(r, a), b)
    decreases |a|
  {
    if a == [] {
      assert a + b == b;
    } else {
      assert (a + b)[1..] == a[1..] + b;
      RegisterAppend(Absorb(r, a[0]), a[1..], b);
    }
  }

  // ---- nothing is lost ----

  lemma XorApart(a: Bits, b: Bits, c: Bits)
    requires |a| == |b| == |c| && a != b
    ensures Xor(a, c) != Xor(b, c) && Xor(c, a) != Xor(c, b)
  {
    var i :| 0 <= i < |a| && a[i] != b[i];
    assert Xor(a, c)[i] != Xor(b, c)[i] && Xor(c, a)[i] != Xor(c, b)[i];
  }

  /** The generator has a constant term, so what is shifted out can be told from what is left. */
  lemma ShiftApart(r: Bits, s: Bits)
    requires |r| == |s| == 32 && r != s
    ensures Shift(r) != Shift(s)
  {
    assert Generator()[31];
    assert Shift(r)[31] == r[0] && Shift(s)[31] == s[0];
    if r[0] == s[0] {
      assert r == [r[0]] + r[1..] && s == [s[0]] + s[1..];
      var a, b := r[1..] + [false], s[1..] + [false];
      assert a[..31] == r[1..] && b[..31] == s[1..];
      if r[0] { XorApart(a, b, Generator()); }
    }
  }

  lemma {:induction false} ShiftsApart(r: Bits, s: Bits, n: nat)
    requires |r| == |s| == 32 && r != s
    ensures Shifts(r, n) != Shifts(s, n)
    decreases n
  {
    if n > 0 {
      ShiftApart(r, s);
      ShiftsApart(Shift(r), Shift(s), n - 1);
    }
  }

  lemma {:induction false} RegisterApart(r: Bits, s: Bits, message: seq<byte>)
    requires |r| == |s| == 32 && r != s
    ensures Register(r, message) != Register(s, message)
    decreases |message|
  {
    if message != [] {
      var b := message[0];
      XorApart(r, s, ByteBits(b) + Zeros(24));
      ShiftsApart(Xor(r, ByteBits(b) + Zeros(24)), Xor(s, ByteBits(b) + Zeros(24)), |ByteBits(b)|);
      RegisterApart(Absorb(r, b), Absorb(s, b), message[1..]);
    }
  }

  // ---- four bytes at once ----

  lemma ShiftXor(r: Bits, e: Bits)
    requires |r| == 32 && |e| == 31
    ensures Shift(Xor(r, [false] + e)) == Xor(Shift(r), e + [false])
  {
    var x := Xor(r, [false] + e);
    assert x[0] == r[0];
    assert x[1..] + [false] == Xor(r[1..] + [false], e + [false]);
  }

  /** Coefficients of lower degree can be added before the shifts or after them. */
  lemma {:induction false} ShiftsXor(r: Bits, e: Bits, n: nat)
    requires |r| == 32 && |e| + n == 32
    ensures Shifts(Xor(r, Zeros(n) + e), n) == Xor(Shifts(r, n), e + Zeros(n))
    decreases n
  {
    if n == 0 {
      assert Zeros(n) + e == e && e + Zeros(n) == e;
    } else {
      var f := Zeros(n - 1) + e;
      assert Zeros(n) + e == [false] + f;
      ShiftXor(r, f);
      assert f + [false] == Zeros(n - 1) + (e + [false]);
      ShiftsXor(Shift(r), e + [false], n - 1);
      assert (e + [false]) + Zeros(n - 1) == e + Zeros(n);
    }
  }

  lemma {:induction false} MessageLength(message: seq<byte>)
    ensures |MessageBits(message)| == 8 * |message|
  {
    if message != [] { MessageLength(message[1..]); }
  }

  function Padded(message: seq<byte>): (s: Bits)
    requires |message| <= 4
    ensures |s| == 32
  {
    MessageLength(message);
    MessageBits(message) + Zeros(32 - 8 * |message|)
  }

  lemma {:induction false} ShiftsAdd(r: Bits, m: nat, n: nat)
    requires |r| == 32
    ensures Shifts(r, m + n) == Shifts(Shifts(r, m), n)
    decreases m
  {
    if m > 0 { ShiftsAdd(Shift(r), m - 1, n); }
  }

  /** Up to four bytes can be added to the register together. */
  lemma NothingPadded(r: Bits)
    requires |r| == 32
    ensures Xor(r, Padded([])) == r
  {
  }

  lemma {:induction false} RegisterAtOnce(r: Bits, message: seq<byte>)
    requires |r| == 32 && |message| <= 4
    ensures Register(r, message) == Shifts(Xor(r, Padded(message)), 8 * |message|)
    decreases |message|
  {
    if message == [] {
      NothingPadded(r);
    } else {
      RegisterAtOnce(Absorb(r, message[0]), message[1..]);
      FirstShifts(r, message);
    }
  }

  lemma FirstShifts(r: Bits, message: seq<byte>)
    requires |r| == 32 && 1 <= |message| <= 4
    ensures Shifts(Xor(Absorb(r, message[0]), Padded(message[1..])), 8 * |message[1..]|) == Shifts(Xor(r, Padded(message)), 8 * |message|)
  {
    var n, k := |ByteBits(message[0])|, 8 * |message[1..]|;
    FirstAtOnce(r, message, n);
    ShiftsAdd(Xor(r, Padded(message)), n, k);
    assert n + k == 8 * |message|;
  }

  lemma FirstAtOnce(r: Bits, message: seq<byte>, n: nat)
    requires |r| == 32 && 1 <= |message| <= 4 && n == |ByteBits(message[0])|
    ensures Xor(Absorb(r, message[0]), Padded(message[1..])) == Shifts(Xor(r, Padded(message)), n)
  {
    var b, rest := message[0], message[1..];
    MessageLength(rest);
    var e := MessageBits(rest) + Zeros(24 - 8 * |rest|);
    assert Padded(rest) == e + Zeros(8);
    ShiftsXor(Xor(r, ByteBits(b) + Zeros(24)), e, n);
    assert Padded(message) == ByteBits(b) + e;
    XorParts(r, ByteBits(b), e);
  }

  lemma XorParts(r: Bits, a: Bits, e: Bits)
    requires |r| == 32 && |a| == 8 && |e| == 24
    ensures Xor(Xor(r, a + Zeros(24)), Zeros(8) + e) == Xor(r, a + e)
  {
  }

  // ---- messages and their bits ----

  function Power(n: nat): (p: nat)
    ensures p > 0
  {
    if n == 0 then 1 else 2 * Power(n - 1)
  }

  lemma {:induction false} ValueOf(v: nat, n: nat)
    requires v < Power(n)
    ensures Value(BitsOf(v, n)) == v
    decreases n
  {
    if n > 0 {
      ValueOf(v / 2, n - 1);
      assert BitsOf(v, n)[1..] == BitsOf(v / 2, n - 1);
    }
  }

  lemma {:induction false} PowerDoubles(m: nat, n: nat)
    ensures Power(m + n) == Power(m) * Power(n)
  {
    if m > 0 { PowerDoubles(m - 1, n); }
  }

  lemma BytePower(n: nat)
    requires n == 8
    ensures Power(n) == 256
  {
    PowerDoubles(n - 6, n - 6);
    PowerDoubles(n - 4, n - 4);
  }

  lemma BytesApart(a: byte, b: byte)
    requires a != b
    ensures ByteBits(a) != ByteBits(b)
  {
    var n := 8;
    BytePower(n);
    ValueOf(a, n);
    ValueOf(b, n);
  }

  lemma {:induction false} MessagesApart(x: seq<byte>, y: seq<byte>)
    requires |x| == |y| && x != y
    ensures MessageBits(x) != MessageBits(y)
  {
    var p, q := MessageBits(x), MessageBits(y);
    assert p[..8] == ByteBits(x[0]) && p[8..] == MessageBits(x[1..]);
    assert q[..8] == ByteBits(y[0]) && q[8..] == MessageBits(y[1..]);
    if x[0] != y[0] {
      BytesApart(x[0], y[0]);
    } else {
      assert x == [x[0]] + x[1..] && y == [y[0]] + y[1..];
      MessagesApart(x[1..], y[1..]);
    }
  }

  lemma {:induction false} ValueApart(a: Bits, b: Bits)
    requires |a| == |b| && a != b
    ensures Value(a) != Value(b)
  {
    if a[0] == b[0] {
      assert a == [a[0]] + a[1..] && b == [b[0]] + b[1..];
      ValueApart(a[1..], b[1..]);
    }
  }

  lemma CrcIs(message: seq<byte>)
    ensures Crc(message) == Value(Xor(Register(Ones(32), message), Ones(32)))
  {
    RegisterDivides(Ones(32), message);
  }

  /** Messages that differ within four consecutive bytes have different checksums. */
  lemma BurstShows(a: seq<byte>, x: seq<byte>, y: seq<byte>, b: seq<byte>)
    requires |x| == |y| <= 4 && x != y
    ensures Crc(a + x + b) != Crc(a + y + b)
  {
    var r := Register(Ones(32), a);
    RegisterAppend(Ones(32), a, x);
    RegisterAppend(Ones(32), a + x, b);
    RegisterAppend(Ones(32), a, y);
    RegisterAppend(Ones(32), a + y, b);
    WindowApart(r, x, y);
    var s, t := Register(r, x), Register(r, y);
    RegisterApart(s, t, b);
    XorApart(Register(s, b), Register(t, b), Ones(32));
    ValueApart(Xor(Register(s, b), Ones(32)), Xor(Register(t, b), Ones(32)));
    CrcIs(a + x + b);
    CrcIs(a + y + b);
  }

  lemma WindowApart(r: Bits, x: seq<byte>, y: seq<byte>)
    requires |r| == 32 && |x| == |y| <= 4 && x != y
    ensures Register(r, x) != Register(r, y)
  {
    MessagesApart(x, y);
    MessageLength(x);
    MessageLength(y);
    assert Padded(x)[..8 * |x|] == MessageBits(x) && Padded(y)[..8 * |y|] == MessageBits(y);
    XorApart(Padded(x), Padded(y), r);
    ShiftsApart(Xor(r, Padded(x)), Xor(r, Padded(y)), 8 * |x|);
    RegisterAtOnce(r, x);
    RegisterAtOnce(r, y);
  }

  // ---- two known checksums ----

  lemma {:induction false} Complement(v: nat, n: nat)
    requires v < Power(n)
    ensures Value(Xor(BitsOf(v, n), Ones(n))) == Power(n) - 1 - v
    decreases n
  {
    if n > 0 {
      Complement(v / 2, n - 1);
      assert Xor(BitsOf(v, n), Ones(n))[1..] == Xor(BitsOf(v / 2, n - 1), Ones(n - 1));
    }
  }

  lemma WordPower(n: nat)
    requires n == 32
    ensures Power(n) == 0x1_0000_0000
  {
    BytePower(n - 24);
    PowerDoubles(n - 24, n - 24);
    PowerDoubles(n - 16, n - 16);
  }

  lemma {:induction false} BitsOfZero(n: nat)
    ensures BitsOf(0, n) == Zeros(n)
  {
    if n > 0 { BitsOfZero(n - 1); }
  }

  lemma FullByte(b: byte, n: nat)
    requires n == 8
    ensures b == 0xFF ==> BitsOf(b, n) == Ones(8)
    ensures b == 0x7F ==> BitsOf(b, n) == Ones(7) + [false]
  {
    if b == 0xFF { Nibble(b, 15, 15, n, n - 4); Nibble(15, 0, 15, n - 4, n - 8); }
    if b == 0x7F { Nibble(b, 7, 15, n, n - 4); Nibble(7, 0, 7, n - 4, n - 8); }
    assert BitsOf(0, n - 8) == [];
  }

  /** The first bit counts from below, and the register starts full and ends inverted. */
  lemma KnownChecksums()
    ensures Crc([0xFF, 0xFF, 0xFF, 0xFF]) == 0xFFFF_FFFF
    ensures Crc([0xFF, 0xFF, 0xFF, 0x7F]) == 0x1247_7CDF
  {
    FourOnes(0xFF);
    FourOnes(0x7F);
    BitsOfZero(32);
    WordPower(32);
    Complement(0, 32);
    GeneratorConstant(0xEDB8_8320, 32);
    Complement(0xEDB8_8320, 32);
  }

  lemma FourBits(last: byte)
    ensures MessageBits([0xFF, 0xFF, 0xFF, last]) == ByteBits(0xFF) + (ByteBits(0xFF) + (ByteBits(0xFF) + ByteBits(last)))
  {
    BitsAppend(0xFF, [0xFF, 0xFF, last]);
    BitsAppend(0xFF, [0xFF, last]);
    BitsAppend(0xFF, [last]);
    BitsAppend(last, []);
    assert [0xFF, 0xFF, 0xFF, last] == [0xFF] + ([0xFF] + ([0xFF] + ([last] + [])));
  }

  /** After three full bytes and this one only its missing highest bit is left to divide. */
  lemma FourOnes(last: byte)
    requires last == 0xFF || last == 0x7F
    ensures Remainder(XorFront(MessageBits([0xFF, 0xFF, 0xFF, last]) + Zeros(32), Ones(32))) ==
              if last == 0xFF then Zeros(32) else Generator()
  {
    FullByte(0xFF, 8);
    FullByte(last, 8);
    FourBits(last);
    if last == 0xFF { OnesDivide(ByteBits(0xFF)); } else { AlmostOnesDivide(ByteBits(0xFF), ByteBits(0x7F)); }
  }

  lemma OnesDivide(full: Bits)
    requires full == Ones(8)
    ensures Remainder(XorFront(full + (full + (full + full)) + Zeros(32), Ones(32))) == Zeros(32)
  {
    assert XorFront(full + (full + (full + full)) + Zeros(32), Ones(32)) == Zeros(32) + Zeros(32);
    ZerosDivide(Zeros(32), 32);
  }

  lemma AlmostOnesDivide(full: Bits, almost: Bits)
    requires full == Ones(8) && almost == Ones(7) + [false]
    ensures Remainder(XorFront(full + (full + (full + almost)) + Zeros(32), Ones(32))) == Generator()
  {
    assert XorFront(full + (full + (full + almost)) + Zeros(32), Ones(32)) == Zeros(31) + ([true] + Zeros(32));
    ZerosDivide([true] + Zeros(32), 31);
    assert XorFront(Zeros(32), Generator()) == Generator();
    assert ([true] + Zeros(32))[1..] == Zeros(32);
  }

  lemma BitsAppend(b: byte, rest: seq<byte>)
    ensures MessageBits([b] + rest) == ByteBits(b) + MessageBits(rest)
  {
    assert ([b] + rest)[1..] == rest;
  }

  lemma {:induction false} ZerosDivide(d: Bits, n: nat)
    requires |d| >= 32
    ensures Remainder(Zeros(n) + d) == Remainder(d)
    decreases n
  {
    if n == 0 {
      assert Zeros(0) + d == d;
    } else {
      assert (Zeros(n) + d)[1..] == Zeros(n - 1) + d;
      ZerosDivide(d, n - 1);
    }
  }
}
