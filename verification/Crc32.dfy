/** The bitwise CRC-32 loop and polynomial division over two elements
    (section 5.5 of the PNG specification). */
module Crc32 {
  import opened Bytes

  /** Coefficients, the highest degree first. */
  type Bits = seq<bool>

  function Zeros(n: nat): (z: Bits)
    ensures |z| == n
    ensures forall i :: 0 <= i < n ==> !z[i]
  {
    seq(n, _ => false)
  }

  function Ones(n: nat): (z: Bits)
    ensures |z| == n
    ensures forall i :: 0 <= i < n ==> z[i]
  {
    seq(n, _ => true)
  }

  function Xor(a: Bits, b: Bits): (c: Bits)
    requires |a| == |b|
    ensures |c| == |a|
    ensures forall i :: 0 <= i < |a| ==> c[i] == (a[i] != b[i])
  {
    seq(|a|, i requires 0 <= i < |a| => a[i] != b[i])
  }

  /** The `n` lowest bits of a number, the lowest first. */
  function BitsOf(v: nat, n: nat): (s: Bits)
    ensures |s| == n
    decreases n
  {
    if n == 0 then [] else [v % 2 == 1] + BitsOf(v / 2, n - 1)
  }

  /** The generator without its leading x^32:
      x^26 + x^23 + x^22 + x^16 + x^12 + x^11 + x^10 + x^8 + x^7 + x^5 + x^4 + x^2 + x + 1. */
  function Generator(): (g: Bits)
    ensures |g| == 32
  {
    seq(32, i requires 0 <= i < 32 => 31 - i in {26, 23, 22, 16, 12, 11, 10, 8, 7, 5, 4, 2, 1, 0})
  }

  /** Adding a polynomial of degree below 32 to the leading 32 coefficients. */
  function XorFront(d: Bits, r: Bits): (e: Bits)
    requires |r| == 32 && |d| >= 32
    ensures |e| == |d|
    ensures forall i :: 0 <= i < |d| ==> e[i] == if i < 32 then d[i] != r[i] else d[i]
  {
    seq(|d|, i requires 0 <= i < |d| => if i < 32 then d[i] != r[i] else d[i])
  }

  /** Long division by the generator: while there are more than 32 coefficients, a
      leading one is cancelled by subtracting the generator under it. */
  function Remainder(d: Bits): (r: Bits)
    requires |d| >= 32
    ensures |r| == 32
    decreases |d|
  {
    if |d| == 32 then d
    else if d[0] then Remainder(XorFront(d[1..], Generator()))
    else Remainder(d[1..])
  }

  /** A byte, its lowest bit first, as the checksum transmits it. */
  function ByteBits(b: byte): (s: Bits)
    ensures |s| == 8
  {
    BitsOf(b, 8)
  }

  function MessageBits(message: seq<byte>): Bits {
    if message == [] then [] else ByteBits(message[0]) + MessageBits(message[1..])
  }

  /** The register as a number: its first coefficient is the lowest bit. */
  function Value(bits: Bits): nat {
    if bits == [] then 0 else (if bits[0] then 1 else 0) + 2 * Value(bits[1..])
  }

  /** The CRC of a message: the remainder of the message times x^32, its leading 32
      coefficients complemented, and the remainder complemented in turn. */
  function Crc(message: seq<byte>): nat {
    Value(Xor(Remainder(XorFront(MessageBits(message) + Zeros(32), Ones(32))), Ones(32)))
  }

  // ---- the register ----

  /** One turn of the bit loop: a shift towards the lowest bit, which cancels. */
  function Shift(r: Bits): (s: Bits)
    requires |r| == 32
    ensures |s| == 32
  {
    if r[0] then Xor(r[1..] + [false], Generator()) else r[1..] + [false]
  }

  lemma ShiftDivides(r: Bits, d: Bits)
    requires |r| == 32 && |d| >= 32
    ensures Remainder(XorFront([false] + d, r)) == Remainder(XorFront(d, Shift(r)))
  {
    var e := XorFront([false] + d, r);
    assert e[1..] == XorFront(d, r[1..] + [false]);
    if r[0] { assert XorFront(e[1..], Generator()) == XorFront(d, Shift(r)); }
  }

  function Shifts(r: Bits, n: nat): (s: Bits)
    requires |r| == 32
    ensures |s| == 32
    decreases n
  {
    if n == 0 then r else Shifts(Shift(r), n - 1)
  }

  lemma {:induction false} ShiftsDivide(r: Bits, d: Bits, n: nat)
    requires |r| == 32 && |d| >= 32
    ensures Remainder(XorFront(Zeros(n) + d, r)) == Remainder(XorFront(d, Shifts(r, n)))
    decreases n
  {
    if n == 0 {
      assert Zeros(0) + d == d;
    } else {
      assert Zeros(n) + d == [false] + (Zeros(n - 1) + d);
      ShiftDivides(r, Zeros(n - 1) + d);
      ShiftsDivide(Shift(r), d, n - 1);
    }
  }

  /** Taking a byte into the register and shifting it out divides by eight coefficients more. */
  lemma ByteDivides(r: Bits, b: byte, d: Bits)
    requires |r| == 32 && |d| >= 32
    ensures Remainder(XorFront(ByteBits(b) + d, r)) == Remainder(XorFront(d, Shifts(Xor(r, ByteBits(b) + Zeros(24)), 8)))
  {
    var taken := Xor(r, ByteBits(b) + Zeros(24));
    assert XorFront(ByteBits(b) + d, r) == XorFront(Zeros(8) + d, taken);
    ShiftsDivide(taken, d, 8);
  }

  /** The bit loop. */
  method ShiftEight(register0: Bits) returns (register: Bits)
    requires |register0| == 32
    ensures register == Shifts(register0, 8)
  {
    register := register0;
    for bit := 0 to 8
      invariant |register| == 32 && Shifts(register0, 8) == Shifts(register, 8 - bit)
    {
      register := Shift(register);
    }
  }

  /** What is left of the dividend after `i` bytes. */
  ghost function Left(content: seq<byte>, i: nat): (d: Bits)
    requires i <= |content|
    ensures |d| >= 32
  {
    MessageBits(content[i..]) + Zeros(32)
  }

  lemma LeftStep(content: seq<byte>, i: nat)
    requires i < |content|
    ensures Left(content, i) == ByteBits(content[i]) + Left(content, i + 1)
  {
    assert content[i..][1..] == content[i + 1..];
  }

  /** `crc32`: the register starts full, takes byte after byte, and is complemented. */
  method Checksum(content: seq<byte>) returns (crc: nat)
    ensures crc == Crc(content)
  {
    var register := Ones(32);
    assert content[0..] == content;
    for i := 0 to |content|
      invariant |register| == 32
      invariant Remainder(XorFront(Left(content, 0), Ones(32))) == Remainder(XorFront(Left(content, i), register))
    {
      LeftStep(content, i);
      ByteDivides(register, content[i], Left(content, i + 1));
      register := ShiftEight(Xor(register, ByteBits(content[i]) + Zeros(24)));
    }
    assert XorFront(Left(content, |content|), register) == register;
    return Value(Xor(register, Ones(32)));
  }

  function NibbleBits(k: nat): (s: Bits)
    ensures |s| == 4
  {
    [k % 2 == 1, k / 2 % 2 == 1, k / 4 % 2 == 1, k / 8 % 2 == 1]
  }

  lemma Nibble(v: nat, w: nat, k: nat, n: nat, m: nat)
    requires k < 16 && v == 16 * w + k && n == m + 4
    ensures BitsOf(v, n) == NibbleBits(k) + BitsOf(w, m)
  {
    assert BitsOf(v, n) == [v % 2 == 1] + BitsOf(v / 2, n - 1);
    assert BitsOf(v / 2, n - 1) == [v / 2 % 2 == 1] + BitsOf(v / 2 / 2, n - 2);
    assert BitsOf(v / 2 / 2, n - 2) == [v / 2 / 2 % 2 == 1] + BitsOf(v / 2 / 2 / 2, n - 3);
    assert BitsOf(v / 2 / 2 / 2, n - 3) == [v / 2 / 2 / 2 % 2 == 1] + BitsOf(v / 2 / 2 / 2 / 2, n - 4);
    assert v / 2 / 2 / 2 / 2 == w && v / 2 / 2 / 2 == 2 * w + k / 8 && v / 2 / 2 == 4 * w + k / 4 && v / 2 == 8 * w + k / 2;
  }

  /** The constant of the program lists the coefficients of the generator. */
  lemma GeneratorConstant(v: nat, n: nat)
    requires v == 0xEDB8_8320 && n == 32
    ensures BitsOf(v, n) == Generator()
  {
    var g := Generator();
    assert g[0..4] == NibbleBits(0);
    assert g[4..8] == NibbleBits(2);
    assert g[8..12] == NibbleBits(3);
    assert g[12..16] == NibbleBits(8);
    assert g[16..20] == NibbleBits(8);
    assert g[20..24] == NibbleBits(11);
    assert g[24..28] == NibbleBits(13);
    assert g[28..32] == NibbleBits(14);
    LowNibbles(v, n);
    HighNibbles(v / 0x1_0000, n - 16);
    var low := g[0..4] + (g[4..8] + (g[8..12] + g[12..16]));
    var high := g[16..20] + (g[20..24] + (g[24..28] + g[28..32]));
    assert g == low + high;
    assert BitsOf(v, n) == low + high;
  }

  lemma LowNibbles(v: nat, n: nat)
    requires v == 0xEDB8_8320 && n == 32
    ensures BitsOf(v, n) == NibbleBits(0) + (NibbleBits(2) + (NibbleBits(3) + NibbleBits(8))) + BitsOf(v / 0x1_0000, n - 16)
  {
    FourNibbles(v, v / 0x10, v / 0x100, v / 0x1000, v / 0x1_0000, 0, 2, 3, 8, n);
  }

  lemma FourNibbles(v: nat, a: nat, b: nat, c: nat, d: nat, h: nat, i: nat, j: nat, k: nat, n: nat)
    requires n >= 16 && h < 16 && i < 16 && j < 16 && k < 16
    requires v == 16 * a + h && a == 16 * b + i && b == 16 * c + j && c == 16 * d + k
    ensures BitsOf(v, n) == NibbleBits(h) + (NibbleBits(i) + (NibbleBits(j) + NibbleBits(k))) + BitsOf(d, n - 16)
  {
    var n1, n2, n3, n4 := n - 4, n - 8, n - 12, n - 16;
    var x0, x1, x2, x3, x4 := BitsOf(v, n), BitsOf(a, n1), BitsOf(b, n2), BitsOf(c, n3), BitsOf(d, n4);
    assert x0 == NibbleBits(h) + x1 by { Nibble(v, a, h, n, n1); }
    assert x1 == NibbleBits(i) + x2 by { Nibble(a, b, i, n1, n2); }
    assert x2 == NibbleBits(j) + x3 by { Nibble(b, c, j, n2, n3); }
    assert x3 == NibbleBits(k) + x4 by { Nibble(c, d, k, n3, n4); }
    Chain(x0, x1, x2, x3, x4, NibbleBits(h), NibbleBits(i), NibbleBits(j), NibbleBits(k));
  }

  lemma HighNibbles(v: nat, n: nat)
    requires v == 0xEDB8 && n == 16
    ensures BitsOf(v, n) == NibbleBits(8) + (NibbleBits(0xB) + (NibbleBits(0xD) + NibbleBits(0xE)))
  {
    FourNibbles(v, v / 0x10, v / 0x100, v / 0x1000, 0, 8, 0xB, 0xD, 0xE, n);
    assert BitsOf(0, n - 16) == [];
  }

  lemma Chain(x0: Bits, x1: Bits, x2: Bits, x3: Bits, x4: Bits, p: Bits, q: Bits, r: Bits, t: Bits)
    requires x0 == p + x1 && x1 == q + x2 && x2 == r + x3 && x3 == t + x4
    ensures x0 == p + (q + (r + t)) + x4
  {
  }
}
