/** Bytes and fixed-width big-endian numbers. */
module Bytes {

  type byte = b: int | 0 <= b < 256

  /** Characters of ASCII as bytes. */
  function Ascii(s: string): (t: seq<byte>)
    ensures |t| == |s|
    ensures forall i :: 0 <= i < |s| && s[i] < 128 as char ==> t[i] == s[i] as int
  {
    seq(|s|, i requires 0 <= i < |s| => if s[i] < 128 as char then s[i] as int else 0)
  }

  function Pow256(k: nat): (p: nat)
    ensures p > 0
  {
    if k == 0 then 1 else 256 * Pow256(k - 1)
  }

  /** `n` as `k` bytes, most significant first. */
  function BigEndian(n: nat, k: nat): (s: seq<byte>)
    requires n < Pow256(k)
    ensures |s| == k
  {
    if k == 0 then [] else BigEndian(n / 256, k - 1) + [n % 256]
  }

  function FromBigEndian(s: seq<byte>): (n: nat)
    ensures n < Pow256(|s|)
  {
    if s == [] then 0 else 256 * FromBigEndian(s[..|s| - 1]) + s[|s| - 1]
  }

  lemma {:induction false} ReadsBack(n: nat, k: nat)
    requires n < Pow256(k)
    ensures FromBigEndian(BigEndian(n, k)) == n
  {
    if k > 0 {
      ReadsBack(n / 256, k - 1);
      var s := BigEndian(n, k);
      assert s[..|s| - 1] == BigEndian(n / 256, k - 1);
    }
  }

  lemma {:induction false} WritesBack(s: seq<byte>)
    ensures BigEndian(FromBigEndian(s), |s|) == s
  {
    if s != [] {
      WritesBack(s[..|s| - 1]);
      assert s == s[..|s| - 1] + [s[|s| - 1]];
    }
  }

  lemma Widths()
    ensures Pow256(1) == 0x100 && Pow256(2) == 0x1_0000 && Pow256(4) == 0x1_0000_0000
    ensures Pow256(8) == 0x1_0000_0000_0000_0000
  {
    assert Pow256(3) == 256 * Pow256(2);
    assert Pow256(5) == 256 * Pow256(4);
    assert Pow256(6) == 256 * Pow256(5);
    assert Pow256(7) == 256 * Pow256(6);
  }

  lemma TwoBytes(a: byte, b: byte)
    ensures FromBigEndian([a, b]) == 256 * a + b
    ensures BigEndian(256 * a + b, 2) == [a, b]
  {
    assert [a, b][..1] == [a];
    assert [a][..0] == [];
    Widths();
    WritesBack([a, b]);
  }
}
