/** Bytes and big-endian byte strings. */
module Octets {

  type Byte = bv8

  /** `n` bytes holding `v mod 256^n`, most significant first. */
  function BigEndian(v: nat, n: nat): (r: seq<Byte>)
    ensures |r| == n
  {
    if n == 0 then [] else BigEndian(v / 256, n - 1) + [(v % 256) as Byte]
  }

  /** The number a big-endian byte string denotes. */
  function FromBigEndian(s: seq<Byte>): (v: nat)
  {
    if |s| == 0 then 0 else FromBigEndian(s[..|s| - 1]) * 256 + s[|s| - 1] as nat
  }

  function Pow2(n: nat): (r: nat)
    ensures r >= 1
  {
    if n == 0 then 1 else 2 * Pow2(n - 1)
  }

  function Pow256(n: nat): (r: nat)
    ensures r >= 1
  {
    if n == 0 then 1 else 256 * Pow256(n - 1)
  }

  lemma {:induction false} FromBigEndianBound(s: seq<Byte>)
    ensures FromBigEndian(s) < Pow256(|s|)
  {
    if |s| > 0 {
      FromBigEndianBound(s[..|s| - 1]);
    }
  }

  lemma DivMod256(v: nat, p: nat)
    requires v < 256 * p
    ensures v / 256 < p && (v / 256) * 256 + v % 256 == v
  {
  }

  lemma ByteOfMod(v: nat)
    ensures ((v % 256) as Byte) as nat == v % 256
  {
    ByteRoundTrip(v % 256);
  }

  lemma ByteRoundTrip(m: int)
    requires 0 <= m < 256
    ensures (m as Byte) as int == m
  {
    assert m as bv16 < 256;
  }

  /** Encoding a number that fits and reading it back gives the number;
      reading a string and encoding it back gives the string. */
  lemma {:induction false} BigEndianRoundTrip(v: nat, n: nat)
    requires v < Pow256(n)
    ensures FromBigEndian(BigEndian(v, n)) == v
  {
    if n > 0 {
      var r := BigEndian(v, n);
      var hi := BigEndian(v / 256, n - 1);
      assert r == hi + [(v % 256) as Byte];
      assert r[..n - 1] == hi;
      ByteOfMod(v);
      DivMod256(v, Pow256(n - 1));
      BigEndianRoundTrip(v / 256, n - 1);
    }
  }

  lemma {:induction false} FromBigEndianRoundTrip(s: seq<Byte>)
    ensures BigEndian(FromBigEndian(s), |s|) == s
  {
    if |s| > 0 {
      var init := s[..|s| - 1];
      FromBigEndianRoundTrip(init);
      var v := FromBigEndian(s);
      assert v / 256 == FromBigEndian(init);
      assert v % 256 == s[|s| - 1] as nat;
      assert s == init + [s[|s| - 1]];
    }
  }
}
