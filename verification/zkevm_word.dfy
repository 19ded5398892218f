/** The 256-bit EVM word of the assigner, fixed by what its tests assert:
    a number below 2^256, built from and stored back to big-endian byte
    strings, made of four 64-bit limbs (limb 0 the least significant), and
    split into two 128-bit halves. Also the tests' `bytes_to_string`
    helper, compared against the hexadecimal form of the word. */
module ZkevmWord {
  import opened Octets

  const LimbBase: nat := 0x1_0000_0000_0000_0000
  const HalfBase: nat := 0x1_0000_0000_0000_0000_0000_0000_0000_0000
  const TopBase: nat := 0x1_0000_0000_0000_0000_0000_0000_0000_0000_0000_0000_0000_0000
  const WordBound: nat := 0x1_0000_0000_0000_0000_0000_0000_0000_0000_0000_0000_0000_0000_0000_0000_0000_0000

  type Word = v: nat | v < WordBound

  /** The four limbs, least significant first: repeated division by 2^64. */
  function Limbs(w: Word): (l: seq<nat>)
    ensures |l| == 4 && forall i :: 0 <= i < 4 ==> l[i] < LimbBase
  {
    var w1 := w / LimbBase;
    var w2 := w1 / LimbBase;
    [w % LimbBase, w1 % LimbBase, w2 % LimbBase, w2 / LimbBase]
  }

  predicate ValidLimbs(l: seq<nat>) {
    |l| == 4 && forall i :: 0 <= i < 4 ==> l[i] < LimbBase
  }

  function FromLimbs(l: seq<nat>): (w: Word)
    requires ValidLimbs(l)
  {
    l[0] + LimbBase * (l[1] + LimbBase * (l[2] + LimbBase * l[3]))
  }

  lemma LimbsRoundTrip(l: seq<nat>)
    requires ValidLimbs(l)
    ensures Limbs(FromLimbs(l)) == l
  {
    var w := FromLimbs(l);
    var w2 := l[2] + LimbBase * l[3];
    var w1 := l[1] + LimbBase * w2;
    assert w == l[0] + LimbBase * w1;
    assert w / LimbBase == w1 && w % LimbBase == l[0];
    assert w1 / LimbBase == w2 && w1 % LimbBase == l[1];
    assert w2 / LimbBase == l[3] && w2 % LimbBase == l[2];
  }

  lemma FromLimbsRoundTrip(w: Word)
    ensures FromLimbs(Limbs(w)) == w
  {
    var w1 := w / LimbBase;
    var w2 := w1 / LimbBase;
    assert w == LimbBase * w1 + w % LimbBase;
    assert w1 == LimbBase * w2 + w1 % LimbBase;
    assert w2 == LimbBase * (w2 / LimbBase) + w2 % LimbBase;
  }

  /** `set_val(v, i)`: limb `i` becomes `v`, the others stay. */
  function SetVal(w: Word, v: nat, i: nat): (r: Word)
    requires v < LimbBase && i < 4
    ensures Limbs(r) == Limbs(w)[i := v]
  {
    var l := Limbs(w)[i := v];
    LimbsRoundTrip(l);
    FromLimbs(l)
  }

  /** `load_partial_data(data, n, i)`: limb `i` becomes the big-endian
      value of the `n <= 8` bytes. */
  function LoadPartialData(w: Word, data: seq<Byte>, i: nat): (r: Word)
    requires |data| <= 8 && i < 4
    ensures Limbs(r) == Limbs(w)[i := FromBigEndian(data)]
  {
    FromBigEndianBound(data);
    Pow256Monotone(|data|, 8);
    SetVal(w, FromBigEndian(data), i)
  }

  lemma {:induction false} Pow256Monotone(a: nat, b: nat)
    requires a <= b
    ensures Pow256(a) <= Pow256(b)
    decreases b
  {
    if a < b {
      Pow256Monotone(a, b - 1);
    }
  }

  lemma Pow256Eight()
    ensures Pow256(8) == LimbBase
  {
  }

  /** The `set_val` test: setting the four limbs of zero gives their
      positional sum. */
  lemma SetValPlacesLimbs(v0: nat, v1: nat, v2: nat, v3: nat)
    requires v0 < LimbBase && v1 < LimbBase && v2 < LimbBase && v3 < LimbBase
    ensures SetVal(SetVal(SetVal(SetVal(0, v0, 0), v1, 1), v2, 2), v3, 3)
         == v0 + LimbBase * v1 + LimbBase * LimbBase * v2 + LimbBase * LimbBase * LimbBase * v3
  {
    var w := SetVal(SetVal(SetVal(SetVal(0, v0, 0), v1, 1), v2, 2), v3, 3);
    assert Limbs(w) == [v0, v1, v2, v3];
    FromLimbsRoundTrip(w);
  }

  // -- byte conversions -------------------------------------------------------

  /** The word of a big-endian byte string of at most 32 bytes: an
      `evmc::uint256be`, an `evmc::address` (20 bytes), an
      `ethash::hash256`, or raw bytes. */
  function FromBytes(data: seq<Byte>): (w: Word)
    requires |data| <= 32
    ensures w == FromBigEndian(data)
  {
    FromBigEndianBound(data);
    Pow256Monotone(|data|, 32);
    Pow256ThirtyTwo();
    FromBigEndian(data)
  }

  lemma Pow256ThirtyTwo()
    ensures Pow256(32) == WordBound
  {
    Pow256Eight();
    Pow256Add(8, 8);
    assert Pow256(16) == HalfBase;
    Pow256Add(16, 16);
  }

  lemma {:induction false} Pow256Add(a: nat, b: nat)
    ensures Pow256(a + b) == Pow256(a) * Pow256(b)
    decreases b
  {
    if b > 0 {
      Pow256Add(a, b - 1);
      MulShift(Pow256(a), Pow256(b - 1));
    }
  }

  /** `to_uint256be`, `to_hash` (32 bytes), `to_address` (20 bytes) and
      `store<T>` (`sizeof(T)` bytes): the low `n` bytes of the word,
      big-endian. */
  function ToBytes(w: Word, n: nat): (r: seq<Byte>)
    requires n <= 32
    ensures |r| == n
  {
    BigEndian(w, n)
  }

  /** Every byte string of at most 32 bytes survives the trip through a
      word: 32 for a `uint256be` or a hash, 20 for an address, 4 for a
      stored `uint32_t`. */
  lemma BytesRoundTrip(data: seq<Byte>)
    requires |data| <= 32
    ensures ToBytes(FromBytes(data), |data|) == data
  {
    FromBigEndianRoundTrip(data);
  }

  /** A `uint64_t` becomes a word of the same value and comes back
      unchanged. */
  function FromUint64(n: nat): (w: Word)
    requires n < LimbBase
    ensures w == n
  {
    n
  }

  function ToUint64(w: Word): (n: nat)
    ensures n < LimbBase
  {
    w % LimbBase
  }

  lemma Uint64RoundTrip(n: nat)
    requires n < LimbBase
    ensures Limbs(FromUint64(n)) == [n, 0, 0, 0]
    ensures ToUint64(FromUint64(n)) == n
  {
    assert n / LimbBase == 0;
  }

  /** The `load_partial_zkevm_word` test: the top two bytes of a 26-byte
      string go into limb 3, then each full 8-byte word into limbs 2, 1, 0,
      and the word is the big-endian value of all 26 bytes. */
  lemma LoadPartialWords(data: seq<Byte>)
    requires |data| == 26
    ensures LoadPartialData(LoadPartialData(LoadPartialData(LoadPartialData(0, data[..2], 3), data[2..10], 2), data[10..18], 1), data[18..], 0)
         == FromBigEndian(data)
  {
    var w := LoadPartialData(LoadPartialData(LoadPartialData(LoadPartialData(0, data[..2], 3), data[2..10], 2), data[10..18], 1), data[18..], 0);
    var l := [FromBigEndian(data[18..]), FromBigEndian(data[10..18]), FromBigEndian(data[2..10]), FromBigEndian(data[..2])];
    assert Limbs(w) == l;
    FromLimbsRoundTrip(w);
    assert w == FromLimbs(l);
    ChunksCompose(data);
  }

  /** The big-endian value of 26 bytes, read as a 2-byte top chunk and three
      8-byte chunks. */
  lemma ChunksCompose(data: seq<Byte>)
    requires |data| == 26
    ensures FromBigEndian(data)
         == FromBigEndian(data[18..]) + LimbBase * (FromBigEndian(data[10..18]) + LimbBase * (FromBigEndian(data[2..10]) + LimbBase * FromBigEndian(data[..2])))
  {
    Pow256Eight();
    FromBigEndianAppend(data[..2], data[2..10]);
    assert data[..2] + data[2..10] == data[..10];
    FromBigEndianAppend(data[..10], data[10..18]);
    assert data[..10] + data[10..18] == data[..18];
    FromBigEndianAppend(data[..18], data[18..]);
    assert data[..18] + data[18..] == data;
  }

  lemma {:induction false} FromBigEndianAppend(a: seq<Byte>, b: seq<Byte>)
    ensures FromBigEndian(a + b) == FromBigEndian(a) * Pow256(|b|) + FromBigEndian(b)
    decreases |b|
  {
    if |b| == 0 {
      assert a + b == a;
    } else {
      var b' := b[..|b| - 1];
      assert (a + b)[..|a + b| - 1] == a + b';
      FromBigEndianAppend(a, b');
      calc {
        FromBigEndian(a + b);
        FromBigEndian(a + b') * 256 + b[|b| - 1] as nat;
        (FromBigEndian(a) * Pow256(|b'|) + FromBigEndian(b')) * 256 + b[|b| - 1] as nat;
        { MulShift(FromBigEndian(a), Pow256(|b'|)); }
        FromBigEndian(a) * Pow256(|b|) + (FromBigEndian(b') * 256 + b[|b| - 1] as nat);
      }
    }
  }

  lemma MulShift(a: nat, p: nat)
    ensures a * p * 256 == a * (256 * p)
  {
  }

  // -- 128-bit halves -----------------------------------------------------------

  /** `w_hi()` and `w_lo()`. */
  function WHi(w: Word): (r: nat)
    ensures r < HalfBase
  {
    w / HalfBase
  }

  function WLo(w: Word): (r: nat)
    ensures r < HalfBase
  {
    w % HalfBase
  }

  /** `(hi << 128) + lo` splits back into `hi` and `lo`. */
  lemma HalvesRoundTrip(hi: nat, lo: nat)
    requires hi < HalfBase && lo < HalfBase
    ensures hi * HalfBase + lo < WordBound
    ensures WHi(hi * HalfBase + lo) == hi && WLo(hi * HalfBase + lo) == lo
  {
  }

  // -- hexadecimal text ---------------------------------------------------------

  predicate IsHexChar(c: char) {
    '0' <= c <= '9' || 'a' <= c <= 'f'
  }

  /** A lower-case hexadecimal digit, as `std::hex` and `intx::to_string(x, 16)`
      print it. */
  function HexChar(d: nat): (c: char)
    requires d < 16
    ensures IsHexChar(c)
  {
    if d < 10 then ('0' as int + d) as char else ('a' as int + d - 10) as char
  }

  function HexVal(c: char): (d: nat)
    requires IsHexChar(c)
    ensures d < 16 && HexChar(d) == c
    ensures d == 0 <==> c == '0'
  {
    if c <= '9' then (c as int - '0' as int) else (c as int - 'a' as int + 10)
  }

  predicate AllHex(s: string) {
    forall i :: 0 <= i < |s| ==> IsHexChar(s[i])
  }

  /** The number a string of hexadecimal digits denotes. */
  function HexValue(s: string): (v: nat)
    requires AllHex(s)
  {
    if |s| == 0 then 0 else HexValue(s[..|s| - 1]) * 16 + HexVal(s[|s| - 1])
  }

  /** `intx::to_string(n, 16)`: the digits of `n` without leading zeros,
      and "0" for zero. */
  function ToHex(n: nat): (s: string)
    ensures |s| > 0 && AllHex(s)
  {
    if n < 16 then [HexChar(n)] else ToHex(n / 16) + [HexChar(n % 16)]
  }

  /** The hexadecimal text denotes the number and has a leading zero only
      when it is "0". */
  lemma {:induction false} ToHexDenotes(n: nat)
    ensures HexValue(ToHex(n)) == n
    ensures ToHex(n)[0] == '0' <==> n == 0
  {
    if n >= 16 {
      ToHexDenotes(n / 16);
      var s := ToHex(n);
      assert s[..|s| - 1] == ToHex(n / 16);
      assert s[0] == ToHex(n / 16)[0];
    }
  }

  /** Two digits per byte, zero-filled: the `setw(2)`, `setfill('0')` loop. */
  function ByteHex(b: Byte): (s: string)
    ensures |s| == 2 && AllHex(s)
  {
    [HexChar(b as nat / 16), HexChar(b as nat % 16)]
  }

  function BytesHex(data: seq<Byte>): (s: string)
    ensures |s| == 2 * |data| && AllHex(s)
  {
    if |data| == 0 then "" else BytesHex(data[..|data| - 1]) + ByteHex(data[|data| - 1])
  }

  /** Erasing the first character while it is '0'. Reading the first
      character of an empty `std::string` gives its terminating NUL, so the
      loop stops there. */
  function CutZeros(s: string): (r: string)
    ensures |r| <= |s| && r == s[|s| - |r|..]
    ensures |r| > 0 ==> r[0] != '0'
    ensures forall i :: 0 <= i < |s| - |r| ==> s[i] == '0'
  {
    if |s| > 0 && s[0] == '0' then
      var r := CutZeros(s[1..]);
      assert forall i :: 1 <= i < |s| - |r| ==> s[i] == s[1..][i - 1];
      r
    else s
  }

  /** The test helper `bytes_to_string`. */
  function BytesToString(data: seq<Byte>): (s: string)
  {
    CutZeros(BytesHex(data))
  }

  lemma {:induction false} BytesHexDenotes(data: seq<Byte>)
    ensures HexValue(BytesHex(data)) == FromBigEndian(data)
  {
    if |data| > 0 {
      var front := data[..|data| - 1];
      var b := data[|data| - 1];
      var hi, lo := b as nat / 16, b as nat % 16;
      BytesHexDenotes(front);
      var s := BytesHex(data);
      var s1 := s[..|s| - 1];
      assert s1 == BytesHex(front) + [HexChar(hi)];
      assert s1[..|s1| - 1] == BytesHex(front);
      HexValOfChar(hi);
      HexValOfChar(lo);
      var x := HexValue(BytesHex(front));
      assert HexValue(s1) == x * 16 + hi;
      assert HexValue(s) == HexValue(s1) * 16 + lo;
      TwoDigits(x, hi, lo);
    }
  }

  lemma HexValOfChar(d: nat)
    requires d < 16
    ensures HexVal(HexChar(d)) == d
  {
  }

  lemma TwoDigits(x: nat, hi: nat, lo: nat)
    ensures (x * 16 + hi) * 16 + lo == x * 256 + (hi * 16 + lo)
  {
  }

  /** A leading '0' does not change the value. */
  lemma {:induction false} LeadingZero(t: string)
    requires AllHex(t)
    ensures HexValue("0" + t) == HexValue(t)
    decreases |t|
  {
    if |t| > 0 {
      var t' := t[..|t| - 1];
      assert ("0" + t)[..|t|] == "0" + t';
      LeadingZero(t');
    }
  }

  lemma {:induction false} CutZerosDenotes(s: string)
    requires AllHex(s)
    ensures AllHex(CutZeros(s)) && HexValue(CutZeros(s)) == HexValue(s)
    decreases |s|
  {
    CutZerosHex(s);
    if |s| > 0 && s[0] == '0' {
      CutZerosDenotes(s[1..]);
      assert s == "0" + s[1..];
      LeadingZero(s[1..]);
    }
  }

  lemma CutZerosHex(s: string)
    requires AllHex(s)
    ensures AllHex(CutZeros(s))
  {
    var r := CutZeros(s);
    assert forall i :: 0 <= i < |r| ==> r[i] == s[|s| - |r| + i];
  }

  lemma {:induction false} NoLeadingZeroPositive(s: string)
    requires AllHex(s) && |s| > 0 && s[0] != '0'
    ensures HexValue(s) > 0
    decreases |s|
  {
    if |s| > 1 {
      NoLeadingZeroPositive(s[..|s| - 1]);
    }
  }

  /** A hexadecimal string without a leading zero is the canonical text of
      its value. */
  lemma {:induction false} CanonicalHex(s: string)
    requires AllHex(s) && |s| > 0 && s[0] != '0'
    ensures ToHex(HexValue(s)) == s
    decreases |s|
  {
    if |s| > 1 {
      var s' := s[..|s| - 1];
      NoLeadingZeroPositive(s');
      CanonicalHex(s');
      var v := HexValue(s);
      assert v / 16 == HexValue(s') && v % 16 == HexVal(s[|s| - 1]);
      assert s == s' + [s[|s| - 1]];
    }
  }

  /** What the conversion tests compare: for a non-zero value the helper's
      text is exactly `intx::to_string(value, 16)`. For zero the helper
      erases every digit and gives the empty string, where `to_string`
      gives "0"; no test compares a zero word. */
  lemma BytesToStringIsHex(data: seq<Byte>)
    ensures FromBigEndian(data) > 0 ==> BytesToString(data) == ToHex(FromBigEndian(data))
    ensures FromBigEndian(data) == 0 ==> BytesToString(data) == ""
  {
    var s := BytesHex(data);
    BytesHexDenotes(data);
    CutZerosDenotes(s);
    var r := CutZeros(s);
    if |r| > 0 {
      NoLeadingZeroPositive(r);
      CanonicalHex(r);
    }
  }
}
