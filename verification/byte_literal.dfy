/** The binary byte literal of the byte tests and the byte operations they
    pin down. A literal is a string of '0'/'1' digits with `'` separators;
    each digit is added to an 8-bit accumulator by a base-2 `add_ascii`,
    which fails on a non-digit or when the accumulator would exceed 255. */
module ByteLiteral {
  import opened Wrappers
  import opened Octets

  datatype LiteralError = InvalidCharacterOrOverflow | NotEightDigits

  predicate IsDigit(c: char) {
    c == '0' || c == '1'
  }

  function DigitValue(c: char): (d: nat)
    requires IsDigit(c)
    ensures d < 2
  {
    if c == '1' then 1 else 0
  }

  predicate AllDigits(ds: string) {
    forall i :: 0 <= i < |ds| ==> IsDigit(ds[i])
  }

  /** Only digits and separators. */
  predicate AllBinary(s: string) {
    forall i :: 0 <= i < |s| ==> s[i] == '\'' || IsDigit(s[i])
  }

  /** The characters of a literal other than separators. */
  function Digits(s: string): (r: string)
    ensures |r| <= |s|
    ensures AllBinary(s) ==> AllDigits(r)
  {
    if |s| == 0 then []
    else Digits(s[..|s| - 1]) + (if s[|s| - 1] == '\'' then [] else [s[|s| - 1]])
  }

  function Binary(ds: string): (v: nat)
    requires AllDigits(ds)
    ensures v < Pow2(|ds|)
  {
    if |ds| == 0 then 0 else 2 * Binary(ds[..|ds| - 1]) + DigitValue(ds[|ds| - 1])
  }

  /** The literals accepted: only digits and separators, and exactly eight
      digits. */
  predicate WellFormed(s: string) {
    AllBinary(s) && |Digits(s)| == 8
  }

  /** `operator"" _b`. */
  method Literal(s: string) returns (r: Result<Byte, LiteralError>)
    ensures r.Success? <==> WellFormed(s)
    ensures r.Success? ==> r.value as nat == Binary(Digits(s))
    ensures r.Failure? && AllBinary(s) && |Digits(s)| < 8 ==> r.error == NotEightDigits
  {
    var consumed := 0;
    var result: nat := 0;
    var i := 0;
    while i < |s|
      invariant i <= |s|
      invariant AllBinary(s[..i])
      invariant consumed == |Digits(s[..i])|
      invariant result == Binary(Digits(s[..i])) && result < 256
    {
      if s[i] != '\'' {
        if !IsDigit(s[i]) {
          NonDigitRejected(s, i);
          return Failure(InvalidCharacterOrOverflow);
        }
        DigitStep(s, i);
        if 2 * result + DigitValue(s[i]) > 255 {
          OverflowRejected(s, i + 1);
          return Failure(InvalidCharacterOrOverflow);
        }
        result := 2 * result + DigitValue(s[i]);
        consumed := consumed + 1;
      } else {
        SeparatorStep(s, i);
      }
      i := i + 1;
    }
    assert s[..i] == s;
    if consumed != 8 {
      return Failure(NotEightDigits);
    }
    ByteRoundTrip(result);
    return Success(result as Byte);
  }

  lemma NonDigitRejected(s: string, i: nat)
    requires i < |s| && s[i] != '\'' && !IsDigit(s[i])
    ensures !AllBinary(s)
  {
  }

  /** A digit extends the digits read so far and doubles their value. */
  lemma DigitStep(s: string, i: nat)
    requires i < |s| && IsDigit(s[i]) && AllBinary(s[..i])
    ensures AllBinary(s[..i + 1])
    ensures Digits(s[..i + 1]) == Digits(s[..i]) + [s[i]]
    ensures Binary(Digits(s[..i + 1])) == 2 * Binary(Digits(s[..i])) + DigitValue(s[i])
  {
    assert s[..i + 1][..i] == s[..i];
    var ds := Digits(s[..i]);
    assert (ds + [s[i]])[..|ds|] == ds;
  }

  lemma SeparatorStep(s: string, i: nat)
    requires i < |s| && s[i] == '\'' && AllBinary(s[..i])
    ensures AllBinary(s[..i + 1])
    ensures Digits(s[..i + 1]) == Digits(s[..i])
  {
    assert s[..i + 1][..i] == s[..i];
  }

  /** Once the digits of a prefix exceed 255 there are more than eight of
      them, so the literal is not well formed. */
  lemma OverflowRejected(s: string, i: nat)
    requires i <= |s| && AllBinary(s[..i]) && Binary(Digits(s[..i])) > 255
    ensures |Digits(s)| > 8
  {
    DigitsPrefix(s, i);
    Pow2Small(|Digits(s[..i])|);
  }

  lemma {:induction false} Pow2Small(n: nat)
    requires Pow2(n) > 256
    ensures n > 8
  {
    if n > 0 && n <= 8 {
      Pow2Monotone(n, 8);
    }
  }

  lemma {:induction false} Pow2Monotone(a: nat, b: nat)
    requires a <= b
    ensures Pow2(a) <= Pow2(b)
    decreases b
  {
    if a < b {
      Pow2Monotone(a, b - 1);
    }
  }

  lemma {:induction false} DigitsPrefix(s: string, i: nat)
    requires i <= |s|
    ensures |Digits(s[..i])| <= |Digits(s)|
    decreases |s|
  {
    if i < |s| {
      assert s[..|s| - 1][..i] == s[..i];
      DigitsPrefix(s[..|s| - 1], i);
    } else {
      assert s[..i] == s;
    }
  }

  lemma {:induction false} DigitsAppend(x: string, y: string)
    ensures Digits(x + y) == Digits(x) + Digits(y)
    decreases |y|
  {
    if |y| == 0 {
      assert x + y == x;
    } else {
      assert (x + y)[..|x + y| - 1] == x + y[..|y| - 1];
      DigitsAppend(x, y[..|y| - 1]);
    }
  }

  lemma {:induction false} DigitsWithoutSeparators(x: string)
    requires AllDigits(x)
    ensures Digits(x) == x
    decreases |x|
  {
    if |x| > 0 {
      DigitsWithoutSeparators(x[..|x| - 1]);
      assert x == x[..|x| - 1] + [x[|x| - 1]];
    }
  }

  lemma {:induction false} BinaryAppend(x: string, y: string)
    requires AllDigits(x)
    requires AllDigits(y)
    ensures AllDigits(x + y)
    ensures Binary(x + y) == Binary(x) * Pow2(|y|) + Binary(y)
    decreases |y|
  {
    assert AllDigits(x + y) by {
      forall i | 0 <= i < |x + y|
        ensures IsDigit((x + y)[i])
      {
        if i < |x| { assert (x + y)[i] == x[i]; } else { assert (x + y)[i] == y[i - |x|]; }
      }
    }
    if |y| == 0 {
      assert x + y == x;
    } else {
      var y' := y[..|y| - 1];
      var d := DigitValue(y[|y| - 1]);
      assert (x + y)[..|x + y| - 1] == x + y';
      BinaryAppend(x, y');
      calc {
        Binary(x + y);
        2 * Binary(x + y') + d;
        2 * (Binary(x) * Pow2(|y'|) + Binary(y')) + d;
        { MulAssoc(Binary(x), Pow2(|y'|)); }
        Binary(x) * Pow2(|y|) + (2 * Binary(y') + d);
        Binary(x) * Pow2(|y|) + Binary(y);
      }
    }
  }

  lemma MulAssoc(a: nat, b: nat)
    ensures 2 * (a * b) == a * (2 * b)
  {
  }

  /** The value of four digits. */
  function Nibble(x: string): (v: nat)
    requires |x| == 4 && forall i :: 0 <= i < 4 ==> IsDigit(x[i])
  {
    8 * DigitValue(x[0]) + 4 * DigitValue(x[1]) + 2 * DigitValue(x[2]) + DigitValue(x[3])
  }

  lemma BinaryOfNibble(x: string)
    requires |x| == 4 && forall i :: 0 <= i < 4 ==> IsDigit(x[i])
    ensures Binary(x) == Nibble(x)
  {
    assert x[..3][..2] == x[..2] && x[..2][..1] == x[..1] && x[..1][..0] == [];
    assert Binary(x[..1]) == DigitValue(x[0]);
    assert Binary(x[..2]) == 2 * DigitValue(x[0]) + DigitValue(x[1]);
    assert Binary(x[..3]) == 4 * DigitValue(x[0]) + 2 * DigitValue(x[1]) + DigitValue(x[2]);
  }

  lemma SeparatorHasNoDigits()
    ensures Digits("'") == []
  {
    assert "'"[..0] == [];
  }

  lemma GroupedIsBinary(hi: string, lo: string)
    requires AllDigits(hi)
    requires AllDigits(lo)
    ensures AllBinary(hi + "'" + lo)
  {
    var s := hi + "'" + lo;
    forall i | 0 <= i < |s|
      ensures s[i] == '\'' || IsDigit(s[i])
    {
      if i < |hi| { assert s[i] == hi[i]; } else if i > |hi| { assert s[i] == lo[i - |hi| - 1]; }
    }
  }

  lemma DigitsOfGrouped(hi: string, lo: string)
    requires AllDigits(hi)
    requires AllDigits(lo)
    ensures Digits(hi + "'" + lo) == hi + lo
  {
    DigitsAppend(hi + "'", lo);
    DigitsAppend(hi, "'");
    SeparatorHasNoDigits();
    DigitsWithoutSeparators(hi);
    DigitsWithoutSeparators(lo);
    assert Digits(hi + "'") == hi;
  }

  /** A literal written as two groups of four digits, as in the tests,
      is accepted with the value of its eight digits. */
  lemma GroupedLiteral(hi: string, lo: string)
    requires |hi| == 4 && forall i :: 0 <= i < 4 ==> IsDigit(hi[i])
    requires |lo| == 4 && forall i :: 0 <= i < 4 ==> IsDigit(lo[i])
    ensures WellFormed(hi + "'" + lo)
    ensures Binary(Digits(hi + "'" + lo)) == 16 * Nibble(hi) + Nibble(lo)
  {
    GroupedIsBinary(hi, lo);
    DigitsOfGrouped(hi, lo);
    BinaryAppend(hi, lo);
    BinaryOfNibble(hi);
    BinaryOfNibble(lo);
    assert Pow2(4) == 16;
  }

  /** The literals of the tests. */
  lemma TestLiterals()
    ensures WellFormed("0001'1100") && Binary(Digits("0001'1100")) == 0x1C
    ensures WellFormed("1000'0001") && Binary(Digits("1000'0001")) == 0x81
    ensures WellFormed("0110'1001") && Binary(Digits("0110'1001")) == 0x69
  {
    TestLiteral("0001", "1100");
    TestLiteral("1000", "0001");
    TestLiteral("0110", "1001");
  }

  lemma TestLiteral(hi: string, lo: string)
    requires |hi| == 4 && forall i :: 0 <= i < 4 ==> IsDigit(hi[i])
    requires |lo| == 4 && forall i :: 0 <= i < 4 ==> IsDigit(lo[i])
    ensures var s := [hi[0], hi[1], hi[2], hi[3], '\'', lo[0], lo[1], lo[2], lo[3]];
      WellFormed(s) && Binary(Digits(s)) == 16 * Nibble(hi) + Nibble(lo)
  {
    GroupedLiteral(hi, lo);
    assert hi + "'" + lo == [hi[0], hi[1], hi[2], hi[3], '\'', lo[0], lo[1], lo[2], lo[3]];
  }

  // -- byte operations ---------------------------------------------------------

  /** Bit `k` of `b`. */
  predicate Bit(b: Byte, k: nat)
    requires k < 8
  {
    (b >> k) & 1 == 1
  }

  /** Shifting left moves bit `k - n` to bit `k` and drops what passes bit
      7; shifting right fills with zeros from the top. */
  lemma ShiftLeftMovesBits(b: Byte, n: nat, k: nat)
    requires n < 8 && k < 8
    ensures Bit(b << n, k) <==> k >= n && Bit(b, k - n)
  {
    if n == 0 {} else if n == 1 {} else if n == 2 {} else if n == 3 {}
    else if n == 4 {} else if n == 5 {} else if n == 6 {} else {}
  }

  lemma ShiftRightMovesBits(b: Byte, n: nat, k: nat)
    requires n < 8 && k < 8
    ensures Bit(b >> n, k) <==> k + n < 8 && Bit(b, k + n)
  {
    if n == 0 {} else if n == 1 {} else if n == 2 {} else if n == 3 {}
    else if n == 4 {} else if n == 5 {} else if n == 6 {} else {}
  }

  /** `|`, `&`, `^` and `~` act bit by bit. */
  lemma OrIsBitwise(a: Byte, b: Byte, k: nat)
    requires k < 8
    ensures Bit(a | b, k) <==> Bit(a, k) || Bit(b, k)
  {
    if k == 0 {} else if k == 1 {} else if k == 2 {} else if k == 3 {}
    else if k == 4 {} else if k == 5 {} else if k == 6 {} else {}
  }

  lemma AndIsBitwise(a: Byte, b: Byte, k: nat)
    requires k < 8
    ensures Bit(a & b, k) <==> Bit(a, k) && Bit(b, k)
  {
    assert a & b == !(!a | !b);
    NotIsBitwise(!a | !b, k);
    OrIsBitwise(!a, !b, k);
    NotIsBitwise(a, k);
    NotIsBitwise(b, k);
  }

  lemma XorIsBitwise(a: Byte, b: Byte, k: nat)
    requires k < 8
    ensures Bit(a ^ b, k) <==> Bit(a, k) != Bit(b, k)
  {
    assert (a ^ b) >> k == (a >> k) ^ (b >> k);
  }

  lemma NotIsBitwise(a: Byte, k: nat)
    requires k < 8
    ensures Bit(!a, k) <==> !Bit(a, k)
  {
    if k == 0 {} else if k == 1 {} else if k == 2 {} else if k == 3 {}
    else if k == 4 {} else if k == 5 {} else if k == 6 {} else {}
  }

  /** The results the tests assert. */
  lemma TestResults()
    ensures (0x01 as Byte) << 1 == 0x02 && (0x02 as Byte) << 6 == 0x80 && (0x02 as Byte) << 7 == 0
    ensures (0x40 as Byte) >> 1 == 0x20 && (0x40 as Byte) >> 6 == 0x01 && (0x40 as Byte) >> 7 == 0
    ensures (0x1E as Byte) | 0x78 == 0x7E && (0x1E as Byte) & 0x78 == 0x18 && (0x1E as Byte) ^ 0x78 == 0x66
    ensures !(0x7E as Byte) == 0x81
  {
  }
}
