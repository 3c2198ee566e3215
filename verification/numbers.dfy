/** The program's fixed-width integers and the two conversions every report
    uses: `>> 20` from a byte count to megabytes, and `{}` formatting of an
    unsigned integer as decimal text. */
module Numbers {

  const TWO_TO_32: nat := 0x1_0000_0000
  const TWO_TO_64: nat := 0x1_0000_0000_0000_0000

  /** Rust's `u32` (process ids, temperature, utilization percentage). */
  type u32 = x: nat | x < TWO_TO_32

  /** Rust's `u64` (byte counts and megabyte counts). */
  type u64 = x: nat | x < TWO_TO_64

  function Pow2(k: nat): (r: nat)
    ensures r >= 1
  {
    if k == 0 then 1 else 2 * Pow2(k - 1)
  }

  lemma {:induction false} Pow2Add(a: nat, b: nat)
    ensures Pow2(a + b) == Pow2(a) * Pow2(b)
  {
    if a > 0 {
      Pow2Add(a - 1, b);
    }
  }

  lemma Pow2Of20()
    ensures Pow2(20) == 0x10_0000
  {
    assert Pow2(5) == 32;
    Pow2Add(5, 5);
    Pow2Add(10, 10);
  }

  /** `x >> k` on an unsigned integer: k single-bit shifts, each of which
      drops the lowest bit. */
  function ShiftRight(x: nat, k: nat): (r: nat)
    ensures r <= x
    ensures k == 0 ==> r == x
  {
    if k == 0 then x else ShiftRight(x / 2, k - 1)
  }

  /** A right shift by k bits is floor division by 2^k: the result times
      2^k is at most x, and one more than the result times 2^k exceeds x. */
  lemma {:induction false} ShiftRightIsFloorDiv(x: nat, k: nat)
    ensures ShiftRight(x, k) * Pow2(k) <= x < (ShiftRight(x, k) + 1) * Pow2(k)
  {
    if k > 0 {
      var y, p := x / 2, Pow2(k - 1);
      var s := ShiftRight(y, k - 1);
      ShiftRightIsFloorDiv(y, k - 1);
      assert ShiftRight(x, k) == s;
      assert Pow2(k) == 2 * p;
      DoubleFactor(s, p);
      DoubleFactor(s + 1, p);
    }
  }

  /** Kept apart so that the product it states stays out of the inductive
      step above. */
  lemma DoubleFactor(a: nat, b: nat)
    ensures a * (2 * b) == 2 * (a * b)
  {
  }

  /** `bytes >> 20`: the number of whole megabytes (of 2^20 = 0x10_0000
      bytes each) in a byte count. The
      result is the floor of bytes / 2^20, so it is never rounded up, every
      count below 2^20 maps to 0, and it never exceeds its input. */
  function BytesToMb(bytes: u64): (mb: u64)
    ensures mb * 0x10_0000 <= bytes < (mb + 1) * 0x10_0000
    ensures bytes < 0x10_0000 ==> mb == 0
    ensures mb <= bytes
  {
    bytes / 0x10_0000
  }

  /** The conversion is the program's shift: `bytes >> 20` computed bit by
      bit is the same number. */
  lemma BytesToMbIsShiftRight(bytes: u64)
    ensures BytesToMb(bytes) == ShiftRight(bytes, 20)
  {
    ShiftRightIsFloorDiv(bytes, 20);
    Pow2Of20();
    var s := ShiftRight(bytes, 20);
    assert s * 0x10_0000 <= bytes < (s + 1) * 0x10_0000;
  }

  /** The conversion preserves order, so used memory never converts to more
      megabytes than the total it is part of. */
  lemma BytesToMbMonotonic(a: u64, b: u64)
    requires a <= b
    ensures BytesToMb(a) <= BytesToMb(b)
  {
  }

  predicate IsDigit(c: char)
  {
    '0' <= c <= '9'
  }

  predicate IsDecimal(s: string)
  {
    forall i :: 0 <= i < |s| ==> IsDigit(s[i])
  }

  /** The text Rust's `{}` produces for an unsigned integer: at least one
      digit, and no leading zero unless the value is 0 itself. */
  predicate IsCanonicalDecimal(s: string)
  {
    |s| >= 1 && IsDecimal(s) && (s[0] == '0' ==> |s| == 1)
  }

  function DigitChar(d: nat): (c: char)
    requires d < 10
    ensures IsDigit(c)
  {
    ('0' as int + d) as char
  }

  function DigitValue(c: char): (d: nat)
    requires IsDigit(c)
    ensures d < 10 && DigitChar(d) == c
  {
    c as int - '0' as int
  }

  /** The value a string of decimal digits denotes (the reading direction,
      used to state what the formatter produces). */
  function DecimalValue(s: string): nat
    requires IsDecimal(s)
  {
    if s == [] then 0 else 10 * DecimalValue(s[..|s| - 1]) + DigitValue(s[|s| - 1])
  }

  /** `format!("{}", n)` for an unsigned integer: canonical decimal text that
      reads back as n. */
  function NatToString(n: nat): (s: string)
    ensures IsCanonicalDecimal(s)
    ensures DecimalValue(s) == n
  {
    if n < 10 then
      [DigitChar(n)]
    else
      var prefix := NatToString(n / 10);
      var s := prefix + [DigitChar(n % 10)];
      assert s[..|s| - 1] == prefix;
      s
  }

  /** A non-empty decimal string is worth at least its leading digit. */
  lemma {:induction false} DecimalValueAtLeastLead(s: string)
    requires |s| >= 1 && IsDecimal(s)
    ensures DecimalValue(s) >= DigitValue(s[0])
  {
    if |s| > 1 {
      DecimalValueAtLeastLead(s[..|s| - 1]);
    }
  }

  /** Formatting is onto the canonical decimal strings: formatting the value
      of such a string gives the string back. With the ensures of NatToString
      this makes the two directions inverse to each other. */
  lemma {:induction false} NatToStringOfDecimalValue(s: string)
    requires IsCanonicalDecimal(s)
    ensures NatToString(DecimalValue(s)) == s
  {
    var n := DecimalValue(s);
    if |s| > 1 {
      var prefix := s[..|s| - 1];
      assert IsCanonicalDecimal(prefix);
      DecimalValueAtLeastLead(prefix);
      assert DigitValue(prefix[0]) >= 1;
      NatToStringOfDecimalValue(prefix);
      assert n / 10 == DecimalValue(prefix) && n % 10 == DigitValue(s[|s| - 1]);
      assert s == prefix + [s[|s| - 1]];
    }
  }

  /** Two values format to the same text only if they are equal. */
  lemma NatToStringInjective(m: nat, n: nat)
    requires NatToString(m) == NatToString(n)
    ensures m == n
  {
    assert DecimalValue(NatToString(m)) == m;
  }
}
