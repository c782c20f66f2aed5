/**
 * Decimal text as the JavaScript and Python built-ins used by the system write and
 * read it: Number.prototype.toString on integers, String.prototype.padStart(2, '0'),
 * String.prototype.slice, and the value of a run of ASCII digits.
 */
module Digits {

  predicate IsDigit(c: char) {
    '0' <= c <= '9'
  }

  predicate AllDigits(s: string) {
    forall i :: 0 <= i < |s| ==> IsDigit(s[i])
  }

  function DigitValue(c: char): (d: int)
    requires IsDigit(c)
    ensures 0 <= d < 10
  {
    c as int - '0' as int
  }

  function DigitChar(d: int): (c: char)
    requires 0 <= d < 10
    ensures IsDigit(c) && DigitValue(c) == d
  {
    ('0' as int + d) as char
  }

  /** The number written by a run of decimal digits, most significant first. */
  function DecimalValue(s: string): (n: nat)
    requires AllDigits(s)
  {
    if s == [] then 0 else 10 * DecimalValue(s[..|s| - 1]) + DigitValue(s[|s| - 1])
  }

  /** Two adjacent digits read as one number in 0..99 (a `\d\d` group, or `int()` of it). */
  function TwoDigitValue(c1: char, c2: char): (n: int)
    requires IsDigit(c1) && IsDigit(c2)
    ensures 0 <= n < 100
  {
    10 * DigitValue(c1) + DigitValue(c2)
  }

  /** The two-digit reading agrees with the general decimal reading. */
  lemma TwoDigitValueIsDecimal(c1: char, c2: char)
    requires IsDigit(c1) && IsDigit(c2)
    ensures TwoDigitValue(c1, c2) == DecimalValue([c1, c2])
  {
    assert [c1][..0] == [] && DecimalValue([c1]) == DigitValue(c1);
    assert [c1, c2][..1] == [c1];
  }

  /** `n.toString()` for a non-negative integer: no leading zeros, at least one digit. */
  function NatToString(n: nat): (s: string)
    ensures 1 <= |s| && AllDigits(s)
    decreases n
  {
    if n < 10 then [DigitChar(n)] else NatToString(n / 10) + [DigitChar(n % 10)]
  }

  /** The text is one character long exactly for 0..9, and ends with the units digit. */
  lemma NatToStringLast(n: nat)
    ensures |NatToString(n)| == 1 <==> n < 10
    ensures NatToString(n)[|NatToString(n)| - 1] == DigitChar(n % 10)
  {
  }

  /** Reading back the text `toString` writes gives the number. */
  lemma {:induction false} NatToStringRoundTrip(n: nat)
    ensures DecimalValue(NatToString(n)) == n
    decreases n
  {
    var s := NatToString(n);
    if n >= 10 {
      NatToStringRoundTrip(n / 10);
      assert s[..|s| - 1] == NatToString(n / 10);
    }
  }

  /** `n.toString()` for any integer: a minus sign before the magnitude when negative. */
  function IntToString(n: int): (s: string)
    ensures n < 0 ==> |s| >= 2 && s[0] == '-'
  {
    if n < 0 then "-" + NatToString(-n) else NatToString(n)
  }

  /** `s.padStart(2, '0')`: zeros on the left up to length two; longer text is unchanged. */
  function PadStart2(s: string): (r: string)
    ensures |r| == if |s| >= 2 then |s| else 2
    ensures forall i :: 0 <= i < |s| ==> r[|r| - |s| + i] == s[i]
    ensures forall i :: 0 <= i < |r| - |s| ==> r[i] == '0'
  {
    if |s| >= 2 then s else if |s| == 1 then ['0'] + s else ['0', '0']
  }

  /** The `pad` helper of script.js: `num.toString().padStart(2, '0')`. */
  function Pad2(n: int): (r: string)
    ensures n >= 0 ==> |r| >= 2 && AllDigits(r)
    ensures 0 <= n < 100 ==> |r| == 2
  {
    assert 10 <= n < 100 ==> |NatToString(n / 10)| == 1;
    PadStart2(IntToString(n))
  }

  /** The two digits of a number in 0..99, tens first. */
  function DigitPair(n: int): (r: string)
    requires 0 <= n < 100
    ensures |r| == 2 && AllDigits(r) && TwoDigitValue(r[0], r[1]) == n
  {
    [DigitChar(n / 10), DigitChar(n % 10)]
  }

  /** Two digits are the pair written for their own value. */
  lemma DigitPairOfValue(c1: char, c2: char)
    requires IsDigit(c1) && IsDigit(c2)
    ensures DigitPair(TwoDigitValue(c1, c2)) == [c1, c2]
  {
  }

  /** For 0..99, `pad` writes exactly the number's two digits. */
  lemma Pad2TwoDigits(n: int)
    requires 0 <= n < 100
    ensures Pad2(n) == DigitPair(n)
  {
    if n >= 10 {
      var s := NatToString(n);
      assert s == NatToString(n / 10) + [DigitChar(n % 10)];
      assert NatToString(n / 10) == [DigitChar(n / 10)];
    }
  }

  /** JavaScript's index normalisation for `slice`: negative counts from the end, then clamp. */
  function SliceIndex(len: nat, k: int): (j: nat)
    ensures j <= len
    ensures 0 <= k <= len ==> j == k
    ensures k < 0 && len + k >= 0 ==> j == len + k
  {
    if k < 0 then (if len + k < 0 then 0 else len + k)
    else if k > len then len else k
  }

  /** `s.slice(begin, end)`: never fails; out-of-range bounds are clamped, crossed bounds give "". */
  function Slice(s: string, begin: int, end: int): (r: string)
    ensures 0 <= begin <= end <= |s| ==> r == s[begin..end]
    ensures |r| <= |s|
  {
    var b, e := SliceIndex(|s|, begin), SliceIndex(|s|, end);
    if b < e then s[b..e] else []
  }

  /** `s.slice(-2)`: the last two characters, or the whole text when it is shorter. */
  function SliceLast2(s: string): (r: string)
    ensures |s| >= 2 ==> r == s[|s| - 2..]
    ensures |s| < 2 ==> r == s
  {
    Slice(s, -2, |s|)
  }

  /** For a year of at least 10, `getFullYear().toString().slice(-2)` is the two digits of the year modulo 100. */
  lemma YearSuffixDigits(year: int)
    requires year >= 10
    ensures SliceLast2(IntToString(year)) == DigitPair(year % 100)
  {
    var s := NatToString(year);
    var p := NatToString(year / 10);
    assert s == p + [DigitChar(year % 10)];
    NatToStringLast(year / 10);
    assert s[|s| - 2..] == [p[|p| - 1], DigitChar(year % 10)];
    TensAndUnits(year);
  }

  /** The tens and units digits of a number are those of its remainder modulo 100. */
  lemma TensAndUnits(n: nat)
    ensures (n / 10) % 10 == (n % 100) / 10 && n % 10 == (n % 100) % 10
  {
    var q, r := n / 100, n % 100;
    assert n == 100 * q + r;
    assert n / 10 == 10 * q + r / 10;
    assert n % 10 == r % 10;
  }
}
