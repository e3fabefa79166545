/** Decimal formatting and parsing of integers as Go's `fmt` (`%d`) and `strconv`
    (`Itoa`, `ParseInt(s, 10, 64)`, `Atoi` on a 64-bit platform) perform them. */
module Strconv {
  import opened Common

  const MaxInt64: int := 0x7FFF_FFFF_FFFF_FFFF
  const MinInt64: int := -0x8000_0000_0000_0000

  predicate IsInt64(n: int) { MinInt64 <= n <= MaxInt64 }

  predicate IsDigit(c: char) { '0' <= c <= '9' }

  predicate AllDigits(s: string) { forall i :: 0 <= i < |s| ==> IsDigit(s[i]) }

  function DigitChar(d: nat): (c: char)
    requires d < 10
    ensures IsDigit(c) && c as int - '0' as int == d
  {
    ('0' as int + d) as char
  }

  /** The decimal digits of `n`, most significant first, without leading zeros. */
  function FormatNat(n: nat): (s: string)
    ensures |s| > 0 && AllDigits(s)
  {
    if n < 10 then [DigitChar(n)] else FormatNat(n / 10) + [DigitChar(n % 10)]
  }

  /** `strconv.Itoa(n)` / `fmt.Sprintf("%d", n)`. */
  function FormatInt(n: int): (s: string)
    ensures |s| > 0
    ensures ':' !in s && ',' !in s
  {
    if n < 0 then "-" + FormatNat(-n) else FormatNat(n)
  }

  /** The value of a string of decimal digits. */
  function DigitsValue(s: string): nat
    requires AllDigits(s)
  {
    if s == [] then 0 else DigitsValue(s[..|s| - 1]) * 10 + (s[|s| - 1] as int - '0' as int)
  }

  const MaxUint64: int := 0xFFFF_FFFF_FFFF_FFFF

  /** The longest prefix of `s` made of decimal digits. */
  function DigitPrefix(s: string): (p: string)
    ensures AllDigits(p) && p <= s
    ensures p == s || !IsDigit(s[|p|])
  {
    if s == [] || !IsDigit(s[0]) then [] else [s[0]] + DigitPrefix(s[1..])
  }

  /** `strconv.ParseInt(s, 10, 64)`: an optional sign, then the digits are read
      left to right. The first time the value read so far exceeds 64 unsigned bits
      the scan stops with a range error, even if a non-digit follows; a non-digit
      reached before that, or no digits at all, is a syntax error with value 0. A
      value outside the signed 64-bit range is clamped to the nearest bound and
      reported as a range error. */
  function ParseInt(s: string): (r: (int, Option<Error>))
    ensures IsInt64(r.0)
  {
    if s == [] then (0, Some(ErrSyntax))
    else ParseDigits(s[0] == '-', if s[0] == '+' || s[0] == '-' then s[1..] else s)
  }

  /** `ParseInt` after the sign: `neg` says whether it was '-'. */
  function ParseDigits(neg: bool, digits: string): (r: (int, Option<Error>))
    ensures IsInt64(r.0)
  {
    var read := DigitPrefix(digits);
    if digits == [] then (0, Some(ErrSyntax))
    else if DigitsValue(read) > MaxUint64 then (if neg then MinInt64 else MaxInt64, Some(ErrRange))
    else if read != digits then (0, Some(ErrSyntax))
    else
      var un: int := DigitsValue(digits);
      if !neg && un > MaxInt64 then (MaxInt64, Some(ErrRange))
      else if neg && un > -MinInt64 then (MinInt64, Some(ErrRange))
      else (if neg then -un else un, None)
  }

  /** A string of digits is its own digit prefix. */
  lemma DigitPrefixAll(s: string)
    requires AllDigits(s)
    ensures DigitPrefix(s) == s
  {
  }

  /** The digit prefix of `d + rest` extends `d` when `d` is all digits. */
  lemma {:induction false} DigitPrefixExtends(d: string, rest: string)
    requires AllDigits(d)
    ensures d <= DigitPrefix(d + rest)
  {
    if d != [] {
      assert (d + rest)[0] == d[0] && (d + rest)[1..] == d[1..] + rest;
      DigitPrefixExtends(d[1..], rest);
    }
  }

  /** Reading more digits never lowers the value. */
  lemma {:induction false} DigitsValueGrows(p: string, q: string)
    requires AllDigits(q) && p <= q
    ensures DigitsValue(p) <= DigitsValue(q)
  {
    if |p| < |q| {
      assert q[..|q| - 1][..|p|] == p;
      DigitsValueGrows(p, q[..|q| - 1]);
    } else {
      assert p == q;
    }
  }

  /** The digit prefix of `d + [c] + rest` is `d` when `c` is not a digit. */
  lemma {:induction false} DigitPrefixStops(d: string, c: char, rest: string)
    requires AllDigits(d) && !IsDigit(c)
    ensures DigitPrefix(d + ([c] + rest)) == d
  {
    if d != [] {
      assert (d + ([c] + rest))[0] == d[0] && (d + ([c] + rest))[1..] == d[1..] + ([c] + rest);
      DigitPrefixStops(d[1..], c, rest);
    }
  }

  /** `ParseInt` on a sign followed by `digits`. */
  lemma ParseIntSigned(neg: bool, digits: string)
    requires neg || digits == [] || IsDigit(digits[0])
    ensures ParseInt((if neg then "-" else "") + digits) == (if neg || digits != [] then ParseDigits(neg, digits) else (0, Some(ErrSyntax)))
  {
    if neg {
      var s := "-" + digits;
      assert s[0] == '-' && s[1..] == digits;
    } else {
      assert "" + digits == digits;
    }
  }

  /** Digits worth more than 64 unsigned bits give a range error and the clamped
      bound, whatever follows them: the overflow is found before any later
      non-digit is read. */
  lemma ParseIntOverflowFirst(neg: bool, d: string, rest: string)
    requires d != [] && AllDigits(d) && DigitsValue(d) > MaxUint64
    ensures ParseInt((if neg then "-" else "") + d + rest) ==
      (if neg then MinInt64 else MaxInt64, Some(ErrRange))
  {
    assert (if neg then "-" else "") + d + rest == (if neg then "-" else "") + (d + rest);
    assert (d + rest)[0] == d[0];
    ParseIntSigned(neg, d + rest);
    DigitPrefixExtends(d, rest);
    DigitsValueGrows(d, DigitPrefix(d + rest));
  }

  /** A non-digit reached before any overflow is a syntax error with value 0. */
  lemma ParseIntSyntax(neg: bool, d: string, c: char, rest: string)
    requires AllDigits(d) && DigitsValue(d) <= MaxUint64 && !IsDigit(c)
    requires neg || (d != [] || (c != '+' && c != '-'))
    ensures ParseInt((if neg then "-" else "") + d + [c] + rest) == (0, Some(ErrSyntax))
  {
    assert (if neg then "-" else "") + d + [c] + rest == (if neg then "-" else "") + (d + ([c] + rest));
    DigitPrefixStops(d, c, rest);
    if neg || d != [] {
      ParseIntSigned(neg, d + ([c] + rest));
    } else {
      assert (if neg then "-" else "") + d + [c] + rest == [c] + rest;
    }
  }

  const ErrSyntax := Message("invalid syntax")
  const ErrRange := Message("value out of range")

  lemma {:induction false} DigitsValueOfFormat(n: nat)
    ensures DigitsValue(FormatNat(n)) == n
  {
    if n >= 10 {
      DigitsValueOfFormat(n / 10);
      var s := FormatNat(n);
      assert s[..|s| - 1] == FormatNat(n / 10);
    }
  }

  /** Parsing undoes formatting for every 64-bit integer. */
  lemma ParseFormat(n: int)
    requires IsInt64(n)
    ensures ParseInt(FormatInt(n)) == (n, None)
  {
    var digits := FormatNat(if n < 0 then -n else n);
    DigitsValueOfFormat(if n < 0 then -n else n);
    DigitPrefixAll(digits);
    assert IsDigit(digits[0]);
    assert FormatInt(n) == (if n < 0 then "-" else "") + digits;
    ParseIntSigned(n < 0, digits);
    assert ParseDigits(n < 0, digits) == (n, None);
  }

  /** The decimal form starts with '-' exactly for negative integers. */
  lemma FormatIntSign(n: int)
    ensures FormatInt(n)[0] == '-' <==> n < 0
  {
    if n >= 0 {
      assert IsDigit(FormatNat(n)[0]);
    }
  }

  /** Distinct integers have distinct decimal forms (for every integer, not only
      the 64-bit ones). */
  lemma FormatIntInjective(a: int, b: int)
    requires FormatInt(a) == FormatInt(b)
    ensures a == b
  {
    FormatIntSign(a);
    FormatIntSign(b);
    if a < 0 {
      assert FormatNat(-a) == FormatInt(a)[1..] == FormatInt(b)[1..] == FormatNat(-b);
      DigitsValueOfFormat(-a);
      DigitsValueOfFormat(-b);
    } else {
      DigitsValueOfFormat(a);
      DigitsValueOfFormat(b);
    }
  }
}
