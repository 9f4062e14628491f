// The parser of decimal strings, in 64-bit arithmetic.
module DecimalParser {
  import opened Common
  import opened Decimal

  newtype int64 = x: int | -0x8000_0000_0000_0000 <= x < 0x8000_0000_0000_0000

  const POW10: seq<int64> := [
    1, 10, 100, 1000, 10000, 100000, 1000000, 10000000, 100000000, 1000000000, 10000000000, 100000000000,
    1000000000000, 10000000000000, 100000000000000, 1000000000000000, 10000000000000000, 100000000000000000,
    1000000000000000000]

  lemma {:induction false} TableIsPow10(k: nat)
    requires k < |POW10|
    ensures POW10[k] as int == Pow10(k)
    decreases k
  {
    if k > 0 {
      TableIsPow10(k - 1);
      assert POW10[k] as int == 10 * (POW10[k - 1] as int);
    }
  }

  // --- reading digits one by one ------------------------------------------

  lemma ValStep(s: string, k: nat)
    requires k < |s| && AllDigits(s[..k + 1])
    ensures AllDigits(s[..k]) && Val(s[..k + 1]) == 10 * Val(s[..k]) + DigitValue(s[k])
  {
    assert s[..k + 1][..k] == s[..k];
    assert s[..k + 1][k] == s[k];
  }

  lemma {:induction false} ValGrows(s: string, k: nat, n: nat)
    requires k <= n <= |s| && AllDigits(s[..n])
    ensures AllDigits(s[..k]) && Val(s[..k]) <= Val(s[..n])
    decreases n - k
  {
    assert forall i :: 0 <= i < k ==> s[..k][i] == s[..n][i];
    if k < n {
      assert forall i :: 0 <= i < k + 1 ==> s[..k + 1][i] == s[..n][i];
      ValStep(s, k);
      ValGrows(s, k + 1, n);
    }
  }

  lemma WithinRun(s: string, k: nat)
    requires k <= DigitRun(s)
    ensures AllDigits(s[..k])
    ensures k < |s| && IsDigit(s[k]) ==> k < DigitRun(s)
    ensures k < DigitRun(s) ==> IsDigit(s[k])
  {
    var n := DigitRun(s);
    assert forall i :: 0 <= i < n ==> IsDigit(s[..n][i]) && s[..n][i] == s[i];
  }

  // Reads digits from the start of `s`, at most `limit` of them, and stops at
  // the first character that is none.
  method ReadDigits(s: string, limit: nat) returns (value: int64, count: nat)
    requires var n := Min(DigitRun(s), limit); n <= |s| && AllDigits(s[..n]) && Val(s[..n]) < 0x8000_0000_0000_0000
    ensures count == Min(DigitRun(s), limit)
    ensures AllDigits(s[..count]) && value as int == Val(s[..count])
  {
    value, count := 0, 0;
    ghost var n := Min(DigitRun(s), limit);
    while count < |s| && IsDigit(s[count]) && count < limit
      invariant count <= n && AllDigits(s[..count]) && value as int == Val(s[..count])
    {
      WithinRun(s, count);
      WithinRun(s, count + 1);
      ValStep(s, count);
      ValGrows(s, count + 1, n);
      value := value * 10 + DigitValue(s[count]) as int64;
      count := count + 1;
    }
    WithinRun(s, count);
  }

  // The part of the fraction that counts, and what it adds to the magnitude.
  function Used(str: string, scale: nat): (d: string)
    ensures AllDigits(d) && |d| <= scale
  {
    FracDigits(str)[..Min(|FracDigits(str)|, scale)]
  }

  method ReadAfterPoint(u: string, p: nat, scale: nat, ghost str: string) returns (fracPart: int64, fracDigits: nat)
    requires u == Unsigned(str) && p == DigitRun(u) && Val(Used(str, scale)) < 0x8000_0000_0000_0000
    ensures fracDigits == |Used(str, scale)| && fracPart as int == Val(Used(str, scale))
  {
    fracPart, fracDigits := 0, 0;
    if p < |u| && u[p] == '.' {
      FracBound(str, u[p + 1..], scale);
      fracPart, fracDigits := ReadDigits(u[p + 1..], scale);
    }
  }

  // Reads the fraction that starts at `p`, if there is one, and pads it to
  // `scale` places.
  method ReadFraction(u: string, p: nat, scale: nat, ghost str: string) returns (fracPart: int64)
    requires u == Unsigned(str) && p == DigitRun(u) && scale < |POW10|
    requires Magnitude(str, scale) < 0x8000_0000_0000_0000
    ensures fracPart as int == Val(Used(str, scale)) * Pow10(scale - |Used(str, scale)|)
  {
    MagnitudeBounds(str, scale);
    var fracDigits;
    fracPart, fracDigits := ReadAfterPoint(u, p, scale, str);
    TableIsPow10(scale - fracDigits);
    if fracDigits < scale {
      fracPart := fracPart * POW10[scale - fracDigits];
    }
  }

  // No intermediate leaves the 64-bit range, for any string whose magnitude is
  // below 2^63; the result is the fixed-point reading of the string.
  method StringToMantissa(str: string, exponent: int) returns (mantissa: int64)
    requires -18 <= exponent <= 0
    requires Magnitude(str, -exponent) < 0x8000_0000_0000_0000
    ensures mantissa as int == Mantissa(str, -exponent)
  {
    var scale := -exponent;
    var u := str;
    var negative := false;
    if str != [] && str[0] == '-' {
      negative := true;
      u := str[1..];
    }
    MagnitudeBounds(str, scale);
    WholeRun(u);
    var intPart, p := ReadDigits(u, |u|);
    var fracPart := ReadFraction(u, p, scale, str);
    TableIsPow10(scale);
    mantissa := intPart * POW10[scale] + fracPart;
    if negative {
      mantissa := -mantissa;
    }
  }

  lemma WholeRun(u: string)
    ensures Min(DigitRun(u), |u|) == DigitRun(u)
  {
  }

  // Each summand of the magnitude, and the integer part itself, stay below it.
  lemma MagnitudeBounds(str: string, scale: nat)
    ensures Val(IntDigits(str)) <= Val(IntDigits(str)) * Pow10(scale) <= Magnitude(str, scale)
    ensures Val(Used(str, scale)) <= Val(Used(str, scale)) * Pow10(scale - |Used(str, scale)|) <= Magnitude(str, scale)
  {
    var used := Used(str, scale);
    AtLeast(Val(IntDigits(str)), Pow10(scale));
    AtLeast(Val(used), Pow10(scale - |used|));
  }

  lemma AtLeast(a: nat, b: nat)
    requires b >= 1
    ensures a <= a * b
  {
    assert a * (b - 1) >= 0;
  }

  // What ReadDigits will read after the point is the used part of the fraction.
  lemma FracBound(str: string, rest: string, scale: nat)
    requires var u := Unsigned(str); var p := DigitRun(u); p < |u| && u[p] == '.' && rest == u[p + 1..]
    ensures var n := Min(DigitRun(rest), scale); var f := FracDigits(str);
            n <= |rest| && AllDigits(rest[..n]) && n == Min(|f|, scale) && rest[..n] == f[..n]
  {
    var u := Unsigned(str);
    var p := DigitRun(u);
    assert u[p..][1..] == rest;
    WithinRun(rest, Min(DigitRun(rest), scale));
  }
}
