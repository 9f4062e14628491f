// Decimal digits and the fixed-point numbers of the stream: prices and
// quantities travel as 64-bit mantissas at exponent -8. DecimalParser is the
// parser that computes them.
module Decimal {
  import opened Common

  // --- digits -------------------------------------------------------------

  predicate IsDigit(c: char) {
    '0' <= c <= '9'
  }

  function DigitValue(c: char): nat
    requires IsDigit(c)
  {
    c as int - '0' as int
  }

  function DigitChar(d: nat): (c: char)
    requires d < 10
    ensures IsDigit(c) && DigitValue(c) == d
  {
    ['0', '1', '2', '3', '4', '5', '6', '7', '8', '9'][d]
  }

  predicate AllDigits(s: string) {
    forall i :: 0 <= i < |s| ==> IsDigit(s[i])
  }

  // The number of leading digits.
  function DigitRun(s: string): (n: nat)
    ensures n <= |s| && AllDigits(s[..n]) && (n < |s| ==> !IsDigit(s[n]))
  {
    if s == [] || !IsDigit(s[0]) then 0
    else
      var n := 1 + DigitRun(s[1..]);
      assert forall i :: 0 < i < n ==> s[i] == s[1..][i - 1];
      n
  }

  // The number a row of digits stands for.
  function Val(s: string): nat
    requires AllDigits(s)
  {
    if s == [] then 0 else 10 * Val(s[..|s| - 1]) + DigitValue(s[|s| - 1])
  }

  function Pow10(n: nat): (p: nat)
    ensures p >= 1
  {
    if n == 0 then 1 else 10 * Pow10(n - 1)
  }

  lemma {:induction false} ValAppend(x: string, y: string)
    requires AllDigits(x) && AllDigits(y)
    ensures AllDigits(x + y) && Val(x + y) == Val(x) * Pow10(|y|) + Val(y)
    decreases |y|
  {
    if y == [] {
      assert x + y == x;
    } else {
      var z := y[..|y| - 1];
      assert (x + y)[..|x + y| - 1] == x + z;
      ValAppend(x, z);
      TimesTen(Val(x), Pow10(|z|));
    }
  }

  lemma TimesTen(a: nat, b: nat)
    ensures 10 * (a * b) == a * (10 * b)
  {
  }

  lemma {:induction false} ValBound(s: string)
    requires AllDigits(s)
    ensures Val(s) < Pow10(|s|)
  {
    if s != [] {
      ValBound(s[..|s| - 1]);
    }
  }

  lemma {:induction false} Pow10Add(a: nat, b: nat)
    ensures Pow10(a + b) == Pow10(a) * Pow10(b)
    decreases b
  {
    if b > 0 {
      Pow10Add(a, b - 1);
      assert Pow10(a + b) == 10 * Pow10(a + (b - 1));
    }
  }

  // --- printing -----------------------------------------------------------

  // The decimal digits of a number, without leading zeros.
  function Digits(n: nat): (s: string)
    ensures s != [] && AllDigits(s) && Val(s) == n
  {
    if n < 10 then [DigitChar(n)]
    else
      var s := Digits(n / 10) + [DigitChar(n % 10)];
      assert s[..|s| - 1] == Digits(n / 10);
      s
  }

  // Exactly `width` digits.
  function Padded(n: nat, width: nat): (s: string)
    requires n < Pow10(width)
    ensures |s| == width && AllDigits(s) && Val(s) == n
    decreases width
  {
    if width == 0 then []
    else
      var s := Padded(n / 10, width - 1) + [DigitChar(n % 10)];
      assert s[..|s| - 1] == Padded(n / 10, width - 1);
      s
  }

  // --- the fixed-point reading of a string --------------------------------

  // The parts of a number as the parser sees them: sign, integer digits, and
  // the digits after a point. What follows is ignored.
  function Unsigned(s: string): string {
    if s != [] && s[0] == '-' then s[1..] else s
  }

  function IntDigits(s: string): (d: string)
    ensures AllDigits(d)
  {
    var u := Unsigned(s);
    u[..DigitRun(u)]
  }

  function FracDigits(s: string): (d: string)
    ensures AllDigits(d)
  {
    var u := Unsigned(s);
    var rest := u[DigitRun(u)..];
    if rest != [] && rest[0] == '.' then rest[1..][..DigitRun(rest[1..])] else []
  }

  // The absolute value in units of 10^-scale, cut off after `scale` places.
  function MagnitudeOf(i: string, f: string, scale: nat): nat
    requires AllDigits(i) && AllDigits(f)
  {
    var used := f[..Min(|f|, scale)];
    Val(i) * Pow10(scale) + Val(used) * Pow10(scale - |used|)
  }

  function Magnitude(s: string, scale: nat): nat {
    MagnitudeOf(IntDigits(s), FracDigits(s), scale)
  }

  function Mantissa(s: string, scale: nat): int {
    if s != [] && s[0] == '-' then -(Magnitude(s, scale) as int) else Magnitude(s, scale)
  }

  // --- what it means ------------------------------------------------------

  // Few enough digits: padding with zeros is exact.
  lemma ShortFraction(i: nat, v: nat, n: nat, scale: nat)
    requires n <= scale
    ensures i * Pow10(scale) + v * Pow10(scale - n) == ((i * Pow10(n) + v) * Pow10(scale)) / Pow10(n)
  {
    var p, q := Pow10(n), Pow10(scale - n);
    Pow10Add(n, scale - n);
    Distribute(i, p, v, q);
    DivRemainder(i * (p * q) + v * q, p, 0);
  }

  // Too many digits: those cut off do not matter.
  lemma LongFraction(i: nat, used: nat, cut: nat, n: nat, scale: nat)
    requires scale <= n && cut < Pow10(n - scale)
    ensures i * Pow10(scale) + used == ((i * Pow10(n) + (used * Pow10(n - scale) + cut)) * Pow10(scale)) / Pow10(n)
  {
    Pow10Add(scale, n - scale);
    LongQuotient(i, used, cut, Pow10(scale), Pow10(n - scale));
  }

  lemma LongQuotient(i: nat, used: nat, cut: nat, p: nat, q: nat)
    requires cut < q && p > 0
    ensures p * q > 0 && ((i * (p * q) + (used * q + cut)) * p) / (p * q) == i * p + used
  {
    Regroup(i, p, q, used, cut);
    Scale(cut, q, p);
    DivRemainder(i * p + used, p * q, cut * p);
  }

  lemma Distribute(i: nat, a: nat, v: nat, b: nat)
    ensures (i * a + v) * (a * b) == (i * (a * b) + v * b) * a + 0
  {
    calc {
      (i * a + v) * (a * b);
      i * a * (a * b) + v * (a * b);
      { assert i * a * (a * b) == i * (a * b) * a; assert v * (a * b) == v * b * a; }
      i * (a * b) * a + v * b * a;
      (i * (a * b) + v * b) * a;
    }
  }

  lemma Regroup(i: nat, p: nat, q: nat, used: nat, cut: nat)
    ensures (i * (p * q) + (used * q + cut)) * p == (i * p + used) * (p * q) + cut * p
  {
    calc {
      (i * (p * q) + (used * q + cut)) * p;
      i * (p * q) * p + used * q * p + cut * p;
      { assert i * (p * q) * p == i * p * (p * q); assert used * q * p == used * (p * q); }
      i * p * (p * q) + used * (p * q) + cut * p;
      (i * p + used) * (p * q) + cut * p;
    }
  }

  lemma Scale(x: nat, y: nat, z: nat)
    requires x < y && z > 0
    ensures x * z < z * y
  {
    MulNext(x, y, z);
  }

  lemma MulNext(x: nat, y: nat, b: nat)
    requires x < y
    ensures x * b + b <= y * b
  {
    var d: nat := y - x - 1;
    assert y * b == (x + 1 + d) * b == x * b + b + d * b;
    NotNegative(d, b);
  }

  lemma {:induction false} NotNegative(a: nat, b: nat)
    ensures a * b >= 0
  {
    if b > 0 {
      NotNegative(a, b - 1);
      assert a * b == a * (b - 1) + a;
    }
  }

  lemma DivRemainder(a: nat, b: nat, r: nat)
    requires r < b
    ensures (a * b + r) / b == a
  {
    var n := a * b + r;
    var q := n / b;
    assert n == q * b + n % b && 0 <= n % b < b;
    if q < a {
      MulNext(q, a, b);
    } else if q > a {
      MulNext(a, q, b);
    }
  }

  lemma CutMagnitude(i: string, f: string, scale: nat)
    requires AllDigits(i) && AllDigits(f) && |f| > scale
    ensures MagnitudeOf(i, f, scale) == ((Val(i) * Pow10(|f|) + Val(f)) * Pow10(scale)) / Pow10(|f|)
  {
    var used, cut := f[..scale], f[scale..];
    assert f == used + cut;
    ValAppend(used, cut);
    ValBound(cut);
    assert MagnitudeOf(i, f, scale) == Val(i) * Pow10(scale) + Val(used) by {
      assert Pow10(0) == 1;
    }
    LongFraction(Val(i), Val(used), Val(cut), |f|, scale);
  }

  lemma MagnitudeTruncates(i: string, f: string, scale: nat)
    requires AllDigits(i) && AllDigits(f)
    ensures MagnitudeOf(i, f, scale) == ((Val(i) * Pow10(|f|) + Val(f)) * Pow10(scale)) / Pow10(|f|)
  {
    if |f| <= scale {
      assert f[..|f|] == f;
      ShortFraction(Val(i), Val(f), |f|, scale);
    } else {
      CutMagnitude(i, f, scale);
    }
  }

  // For every string of an optional minus, digits and optionally a point and
  // digits, the mantissa is the number it stands for, times 10^scale, truncated
  // toward zero: the number is (Val(i) * 10^|f| + Val(f)) / 10^|f|.
  lemma MantissaTruncates(negative: bool, i: string, point: bool, f: string, scale: nat)
    requires AllDigits(i) && AllDigits(f) && (point || f == "")
    ensures var magnitude := ((Val(i) * Pow10(|f|) + Val(f)) * Pow10(scale)) / Pow10(|f|);
            Mantissa(Written(negative, i, point, f), scale) == if negative then -(magnitude as int) else magnitude
  {
    PartsOf(negative, i, point, f);
    MagnitudeTruncates(i, f, scale);
  }

  function Written(negative: bool, i: string, point: bool, f: string): string
    requires point || f == ""
  {
    (if negative then "-" else "") + (i + (if point then "." + f else ""))
  }

  // The parser takes a written number apart into what it was written from.
  lemma PartsOf(negative: bool, i: string, point: bool, f: string)
    requires AllDigits(i) && AllDigits(f) && (point || f == "")
    ensures var s := Written(negative, i, point, f);
            (s != [] && s[0] == '-' <==> negative) && IntDigits(s) == i && FracDigits(s) == f
  {
    var rest := if point then "." + f else "";
    var s, u := Written(negative, i, point, f), i + rest;
    assert u != [] ==> u[0] == if i == [] then '.' else i[0];
    assert Unsigned(s) == u;
    RunOf(i, rest);
    assert u[|i|..] == rest;
    if point {
      assert rest[1..] == f;
      RunOf(f, "");
      assert f + "" == f;
    }
  }

  lemma {:induction false} RunOf(d: string, rest: string)
    requires AllDigits(d) && (rest == [] || !IsDigit(rest[0]))
    ensures DigitRun(d + rest) == |d| && (d + rest)[..|d|] == d
  {
    if d == [] {
      assert d + rest == rest;
    } else {
      assert (d + rest)[1..] == d[1..] + rest;
      RunOf(d[1..], rest);
    }
  }

  // --- the canonical printer ----------------------------------------------

  const SCALE := 8

  function Print(m: int): string {
    var a := if m < 0 then -m else m;
    PowPositive();
    Written(m < 0, Digits(a / Pow10(SCALE)), true, Padded(a % Pow10(SCALE), SCALE))
  }

  lemma PowPositive()
    ensures Pow10(SCALE) == 100_000_000
  {
    assert Pow10(4) == 10000 by { assert Pow10(2) == 100; }
    Pow10Add(4, 4);
  }

  // Reading what was printed gives back every mantissa.
  lemma PrintRoundTrip(m: int)
    ensures Mantissa(Print(m), SCALE) == m
  {
    PowPositive();
    var a := if m < 0 then -m else m;
    var p := Pow10(SCALE);
    var i, f := Digits(a / p), Padded(a % p, SCALE);
    MantissaTruncates(m < 0, i, true, f, SCALE);
    assert a / p * p + a % p == a;
    DivRemainder(a, p, 0);
  }
}
