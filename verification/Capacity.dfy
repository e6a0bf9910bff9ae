/** Sixty-two limbs hold every number the slow path builds, for literals whose exponent the fast path has not
    sent to zero or infinity already. */
module Capacity {
  import opened Powers
  import opened Limbs
  import opened Binary64
  import opened Digits
  import opened ParseMantissa
  import opened Rounding
  import opened DigitComp

  // ---- Powers of ten and five against powers of two ----

  function TenLog(n: nat): nat {
    10 * ((n + 2) / 3)
  }

  lemma TenBits(n: nat)
    ensures Pow(10, n) <= Pow(2, TenLog(n))
  {
    var q := (n + 2) / 3;
    PowMonotone(10, n, 3 * q);
    PowPow(10, 3, q);
    PowPow(2, 10, q);
    assert Pow(10, 3) == 1000 && Pow(2, 10) == 1024;
    PowBase(1000, 1024, q);
  }

  function FiveLog(n: nat): nat {
    7 * ((n + 2) / 3)
  }

  lemma FiveBits(n: nat)
    ensures Pow(5, n) <= Pow(2, FiveLog(n))
  {
    var q := (n + 2) / 3;
    PowMonotone(5, n, 3 * q);
    PowPow(5, 3, q);
    PowPow(2, 7, q);
    assert Pow(5, 3) == 125 && Pow(2, 7) == 128;
    PowBase(125, 128, q);
  }

  lemma ProductBits(a: nat, x: nat, b: nat, y: nat)
    requires a <= Pow(2, x) && b <= Pow(2, y)
    ensures a * b <= Pow(2, x + y)
  {
    PowAdd(2, x, y);
    MulLeft(a, Pow(2, x), b);
    MulLeft(b, Pow(2, y), Pow(2, x));
    assert b * Pow(2, x) == Pow(2, x) * b && Pow(2, y) * Pow(2, x) == Pow(2, x) * Pow(2, y);
  }

  lemma Below(a: nat, n: nat, limbs: nat)
    requires a <= Pow(2, n) && n < 64 * limbs
    ensures a < Pow(B, limbs)
  {
    BigIntShift.Word();
    PowPow(2, 64, limbs);
    PowMonotone(2, n + 1, 64 * limbs);
    PowPositive(2, n);
  }

  // ---- Non-negative exponents ----

  lemma WholeFits(m: nat, digits: nat, e: nat, limbs: nat)
    requires limbs >= 62 && m < Pow(10, digits) && digits + e <= 327
    ensures m * Pow(10, e) < Pow(B, limbs)
  {
    PowAdd(10, digits, e);
    WholeBelow(m, Pow(10, digits), Pow(10, e), digits + e, limbs);
  }

  lemma WholeBelow(m: nat, p: nat, q: nat, n: nat, limbs: nat)
    requires limbs >= 62 && n <= 327 && m <= p && p * q == Pow(10, n)
    ensures m * q < Pow(B, limbs)
  {
    MulLeft(m, p, q);
    TenBits(n);
    Below(m * q, TenLog(n), limbs);
  }

  // ---- Negative exponents ----

  lemma ActualWithin(m: nat, digits: nat, e: int, p: nat, limbs: nat)
    requires limbs >= 62 && m < Pow(10, digits) && digits <= 770 && p <= Bias && p == if e < 0 then -e else 0
    ensures ActualFits(m, e, Pow(B, limbs))
  {
    TenBits(digits);
    ProductBits(m, TenLog(digits), Pow(2, p), p);
    Below(m * Pow(2, p), TenLog(digits) + p, limbs);
  }

  lemma TheorFitsLow(t: nat, k: nat, word: nat, limbs: nat)
    requires limbs >= 62 && t < B && k <= 1111 && word == 64
    ensures t * Pow(5, k) < Pow(B, limbs)
  {
    BigIntShift.Word();
    FiveBits(k);
    ProductBits(t, word, Pow(5, k), FiveLog(k));
    Below(t * Pow(5, k), word + FiveLog(k), limbs);
  }

  lemma NextAtMostTwice(b: nat)
    ensures Units(b + 1) <= 2 * Units(b) + 1
  {
    NextUnits(b);
    if b >= Hidden {
      PowPositive(2, b / Hidden - 1);
      MulLeft(1, Hidden + b % Hidden, Pow(2, b / Hidden - 1));
    }
  }

  lemma ThreeTimes(u: nat, v: nat, n: nat, d: nat)
    requires v <= 2 * u + 1 && u * d <= n
    ensures (u + v) * d <= 3 * n + d
  {
    MulLeft(u + v, 3 * u + 1, d);
    assert (3 * u + 1) * d == 3 * (u * d) + d;
  }

  lemma MiddleBits(m: nat, digits: nat, k: nat, x: nat, limbs: nat)
    requires limbs >= 62 && m < Pow(10, digits) && digits <= 770 && k <= 1111 && x <= 3 * (m * Unit()) + Pow(10, k)
    ensures x < Pow(B, limbs)
  {
    TenBits(digits);
    UnitBits(m, TenLog(digits));
    TenBits(k);
    var y := if TenLog(digits) + 1076 <= TenLog(k) then TenLog(k) else TenLog(digits) + 1076;
    PowMonotone(2, TenLog(digits) + 1076, y);
    PowMonotone(2, TenLog(k), y);
    Below(x, y + 1, limbs);
  }

  lemma UnitBits(m: nat, x: nat)
    requires m <= Pow(2, x)
    ensures 3 * (m * Unit()) <= Pow(2, x + 1076)
  {
    ProductBits(m, x, Unit(), 1074);
    FourTimes(m * Unit(), x + 1074);
  }

  lemma FourTimes(a: nat, n: nat)
    requires a <= Pow(2, n)
    ensures 3 * a <= Pow(2, n + 2)
  {
    assert Pow(2, n + 2) == 2 * Pow(2, n + 1);
  }

  lemma MiddleFits(m: nat, digits: nat, u: nat, v: nat, k: nat, d: nat, n: nat, limbs: nat)
    requires limbs >= 62 && m < Pow(10, digits) && digits <= 770 && k <= 1111
    requires d == Pow(10, k) && n == m * Unit() && u * d <= n && v <= 2 * u + 1
    ensures (u + v) * d < Pow(B, limbs)
  {
    ThreeTimes(u, v, n, d);
    MiddleBits(m, digits, k, (u + v) * d, limbs);
  }

  lemma Factor(x: nat, p: nat, y: nat, limit: nat)
    requires y == x * p && p >= 1 && y < limit
    ensures x < limit
  {
    MulLeft(1, p, x);
    assert p * x == x * p;
  }

  lemma TheorFitsHigh(t: nat, f: int, k: nat, x: nat, y: nat, limit: nat)
    requires f + Bias >= 0 && f + k > 0 && x == (t * Pow(5, k)) * Pow(2, f + k) && y == (t * Pow(2, f + Bias)) * Pow(10, k)
    requires y < limit
    ensures x < limit
  {
    PowPositive(2, Bias);
    TheorSide(t, f, k);
    Factor(x, Pow(2, Bias), y, limit);
  }

  lemma TheorWithin(t: nat, f: int, k: nat, limbs: nat)
    requires limbs >= 62 && t < B && k <= 1111 && f + Bias >= 0 && (t * Pow(2, f + Bias)) * Pow(10, k) < Pow(B, limbs)
    ensures TheorFits(t, f + k, k, Pow(B, limbs))
  {
    if f + k > 0 {
      TheorFitsHigh(t, f, k, (t * Pow(5, k)) * Pow(2, f + k), (t * Pow(2, f + Bias)) * Pow(10, k), Pow(B, limbs));
    } else {
      TheorFitsLow(t, k, 64, limbs);
      NoScale(t * Pow(5, k));
    }
  }

  lemma TheorSideFits(m: nat, digits: nat, u: nat, v: nat, t: nat, f: int, k: nat, d: nat, n: nat, limbs: nat)
    requires limbs >= 62 && m < Pow(10, digits) && digits <= 770 && k <= 1111 && t < B && f + Bias >= 0
    requires d == Pow(10, k) && n == m * Unit() && u * d <= n && v <= 2 * u + 1 && u + v == t * Pow(2, f + Bias)
    ensures TheorFits(t, f + k, k, Pow(B, limbs))
  {
    MiddleFits(m, digits, u, v, k, d, n, limbs);
    TheorWithin(t, f, k, limbs);
  }

  lemma Neighbours(b: nat, h: AdjustedMantissa, d: nat, n: nat) returns (u: nat, v: nat)
    requires h == ToExtendedHalfway(b) && Units(b) * d <= n
    ensures u * d <= n && v <= 2 * u + 1 && u + v == h.mantissa * Pow(2, h.power2 + Bias)
    ensures h.mantissa < B && h.power2 + Bias >= 0
  {
    HalfwayIsMiddle(b);
    NextAtMostTwice(b);
    u, v := Units(b), Units(b + 1);
  }

  /** Both sides of the comparison fit. */
  lemma SidesAlwaysFit(m: nat, digits: nat, b: nat, k: nat, limbs: nat)
    requires limbs >= 62 && m < Pow(10, digits) && digits <= 770 && k <= 1111 && Units(b) * Pow(10, k) <= m * Unit()
    ensures SidesFit(m, b, k, Pow(B, limbs))
  {
    var h := ToExtendedHalfway(b);
    SideFitsAbove(m, digits, b, h, k, Pow(10, k), m * Unit(), limbs);
    HalfwayIsMiddle(b);
    var e := h.power2 + k;
    ActualWithin(m, digits, e, if e < 0 then -e else 0, limbs);
  }

  lemma SideFitsAbove(m: nat, digits: nat, b: nat, h: AdjustedMantissa, k: nat, d: nat, n: nat, limbs: nat)
    requires limbs >= 62 && m < Pow(10, digits) && digits <= 770 && k <= 1111 && h == ToExtendedHalfway(b)
    requires d == Pow(10, k) && n == m * Unit() && Units(b) * d <= n
    ensures TheorFits(h.mantissa, h.power2 + k, k, Pow(B, limbs))
  {
    var u, v := Neighbours(b, h, d, n);
    TheorSideFits(m, digits, u, v, h.mantissa, h.power2, k, d, n, limbs);
  }

  // ---- What is kept of a literal ----

  lemma KeptBound(s: Text, max: nat)
    requires AllDigits(s)
    ensures 0 <= Kept(s, max) < Pow(10, KeptDigits(s, max)) && KeptDigits(s, max) <= max + 1
  {
    ValueBound(First(s, max));
  }
}
