/** What rounding does to the value: the number below it, and whether the halfway test sees it right. */
module RoundingValue {
  import opened Powers
  import opened Limbs
  import opened Binary64
  import opened BigIntShift
  import opened BigIntHigh
  import opened Rounding

  /** The value of (m, p) in multiples of 2^-1074, times 2^k; `k` is large enough for this to be an integer. */
  function Scaled(am: AdjustedMantissa, k: nat): nat
    requires am.power2 - 1 + k >= 0
  {
    am.mantissa * Pow(2, am.power2 - 1 + k)
  }

  lemma Between(h: nat, m: nat, d: nat, s: nat)
    requires d > 0 && s > 0 && h == m / d
    ensures h * (d * s) <= m * s < (h + 1) * (d * s)
  {
    assert m == d * h + m % d;
    assert h * (d * s) == (d * h) * s && (h + 1) * (d * s) == (d * h + d) * s;
    MulLeft(d * h, m, s);
    MulLeftStrict(m, d * h + d, s);
  }

  /** The pattern of a normal number. */
  lemma NormalUnits(p: nat, h: nat)
    requires Hidden <= h < 2 * Hidden && p >= 1
    ensures var i := p * Hidden + h - Hidden;
            Units(i) == h * Pow(2, p - 1) && Gap(i) == Pow(2, p - 1)
  {
    var i := p * Hidden + h - Hidden;
    DivUnique(i, Hidden, p, h - Hidden);
    assert i >= Hidden;
  }

  lemma SubnormalUnits(i: nat)
    requires i < Hidden
    ensures Units(i) == i && Gap(i) == 1
  {
  }

  /** The value in terms of the bits that are kept: `d` is the weight of the last one. */
  lemma NormalScaled(am: AdjustedMantissa, k: nat)
    requires Half <= am.mantissa < B && am.power2 > -11 && am.power2 - 1 + k >= 0
    ensures var h, i := am.mantissa / 2048, DownIndex(am);
            && Units(i) == h * Gap(i) && Gap(i) * Pow(2, k) == 2048 * Pow(2, am.power2 - 1 + k)
  {
    var p := am.power2 + 11;
    HiddenIsPower();
    NormalUnits(p, am.mantissa / 2048);
    PowAdd(2, p - 1, k);
    PowAdd(2, 11, am.power2 - 1 + k);
  }

  lemma SubnormalScaled(am: AdjustedMantissa, k: nat)
    requires Half <= am.mantissa < B && am.power2 <= -11 && am.power2 - 1 + k >= 0
    ensures var e, i := 1 - am.power2, DownIndex(am);
            && Units(i) == i && Gap(i) == 1 && Pow(2, k) == Pow(2, e) * Pow(2, am.power2 - 1 + k)
            && Pow(2, e) > 0 && i == am.mantissa / Pow(2, e)
  {
    var e := 1 - am.power2;
    PowAdd(2, e, am.power2 - 1 + k);
    PowPositive(2, e);
    SubnormalSize(am.mantissa, TheShift(am));
    SubnormalUnits(DownIndex(am));
    if e >= 64 {
      Word();
      PowMonotone(2, 64, e);
      DivUnique(am.mantissa, Pow(2, e), 0, am.mantissa);
    }
  }

  /** Rounding down gives the greatest number, on an unbounded scale, that is not above the value. */
  lemma DownIsFloor(am: AdjustedMantissa, k: nat)
    requires Half <= am.mantissa < B && am.power2 - 1 + k >= 0
    ensures var i := DownIndex(am);
            Units(i) * Pow(2, k) <= Scaled(am, k) < Units(i + 1) * Pow(2, k)
  {
    NextUnits(DownIndex(am));
    if am.power2 > -11 {
      NormalFloor(am, k);
    } else {
      SubnormalFloor(am, k);
    }
  }

  lemma NormalFloor(am: AdjustedMantissa, k: nat)
    requires Half <= am.mantissa < B && am.power2 > -11 && am.power2 - 1 + k >= 0
    ensures var i := DownIndex(am);
            Units(i) * Pow(2, k) <= Scaled(am, k) < (Units(i) + Gap(i)) * Pow(2, k)
  {
    var i, s, h := DownIndex(am), Pow(2, am.power2 - 1 + k), am.mantissa / 2048;
    PowPositive(2, am.power2 - 1 + k);
    NormalScaled(am, k);
    Between(h, am.mantissa, 2048, s);
    Regrouped(h, Gap(i), Pow(2, k), 2048 * s);
  }

  lemma SubnormalFloor(am: AdjustedMantissa, k: nat)
    requires Half <= am.mantissa < B && am.power2 <= -11 && am.power2 - 1 + k >= 0
    ensures var i := DownIndex(am);
            Units(i) * Pow(2, k) <= Scaled(am, k) < (Units(i) + Gap(i)) * Pow(2, k)
  {
    var i, s := DownIndex(am), Pow(2, am.power2 - 1 + k);
    PowPositive(2, am.power2 - 1 + k);
    SubnormalScaled(am, k);
    Between(i, am.mantissa, Pow(2, 1 - am.power2), s);
  }

  lemma Regrouped(h: nat, g: nat, q: nat, w: nat)
    requires g * q == w
    ensures (h * g) * q == h * w && (h * g + g) * q == (h + 1) * w
  {
    assert (h * g) * q == h * (g * q);
    assert (h * g + g) * q == (h * g) * q + g * q;
    assert (h + 1) * w == h * w + w;
  }

  // ---- The halfway test ----

  /** The middle between the number below and the next one, times two. */
  function Middle(am: AdjustedMantissa, k: nat): nat
    requires Half <= am.mantissa < B
  {
    (2 * Units(DownIndex(am)) + Gap(DownIndex(am))) * Pow(2, k)
  }

  /** `o` bits shifted out of `d`, seen from the value. */
  lemma OutSide(h: nat, m: nat, d: nat, half: nat, s: nat)
    requires s > 0 && d == 2 * half > 0 && h == m / d
    ensures var o := m % d;
            && (o == half <==> 2 * (m * s) == (2 * h + 1) * (d * s))
            && (o > half <==> 2 * (m * s) > (2 * h + 1) * (d * s))
  {
    var o := m % d;
    assert m == d * h + o;
    var x, y := 2 * m, (2 * h + 1) * d;
    assert y == 2 * (d * h) + d;
    assert 2 * (m * s) == x * s && (2 * h + 1) * (d * s) == y * s;
    if x < y {
      MulLeftStrict(x, y, s);
    } else if y < x {
      MulLeftStrict(y, x, s);
    }
  }

  lemma MiddleIs(u: nat, g: nat, q: nat, h: nat, w: nat)
    requires u == h * g && g * q == w
    ensures (2 * u + g) * q == (2 * h + 1) * w
  {
    Regrouped(h, g, q, w);
    assert (2 * u + g) * q == (h * g) * q + (h * g + g) * q;
    assert (2 * h + 1) * w == h * w + (h + 1) * w;
  }

  lemma NormalHalfway(am: AdjustedMantissa, k: nat)
    requires Half <= am.mantissa < B && am.power2 > -11 && am.power2 - 1 + k >= 0
    ensures (Out(am) == HalfUnit(am) <==> 2 * Scaled(am, k) == Middle(am, k)) && (Out(am) > HalfUnit(am) <==> 2 * Scaled(am, k) > Middle(am, k))
  {
    var s, h, i := Pow(2, am.power2 - 1 + k), am.mantissa / 2048, DownIndex(am);
    PowPositive(2, am.power2 - 1 + k);
    HiddenIsPower();
    NormalScaled(am, k);
    MiddleIs(Units(i), Gap(i), Pow(2, k), h, 2048 * s);
    OutSide(h, am.mantissa, 2048, 1024, s);
  }

  lemma SubnormalHalfway(am: AdjustedMantissa, k: nat)
    requires Half <= am.mantissa < B && -63 <= am.power2 <= -11 && am.power2 - 1 + k >= 0
    ensures (Out(am) == HalfUnit(am) <==> 2 * Scaled(am, k) == Middle(am, k)) && (Out(am) > HalfUnit(am) <==> 2 * Scaled(am, k) > Middle(am, k))
  {
    var s, e, i := Pow(2, am.power2 - 1 + k), 1 - am.power2, DownIndex(am);
    PowPositive(2, am.power2 - 1 + k);
    SubnormalScaled(am, k);
    assert TheShift(am) == e && Pow(2, e) == 2 * Pow(2, e - 1);
    MiddleIs(i, 1, Pow(2, k), i, Pow(2, e) * s);
    OutSide(i, am.mantissa, Pow(2, e), Pow(2, e - 1), s);
  }

  /** Far below the smallest number: the shift is cut off at 64. */
  lemma FarBelow(am: AdjustedMantissa, k: nat)
    requires Half <= am.mantissa < B && am.power2 < -63 && am.power2 - 1 + k >= 0
    ensures 2 * Scaled(am, k) < Middle(am, k) && Out(am) >= HalfUnit(am)
  {
    var s, e, i := Pow(2, am.power2 - 1 + k), 1 - am.power2, DownIndex(am);
    PowPositive(2, am.power2 - 1 + k);
    SubnormalScaled(am, k);
    Word();
    assert Pow(2, 64) == 2 * Pow(2, 63) && Pow(2, 65) == 2 * Pow(2, 64);
    PowMonotone(2, 65, e);
    DivUnique(am.mantissa, Pow(2, e), 0, am.mantissa);
    MulLeftStrict(2 * am.mantissa, Pow(2, e), s);
    assert 2 * Scaled(am, k) == (2 * am.mantissa) * s;
    assert Middle(am, k) == Pow(2, k);
    DivUnique(am.mantissa, Pow(2, 64), 0, am.mantissa);
  }

  /** The halfway test sees the value right if and only if the shift is not cut off: further down every value is taken to
      be at or above the middle, though all of them are below it. */
  lemma HalfwayIsRight(am: AdjustedMantissa, k: nat)
    requires Half <= am.mantissa < B && am.power2 - 1 + k >= 0
    ensures am.power2 >= -63 <==>
              && (Out(am) == HalfUnit(am) <==> 2 * Scaled(am, k) == Middle(am, k))
              && (Out(am) > HalfUnit(am) <==> 2 * Scaled(am, k) > Middle(am, k))
  {
    if am.power2 > -11 {
      NormalHalfway(am, k);
    } else if am.power2 >= -63 {
      SubnormalHalfway(am, k);
    } else {
      FarBelow(am, k);
    }
  }
}
