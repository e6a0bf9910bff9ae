/** Rounding a 64-bit mantissa with a binary exponent to a binary64 number. */
module Rounding {
  import opened Powers
  import opened Limbs
  import opened Binary64
  import opened BigIntShift
  import opened BigIntHigh

  /** A mantissa and a power of two.  Before rounding, (m, p) stands for m * 2^(p - 1075); after it, p is
      the exponent field of the result. */
  datatype AdjustedMantissa = AdjustedMantissa(mantissa: nat, power2: int)

  type Decision = (bool, bool, bool) -> bool

  /** `m >> shift`, where a shift by the word size gives zero. */
  function ShiftRight(m: nat, shift: nat): nat {
    if shift == 64 then 0 else PowPositive(2, shift); m / Pow(2, shift)
  }

  /** `up` decides from (is odd, is halfway, is above) whether to add one. */
  function RoundNearestTieEven(am: AdjustedMantissa, shift: nat, up: Decision): AdjustedMantissa {
    PowPositive(2, shift);
    var mask := if shift == 64 then B - 1 else Pow(2, shift) - 1;
    var halfway := if shift == 0 then 0 else Pow(2, shift - 1);
    var truncated := And(am.mantissa, mask);
    var m := ShiftRight(am.mantissa, shift);
    AdjustedMantissa(m + if up(And(m, 1) == 1, truncated == halfway, truncated > halfway) then 1 else 0,
                     am.power2 + shift)
  }

  function RoundDown(am: AdjustedMantissa, shift: nat): AdjustedMantissa {
    AdjustedMantissa(ShiftRight(am.mantissa, shift), am.power2 + shift)
  }

  /** The hidden bit, cleared. */
  const HiddenMask: nat := B - 1 - Hidden

  /** How many bits of the mantissa a binary64 number does not have: more below the normal range. */
  function TheShift(am: AdjustedMantissa): nat {
    if -am.power2 < 11 then 11 else if 1 - am.power2 < 64 then 1 - am.power2 else 64
  }

  function Round(am: AdjustedMantissa, cb: (AdjustedMantissa, nat) -> AdjustedMantissa): AdjustedMantissa {
    var a := cb(am, TheShift(am));
    if -am.power2 >= 11 then
      AdjustedMantissa(a.mantissa, if a.mantissa < Hidden then 0 else 1)
    else
      var carried := if a.mantissa >= 2 * Hidden then AdjustedMantissa(Hidden, a.power2 + 1) else a;
      if carried.power2 >= 0x7FF then AdjustedMantissa(0, 0x7FF)
      else AdjustedMantissa(And(carried.mantissa, HiddenMask), carried.power2)
  }

  /** The bit pattern: the exponent field is or-ed onto the mantissa. */
  function ToFloat(am: AdjustedMantissa): nat
    requires am.power2 >= 0
  {
    Or(am.mantissa, am.power2 * Hidden)
  }

  function Cut(i: nat): nat {
    if i < INF then i else INF
  }

  // ---- Bits ----

  lemma {:induction false} OrCommutes(a: nat, b: nat)
    ensures Or(a, b) == Or(b, a)
  {
    if a != 0 || b != 0 {
      OrCommutes(a / 2, b / 2);
    }
  }

  lemma HiddenIsPower()
    ensures Pow(2, 52) == Hidden && Pow(2, 11) == 2048 && Pow(2, 10) == 1024
  {
    assert Pow(2, 4) == 16;
    PowAdd(2, 4, 4);
    PowAdd(2, 8, 8);
    PowAdd(2, 16, 16);
    PowAdd(2, 4, 16);
    PowAdd(2, 32, 20);
    assert Pow(2, 2) == 4;
    PowAdd(2, 2, 8);
    assert Pow(2, 11) == 2 * Pow(2, 10);
  }

  lemma FieldsDisjoint(m: nat, p: nat)
    requires m < Hidden
    ensures Or(m, p * Hidden) == p * Hidden + m
  {
    HiddenIsPower();
    OrCommutes(m, p * Hidden);
    OrDisjoint(p, m, 52);
  }

  /** A rounding carry into the hidden bit of a subnormal meets the exponent field 1. */
  lemma HiddenTwice()
    ensures Or(Hidden, Hidden) == Hidden
  {
    OrSame(Hidden);
  }

  lemma {:induction false} OrSame(a: nat)
    ensures Or(a, a) == a
  {
    if a != 0 {
      OrSame(a / 2);
    }
  }

  /** Clearing bit `n` of a number with that bit at the top. */
  lemma {:induction false} ClearTop(m: nat, mask: nat, n: nat)
    requires Pow(2, n) <= m < 2 * Pow(2, n)
    requires mask % (2 * Pow(2, n)) == Pow(2, n) - 1
    ensures And(m, mask) == m - Pow(2, n)
  {
    if n == 0 {
      assert m == 1 && mask % 2 == 0;
      AndZero(mask / 2);
    } else {
      var p := Pow(2, n - 1);
      assert Pow(2, n) == 2 * p;
      HalveMod(mask, 2 * p);
      ClearTop(m / 2, mask / 2, n - 1);
    }
  }

  lemma ClearHidden(m: nat)
    requires Hidden <= m < 2 * Hidden
    ensures And(m, HiddenMask) == m - Hidden
  {
    HiddenIsPower();
    assert HiddenMask == (2 * Hidden) * (B / (2 * Hidden) - 1) + (Hidden - 1);
    ClearTop(m, HiddenMask, 52);
  }

  lemma LowBit(m: nat)
    ensures And(m, 1) == m % 2
  {
    AndMask(m, 1);
    assert Pow(2, 1) == 2;
  }

  // ---- What rounding does to the pattern ----

  /** The pattern of the mantissa rounded down, with an unbounded exponent. */
  function DownIndex(am: AdjustedMantissa): nat
    requires Half <= am.mantissa < B
  {
    if am.power2 <= -11 then ShiftRight(am.mantissa, TheShift(am))
    else (am.power2 + 11) * Hidden + am.mantissa / 2048 - Hidden
  }

  lemma PackNormal(m: nat, power2: int, up: bool)
    requires Hidden <= m < 2 * Hidden && power2 >= 1
    ensures var h := m + if up then 1 else 0;
            var carried := if h >= 2 * Hidden then AdjustedMantissa(Hidden, power2 + 1) else AdjustedMantissa(h, power2);
            var packed := if carried.power2 >= 0x7FF then AdjustedMantissa(0, 0x7FF)
                          else AdjustedMantissa(And(carried.mantissa, HiddenMask), carried.power2);
            packed.power2 >= 0 && ToFloat(packed) == Cut(power2 * Hidden + m - Hidden + if up then 1 else 0)
  {
    var h := m + if up then 1 else 0;
    FieldsDisjoint(0, 0x7FF);
    if h >= 2 * Hidden {
      ClearHidden(Hidden);
      FieldsDisjoint(0, power2 + 1);
    } else {
      ClearHidden(h);
      FieldsDisjoint(h - Hidden, power2);
    }
  }

  lemma PackSubnormal(h: nat)
    requires h <= Hidden
    ensures ToFloat(AdjustedMantissa(h, if h < Hidden then 0 else 1)) == h
  {
    OrZero(h);
    HiddenTwice();
  }

  lemma SubnormalSize(m: nat, shift: nat)
    requires m < B && 12 <= shift <= 64
    ensures ShiftRight(m, shift) < Hidden
  {
    if shift < 64 {
      HiddenIsPower();
      Word();
      PowAdd(2, 12, 52);
      PowMonotone(2, 12, shift);
      assert Pow(2, 12) == 2 * Pow(2, 11);
      PowPositive(2, shift);
      QuotientSmall(m, Pow(2, shift), 4096);
    }
  }

  lemma QuotientSmall(m: nat, d: nat, e: nat)
    requires d >= e > 0
    ensures m / d <= m / e
  {
    var q := m / d;
    MulLeft(e, d, q);
    assert e * q <= m;
    MulCancel(m / e + 1, q, e);
    assert (m / e + 1) * e == (m / e) * e + e;
    assert q * e == e * q;
  }

  /** The bits shifted out, and half the weight of the last bit kept. */
  function Out(am: AdjustedMantissa): nat {
    PowPositive(2, TheShift(am));
    am.mantissa % Pow(2, TheShift(am))
  }

  function HalfUnit(am: AdjustedMantissa): nat {
    Pow(2, TheShift(am) - 1)
  }

  /** `Round`, once it is known what the callback returns. */
  lemma RoundsStep(am: AdjustedMantissa, cb: (AdjustedMantissa, nat) -> AdjustedMantissa, u: bool)
    requires Half <= am.mantissa < B
    requires var m := ShiftRight(am.mantissa, TheShift(am));
             cb(am, TheShift(am)) == AdjustedMantissa(m + if u then 1 else 0, am.power2 + TheShift(am))
    ensures Round(am, cb).power2 >= 0 && ToFloat(Round(am, cb)) == Cut(DownIndex(am) + if u then 1 else 0)
    ensures DownIndex(am) % 2 == ShiftRight(am.mantissa, TheShift(am)) % 2
  {
    var m := ShiftRight(am.mantissa, TheShift(am));
    if -am.power2 >= 11 {
      SubnormalSize(am.mantissa, TheShift(am));
      PackSubnormal(m + if u then 1 else 0);
    } else {
      HiddenIsPower();
      PackNormal(am.mantissa / 2048, am.power2 + 11, u);
    }
  }

  /** Rounding down gives the pattern below the value. */
  lemma RoundsDown(am: AdjustedMantissa)
    requires Half <= am.mantissa < B
    ensures var r := Round(am, RoundDown);
            r.power2 >= 0 && ToFloat(r) == Cut(DownIndex(am))
  {
    RoundsStep(am, RoundDown, false);
  }

  function Nearer(up: Decision): (AdjustedMantissa, nat) -> AdjustedMantissa {
    (a: AdjustedMantissa, shift: nat) => RoundNearestTieEven(a, shift, up)
  }

  /** Rounding with a decision gives that pattern or the next one.  The decision sees whether the
      pattern is odd, and how the bits shifted out compare with half a unit. */
  lemma RoundsByDecision(am: AdjustedMantissa, up: Decision)
    requires Half <= am.mantissa < B
    ensures var r, b := Round(am, Nearer(up)), DownIndex(am);
            && r.power2 >= 0
            && ToFloat(r) == Cut(b + if up(b % 2 == 1, Out(am) == HalfUnit(am), Out(am) > HalfUnit(am)) then 1 else 0)
  {
    var m := ShiftRight(am.mantissa, TheShift(am));
    DecisionSees(am, TheShift(am), up);
    RoundsStep(am, Nearer(up), up(m % 2 == 1, Out(am) == HalfUnit(am), Out(am) > HalfUnit(am)));
  }

  lemma DecisionSees(am: AdjustedMantissa, shift: nat, up: Decision)
    requires am.mantissa < B && shift == TheShift(am)
    ensures var m := ShiftRight(am.mantissa, shift);
            RoundNearestTieEven(am, shift, up)
            == AdjustedMantissa(m + if up(m % 2 == 1, Out(am) == HalfUnit(am), Out(am) > HalfUnit(am)) then 1 else 0,
                                am.power2 + shift)
  {
    LowBit(ShiftRight(am.mantissa, shift));
    AndMask(am.mantissa, shift);
    Word();
  }
}
