/** The slow path of decimal-to-binary conversion: the digits as a big integer decide the rounding. */
module DigitComp {
  import opened Powers
  import opened Limbs
  import opened BigInt
  import opened BigIntPowers
  import opened BigIntShift
  import opened BigIntHigh
  import opened Binary64
  import opened Rounding

  /** The exponent offset of binary64: 52 mantissa bits and minimum exponent -1023. */
  const Bias: nat := 1075

  // ---- Non-negative decimal exponents ----

  /** With `b` and its successor at `h` and `h + 1` times 2048 K, and the value at (2048 h + t) K or
      above it by less than K, the comparison of `t` with 1024 decides. */
  lemma ChoosesRight(n: nat, d: nat, b: nat, h: nat, t: nat, k: nat, truncated: bool)
    requires d > 0 && k > 0 && t < 2048
    requires Units(b) * d == (h * 2048) * k && Units(b + 1) * d == ((h + 1) * 2048) * k
    requires (h * 2048 + t) * k <= n < (h * 2048 + t + 1) * k && (truncated <==> n != (h * 2048 + t) * k)
    ensures Units(b) * d <= n < Units(b + 1) * d
    ensures Chosen(n, d, b)
            == b + if t > 1024 || (t == 1024 && truncated) || (b % 2 == 1 && t == 1024) then 1 else 0
  {
    MulLeft(h * 2048, h * 2048 + t, k);
    MulLeft(h * 2048 + t + 1, (h + 1) * 2048, k);
    var middle := (h * 2048 + 1024) * k;
    assert Units(b) * d + Units(b + 1) * d == 2 * middle by {
      assert (h * 2048) * k + ((h + 1) * 2048) * k == (2 * (h * 2048 + 1024)) * k;
    }
    if t > 1024 {
      MulLeftStrict(h * 2048 + 1024, h * 2048 + t, k);
    } else if t < 1024 {
      MulLeft(h * 2048 + t + 1, h * 2048 + 1024, k);
    }
  }

  /** The neighbours of the value, in the scale of `HighBits`. */
  lemma NormalNeighbours(b: nat, h: nat, bits: nat)
    requires Hidden <= h < 2 * Hidden && b == (bits + 1022) * Hidden + h - Hidden
    ensures Units(b) * B == (h * 2048) * (Pow(2, bits) * Unit())
    ensures Units(b + 1) * B == ((h + 1) * 2048) * (Pow(2, bits) * Unit())
  {
    var g, k := Pow(2, bits + 1021), Pow(2, bits) * Unit();
    assert b / Hidden == bits + 1022 && b % Hidden == h - Hidden by {
      DivUnique(b, Hidden, bits + 1022, h - Hidden);
    }
    NextUnits(b);
    OneMore(h, g);
    GapScale(bits);
    ScaleGap(h, g, k);
    ScaleGap(h + 1, g, k);
  }

  lemma ScaleGap(h: nat, g: nat, k: nat)
    requires g * B == 2048 * k
    ensures (h * g) * B == (h * 2048) * k
  {
    assert (h * g) * B == h * (g * B);
    assert h * (2048 * k) == (h * 2048) * k;
  }

  lemma GapScale(bits: nat)
    ensures Pow(2, bits + 1021) * B == 2048 * (Pow(2, bits) * Unit())
  {
    Word();
    HiddenIsPower();
    PowAdd(2, bits + 1021, 64);
    PowAdd(2, 11, bits + 1074);
    PowAdd(2, bits, 1074);
  }

  /** The decision of the non-negative path. */
  function AboveOrTie(truncated: bool): Decision {
    (isOdd: bool, isHalfway: bool, isAbove: bool) => isAbove || (isHalfway && truncated) || (isOdd && isHalfway)
  }

  lemma HighBitsRound(n: nat, hi: nat, truncated: bool, bits: nat)
    requires HighBits(n, hi, truncated, bits)
    ensures var r := Round(AdjustedMantissa(hi, bits - 64 + Bias), Nearer(AboveOrTie(truncated)));
            r.power2 >= 0 && RoundsTo(n * Unit(), 1, ToFloat(r))
  {
    var am := AdjustedMantissa(hi, bits - 64 + Bias);
    HiddenIsPower();
    RoundsByDecision(am, AboveOrTie(truncated));
    HighBitsChoose(n, hi, truncated, bits, DownIndex(am));
  }

  /** Which number is nearest, from the bits below the 53 leading ones. */
  lemma HighBitsChoose(n: nat, hi: nat, truncated: bool, bits: nat, b: nat)
    requires HighBits(n, hi, truncated, bits) && Hidden <= hi / 2048 < 2 * Hidden && b == (bits + 1022) * Hidden + hi / 2048 - Hidden
    ensures Nearest(n * Unit(), 1, b + if hi % 2048 > 1024 || (hi % 2048 == 1024 && truncated) || (b % 2 == 1 && hi % 2048 == 1024) then 1 else 0)
  {
    NormalNeighbours(b, hi / 2048, bits);
    PowPositive(2, bits);
    PowPositive(2, 1074);
    MulPositive(Pow(2, bits), Unit());
    Scaled(n, hi, truncated, Pow(2, bits), Unit());
    ChosenNearest(n * Unit(), b, hi / 2048, hi % 2048, Pow(2, bits) * Unit(), truncated);
  }

  lemma ChosenNearest(n: nat, b: nat, h: nat, t: nat, k: nat, truncated: bool)
    requires k > 0 && t < 2048
    requires Units(b) * B == (h * 2048) * k && Units(b + 1) * B == ((h + 1) * 2048) * k
    requires (h * 2048 + t) * k <= n * B < (h * 2048 + t + 1) * k && (truncated <==> n * B != (h * 2048 + t) * k)
    ensures Nearest(n, 1, b + if t > 1024 || (t == 1024 && truncated) || (b % 2 == 1 && t == 1024) then 1 else 0)
  {
    ChoosesRight(n * B, B, b, h, t, k, truncated);
    RoundsToChosen(n * B, B, b);
    NearestScales(n, 1, B, Chosen(n * B, B, b));
  }

  lemma Scaled(n: nat, hi: nat, truncated: bool, p: nat, u: nat)
    requires hi * p <= n * B < (hi + 1) * p && (truncated <==> hi * p != n * B) && u > 0
    ensures var x := (n * u) * B;
            hi * (p * u) <= x < (hi + 1) * (p * u) && (truncated <==> x != hi * (p * u))
  {
    assert (n * u) * B == (n * B) * u;
    assert hi * (p * u) == (hi * p) * u;
    assert (hi + 1) * (p * u) == ((hi + 1) * p) * u;
    MulCancel(n * B, hi * p, u);
    MulCancel(n * B, (hi + 1) * p, u);
  }

  /** The number read off, rounded. */
  method RoundNumber(v: StackVec) returns (answer: AdjustedMantissa)
    requires v.Valid() && Normal(v.Limbs())
    ensures v.Value() > 0 ==> answer.power2 >= 0 && RoundsTo(v.Value() * Unit(), 1, ToFloat(answer))
    ensures v.Value() == 0 ==> answer == AdjustedMantissa(0, 1022)
  {
    var hi, truncated := Hi64(v);
    var bits := BitLength(v);
    answer := Round(AdjustedMantissa(hi, bits - 64 + Bias), Nearer(AboveOrTie(truncated)));
    if v.length > 0 {
      HighBitsRound(v.Value(), hi, truncated, bits);
      if v.Value() == 0 {
        ZeroMeansEmpty(v.Limbs());
      }
    } else {
      ZeroRounds();
    }
  }

  /** `ok` tells whether the product with the power of ten fits.  If it does, and the number is not
      zero, the answer is the nearest binary64 number. */
  method PositiveDigitComp(v: StackVec, exponent: nat) returns (ok: bool, answer: AdjustedMantissa)
    requires v.Valid() && Normal(v.Limbs())
    modifies v, v.data
    ensures ok && old(v.Value()) > 0 ==>
              answer.power2 >= 0 && RoundsTo((old(v.Value()) * Pow(10, exponent)) * Unit(), 1, ToFloat(answer))
    ensures old(v.Value()) > 0 ==> (ok <==> old(v.Value()) * Pow(10, exponent) < v.Limit())
    ensures ok && old(v.Value()) == 0 ==> answer == AdjustedMantissa(0, 1022)
  {
    ghost var was := v.Value();
    ok := Pow10(v, exponent);
    if was > 0 {
      PowPositive(10, exponent);
      MulPositive(was, Pow(10, exponent));
    }
    answer := AdjustedMantissa(0, 0);
    if ok {
      answer := RoundNumber(v);
    }
  }

  lemma ZeroRounds()
    ensures Round(AdjustedMantissa(0, 1011), Nearer(AboveOrTie(false))) == AdjustedMantissa(0, 1022)
  {
    HiddenIsPower();
    AndZero(HiddenMask);
    AndMask(0, 11);
    AndZero(1);
  }

  /** The number zero is outside what the path is for: its answer is one half, not zero. */
  lemma ZeroIsWrong()
    ensures !RoundsTo(0, 1, ToFloat(AdjustedMantissa(0, 1022)))
  {
    FieldsDisjoint(0, 1022);
    NearestBelow(0, 1, 0);
    forall i: nat | Nearest(0, 1, i)
      ensures i == 0
    {
      NearestIsUnique(0, 1, 0, i);
    }
  }

  // ---- Negative decimal exponents ----

  /** The halfway point between the number with pattern `b` and the next one. */
  function ToExtendedHalfway(b: nat): AdjustedMantissa {
    var extended := if b / Hidden == 0 then AdjustedMantissa(b, 1 - Bias)
                    else AdjustedMantissa(b % Hidden + Hidden, b / Hidden - Bias);
    AdjustedMantissa(2 * extended.mantissa + 1, extended.power2 - 1)
  }

  lemma HalfwayIsMiddle(b: nat)
    ensures var h := ToExtendedHalfway(b);
            && 0 < h.mantissa < B && h.power2 + Bias >= 0
            && Units(b) + Units(b + 1) == h.mantissa * Pow(2, h.power2 + Bias)
  {
    NextUnits(b);
    if b < Hidden {
      assert Pow(2, 0) == 1;
    } else {
      var m, g := b % Hidden + Hidden, Pow(2, b / Hidden - 1);
      assert (2 * m + 1) * g == m * g + (m * g + g);
    }
  }

  /** The power of two common to both sides. */
  function Common(e: int): nat
    requires e + Bias >= 0
  {
    if e < 0 then e + Bias else Bias
  }

  lemma ActualSide(m: nat, e: int)
    requires e + Bias >= 0
    ensures 2 * (m * Unit()) == (m * Pow(2, if e < 0 then -e else 0)) * Pow(2, Common(e))
  {
    var p := if e < 0 then -e else 0;
    PowAdd(2, p, Common(e));
    DoubleUnit();
    Reassociate(m, Pow(2, p), Pow(2, Common(e)), Unit());
  }

  lemma DoubleUnit()
    ensures 2 * Unit() == Pow(2, Bias)
  {
  }

  lemma Reassociate(m: nat, p: nat, s: nat, u: nat)
    requires p * s == 2 * u
    ensures 2 * (m * u) == (m * p) * s
  {
    assert (m * p) * s == m * (p * s);
    assert m * (2 * u) == 2 * (m * u);
  }

  lemma TheorSide(t: nat, f: int, k: nat)
    requires f + Bias >= 0
    ensures var e := f + k;
            (t * Pow(2, f + Bias)) * Pow(10, k) == ((t * Pow(5, k)) * Pow(2, if e > 0 then e else 0)) * Pow(2, Common(e))
  {
    var e := f + k;
    PowAdd(2, f + Bias, k);
    PowAdd(2, if e > 0 then e else 0, Common(e));
    PowProduct(5, 2, k);
    MiddleSide(t, Pow(5, k), Pow(2, f + Bias), Pow(2, k), Pow(2, if e > 0 then e else 0), Pow(2, Common(e)));
  }

  /** The comparison with the halfway point, with both sides scaled to integers. */
  lemma ScaledSides(m: nat, t: nat, f: int, k: nat)
    requires f + Bias >= 0
    ensures var e := f + k;
            var actual := m * Pow(2, if e < 0 then -e else 0);
            var theor := (t * Pow(5, k)) * Pow(2, if e > 0 then e else 0);
            var n, middle := 2 * (m * Unit()), (t * Pow(2, f + Bias)) * Pow(10, k);
            && (actual < theor <==> n < middle) && (actual == theor <==> n == middle)
  {
    var e := f + k;
    ActualSide(m, e);
    TheorSide(t, f, k);
    PowPositive(2, Common(e));
    MulCancel(m * Pow(2, if e < 0 then -e else 0), (t * Pow(5, k)) * Pow(2, if e > 0 then e else 0), Pow(2, Common(e)));
  }

  lemma MiddleSide(t: nat, five: nat, a: nat, two: nat, q: nat, s: nat)
    requires a * two == q * s
    ensures (t * a) * (five * two) == ((t * five) * q) * s
  {
    assert (t * a) * (five * two) == (t * five) * (a * two) by {
      Regroup(t, a, five, two);
    }
    assert (t * five) * (q * s) == ((t * five) * q) * s;
  }

  /** Scale both numbers and compare them. */
  method CompareDigits(v: StackVec, w: StackVec, k: nat, e: int) returns (ok: bool, ord: int)
    requires v != w && v.data != w.data && Positive(v) && Positive(w)
    modifies v, v.data, w, w.data
    ensures var actual, theor := old(v.Value()) * Pow(2, if e < 0 then -e else 0),
                                 (old(w.Value()) * Pow(5, k)) * Pow(2, if e > 0 then e else 0);
            && (ok <==> actual < v.Limit() && theor < w.Limit())
            && (ok ==> (ord < 0 <==> actual < theor) && (ord > 0 <==> actual > theor))
  {
    ghost var m, t := v.Value(), w.Value() * Pow(5, k);
    NoScale(m);
    NoScale(t);
    ValueBelow(v);
    ord := 0;
    ok := Pow5(w, k);
    if ok && e > 0 {
      ok := Shl(w, e);
    } else if ok && e < 0 {
      ok := Shl(v, -e);
    } else if !ok {
      ScaleUp(t, if e > 0 then e else 0);
    }
    if ok {
      ord := Compare(v, w);
    }
  }

  lemma ValueBelow(v: StackVec)
    requires v.Valid()
    ensures v.Value() < v.Limit()
  {
    ValFits(v.Limbs(), v.data.Length);
  }

  lemma NoScale(x: nat)
    ensures x * Pow(2, 0) == x
  {
  }

  lemma ScaleUp(x: nat, n: nat)
    ensures x <= x * Pow(2, n)
  {
    PowPositive(2, n);
    MulLeft(1, Pow(2, n), x);
    assert Pow(2, n) * x == x * Pow(2, n);
  }

  /** The decision of the negative path: what the comparison said, the parity on a tie. */
  function ByOrder(ord: int): Decision {
    (isOdd: bool, isHalfway: bool, isAbove: bool) => ord > 0 || (ord == 0 && isOdd)
  }

  /** The value n / d lies between the number `b` and the next one; infinity has no next one. */
  ghost predicate Brackets(b: nat, n: nat, d: nat) {
    Units(b) * d <= n && (b < INF ==> n < Units(b + 1) * d)
  }

  lemma OrderDecides(am: AdjustedMantissa, n: nat, d: nat, ord: int)
    requires d > 0 && Half <= am.mantissa < B && Brackets(Cut(DownIndex(am)), n, d)
    requires var b := Cut(DownIndex(am));
             && (ord < 0 <==> 2 * n < (Units(b) + Units(b + 1)) * d)
             && (ord > 0 <==> 2 * n > (Units(b) + Units(b + 1)) * d)
    ensures var r := Round(am, Nearer(ByOrder(ord)));
            r.power2 >= 0 && RoundsTo(n, d, ToFloat(r))
  {
    var b := DownIndex(am);
    RoundsByDecision(am, ByOrder(ord));
    if b >= INF {
      Overflows(n, d);
    } else {
      TieDecides(n, d, b, ord);
      RoundsToChosen(n, d, b);
    }
  }

  lemma TieDecides(n: nat, d: nat, b: nat, ord: int)
    requires ord < 0 <==> 2 * n < (Units(b) + Units(b + 1)) * d
    requires ord > 0 <==> 2 * n > (Units(b) + Units(b + 1)) * d
    ensures Chosen(n, d, b) == b + if ByOrder(ord)(b % 2 == 1, false, false) then 1 else 0
  {
    assert (Units(b) + Units(b + 1)) * d == Units(b) * d + Units(b + 1) * d;
  }

  /** A big integer holding one word. */
  method FromWord(value: Limb, limbs: nat) returns (v: StackVec)
    requires limbs >= 1
    ensures fresh(v) && fresh(v.data) && v.Valid() && v.Value() == value && Normal(v.Limbs()) && v.data.Length == limbs
  {
    v := new StackVec(limbs);
    var pushed := v.TryPush(value);
    ValSnoc([], value);
    assert Pow(B, 0) == 1;
    assert v.Limbs() == [] + [value];
    v.Normalize();
  }

  /** Both sides of the comparison with the halfway point above `b` fit into the limbs. */
  ghost predicate SidesFit(m: nat, b: nat, k: nat, limit: nat) {
    ScaledFit(m, ToExtendedHalfway(b), k, limit)
  }

  ghost predicate ScaledFit(m: nat, h: AdjustedMantissa, k: nat, limit: nat) {
    ActualFits(m, h.power2 + k, limit) && TheorFits(h.mantissa, h.power2 + k, k, limit)
  }

  ghost predicate ActualFits(m: nat, e: int, limit: nat) {
    m * Pow(2, if e < 0 then -e else 0) < limit
  }

  ghost predicate TheorFits(t: nat, e: int, k: nat, limit: nat) {
    (t * Pow(5, k)) * Pow(2, if e > 0 then e else 0) < limit
  }

  /** If the value lies between the rounded-down guess and the next number, the answer is the nearest
      binary64 number.  The decimal exponent is -k. */
  method NegativeDigitComp(v: StackVec, am: AdjustedMantissa, k: nat) returns (ok: bool, answer: AdjustedMantissa)
    requires Positive(v) && Half <= am.mantissa < B
    modifies v, v.data
    ensures ok && Brackets(Cut(DownIndex(am)), old(v.Value()) * Unit(), Pow(10, k)) ==>
              answer.power2 >= 0 && RoundsTo(old(v.Value()) * Unit(), Pow(10, k), ToFloat(answer))
    ensures ok <==> SidesFit(old(v.Value()), Cut(DownIndex(am)), k, v.Limit())
  {
    ghost var m := v.Value();
    RoundsDown(am);
    var b := ToFloat(Round(am, RoundDown));
    HalfwayIsMiddle(b);
    var theor := ToExtendedHalfway(b);
    var w := FromWord(theor.mantissa, v.data.Length);
    var ord;
    ok, ord := CompareDigits(v, w, k, theor.power2 + k);
    answer := Round(am, Nearer(ByOrder(ord)));
    if ok && Brackets(b, m * Unit(), Pow(10, k)) {
      ScaledDecides(am, b, m, theor, k, ord);
    }
  }

  /** The order of the scaled sides decides. */
  lemma ScaledDecides(am: AdjustedMantissa, b: nat, m: nat, h: AdjustedMantissa, k: nat, ord: int)
    requires Half <= am.mantissa < B && b == Cut(DownIndex(am)) && Brackets(b, m * Unit(), Pow(10, k))
    requires 0 < h.mantissa && h.power2 + Bias >= 0 && Units(b) + Units(b + 1) == h.mantissa * Pow(2, h.power2 + Bias)
    requires var e := h.power2 + k;
             var actual, theor := m * Pow(2, if e < 0 then -e else 0), (h.mantissa * Pow(5, k)) * Pow(2, if e > 0 then e else 0);
             (ord < 0 <==> actual < theor) && (ord > 0 <==> actual > theor)
    ensures var r := Round(am, Nearer(ByOrder(ord)));
            r.power2 >= 0 && RoundsTo(m * Unit(), Pow(10, k), ToFloat(r))
  {
    ScaledSides(m, h.mantissa, h.power2, k);
    PowPositive(10, k);
    OrderDecides(am, m * Unit(), Pow(10, k), ord);
  }
}
