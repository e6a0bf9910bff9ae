/** From a scanned literal to the nearest binary64 number, by way of a big integer. */
module SlowPath {
  import opened Powers
  import opened Limbs
  import opened BigInt
  import opened BigIntPowers
  import opened BigIntHigh
  import opened Binary64
  import opened Rounding
  import opened DigitComp
  import opened Words
  import opened Digits
  import opened Decimal
  import opened ParseMantissa
  import opened Sufficient
  import opened Capacity

  /** m * 10^k, one factor at a time. */
  function Tens(m: nat, k: nat): nat {
    if k == 0 then m else 10 * Tens(m, k - 1)
  }

  lemma {:induction false} TensIs(m: nat, k: nat)
    ensures Tens(m, k) == m * Pow(10, k)
  {
    if k > 0 {
      TensIs(m, k - 1);
      TenTimes(m, Pow(10, k - 1));
    }
  }

  /** The numerator and denominator of m * 10^e. */
  function Num(m: nat, e: int): nat {
    if e >= 0 then Tens(m, e) else m
  }

  function Den(e: int): nat {
    if e >= 0 then 1 else Pow(10, -e)
  }

  lemma DenPositive(e: int)
    ensures Den(e) >= 1
  {
    if e < 0 {
      PowPositive(10, -e);
    }
  }

  /** The binary64 number nearest to v * 10^e, ties to even, or infinity. */
  ghost function Nearest64(v: nat, e: int): nat {
    DenPositive(e);
    Rounded(Num(v, e) * Unit(), Den(e))
  }

  lemma IsNearest(v: nat, e: int, r: nat)
    requires RoundsTo(Num(v, e) * Unit(), Den(e), r)
    ensures r == Nearest64(v, e)
  {
    DenPositive(e);
    RoundedIs(Num(v, e) * Unit(), Den(e), r);
  }

  /** v * 10^e lies between the number `b` and the next one. */
  ghost predicate Near(b: nat, v: nat, e: int) {
    Brackets(b, Num(v, e) * Unit(), Den(e))
  }

  /** Enough significant digits to tell any two neighbours and their midpoint apart. */
  const MaxDigits: nat := 769

  lemma DigitsFit()
    ensures Pow(10, MaxDigits + 1) <= Pow(B, 62)
  {
    PowBase(10, 16, 770);
    assert Pow(2, 4) == 16;
    PowPow(2, 4, 770);
    BigIntShift.Word();
    PowPow(2, 64, 62);
    PowMonotone(2, 3080, 3968);
  }

  /** The exponent of the leading digit, from the mantissa of at most nineteen digits. */
  lemma LeadingExponent(a: Parsed, explicit: int, e: int)
    requires Scanned(a, explicit) && a.mantissa > 0 && e >= a.exponent
    requires Pow(10, e - a.exponent) <= a.mantissa < Pow(10, e - a.exponent + 1)
    ensures e + 1 == explicit - |a.fraction| + Sig(a.integer + a.fraction)
  {
    var d := a.integer + a.fraction;
    if a.tooManyDigits {
      NineteenDigits();
      SamePower(a.mantissa, e - a.exponent, 18);
    } else {
      SigFromValue(d, e - a.exponent);
    }
  }

  lemma SamePower(m: nat, j: nat, k: nat)
    requires Pow(10, j) <= m < Pow(10, j + 1) && Pow(10, k) <= m < Pow(10, k + 1)
    ensures j == k
  {
    if j < k {
      PowMonotone(10, j + 1, k);
    } else if k < j {
      PowMonotone(10, k + 1, j);
    }
  }

  lemma KeptPositive(s: Text)
    requires AllDigits(s) && DigitValue(s) > 0
    ensures Kept(Strip(s), MaxDigits) > 0
  {
    StripSplits(s);
    StripKeepsValue(s);
    var f := First(Strip(s), MaxDigits);
    LeadingDigit(f);
    PowPositive(10, |f| - 1);
  }

  /** The number kept of the digits, and its exponent. */
  ghost function Mantissa(a: Parsed): int {
    Kept(Strip(a.integer + a.fraction), MaxDigits)
  }

  ghost function Exponent(a: Parsed, explicit: int): int {
    explicit - |a.fraction| + Sig(a.integer + a.fraction) - KeptDigits(Strip(a.integer + a.fraction), MaxDigits)
  }

  lemma ScannedPositive(a: Parsed, explicit: int)
    requires Scanned(a, explicit) && a.mantissa > 0
    ensures Mantissa(a) > 0 && AllDigits(a.integer) && AllDigits(a.fraction)
  {
    var d := a.integer + a.fraction;
    if a.tooManyDigits {
      PowPositive(10, Sig(d) - 19);
      MulPositive(a.mantissa, Pow(10, Sig(d) - 19));
    }
    KeptPositive(d);
    assert forall i :: 0 <= i < |a.integer| ==> a.integer[i] == d[i];
    assert forall i :: 0 <= i < |a.fraction| ==> a.fraction[i] == d[|a.integer| + i];
  }

  method Dispatch(v: StackVec, am: AdjustedMantissa, e: int) returns (ok: bool, answer: AdjustedMantissa)
    requires Positive(v) && Half <= am.mantissa < B
    modifies v, v.data
    ensures ok && (e < 0 ==> Near(Cut(DownIndex(am)), old(v.Value()), e)) ==>
              answer.power2 >= 0 && ToFloat(answer) == Nearest64(old(v.Value()), e)
    ensures e >= 0 ==> (ok <==> old(v.Value()) * Pow(10, e) < v.Limit())
    ensures e < 0 ==> (ok <==> SidesFit(old(v.Value()), Cut(DownIndex(am)), -e, v.Limit()))
  {
    ghost var m := v.Value();
    TensIs(m, if e >= 0 then e else 0);
    if e >= 0 {
      ok, answer := PositiveDigitComp(v, e);
    } else {
      ok, answer := NegativeDigitComp(v, am, -e);
    }
    if ok && (e < 0 ==> Near(Cut(DownIndex(am)), m, e)) {
      IsNearest(m, e, ToFloat(answer));
    }
  }

  /** The digits decide.  `am` is the normalised guess of the fast path; it is used when the exponent is
      negative, and then has to be within one number of the value. */
  method DigitCompare(a: Parsed, am: AdjustedMantissa, ghost explicit: int) returns (ok: bool, answer: AdjustedMantissa)
    requires Scanned(a, explicit) && a.mantissa > 0 && Half <= am.mantissa < B
    ensures Mantissa(a) > 0
    ensures var m, e := Mantissa(a), Exponent(a, explicit);
            ok && (e < 0 ==> Near(Cut(DownIndex(am)), m, e)) ==> answer.power2 >= 0 && ToFloat(answer) == Nearest64(m, e)
    ensures var m, e := Mantissa(a), Exponent(a, explicit);
            ok <==> if e >= 0 then m * Pow(10, e) < Pow(B, 62) else SidesFit(m, Cut(DownIndex(am)), -e, Pow(B, 62))
  {
    var v, e := BuildMantissa(a, explicit);
    ok, answer := Dispatch(v, am, e);
  }

  /** The digits as a big integer, and its decimal exponent. */
  method BuildMantissa(a: Parsed, ghost explicit: int) returns (v: StackVec, e: int)
    requires Scanned(a, explicit) && a.mantissa > 0
    ensures fresh(v) && fresh(v.data) && Positive(v) && v.data.Length == 62
    ensures v.Value() == Mantissa(a) && e == Exponent(a, explicit)
  {
    ScannedPositive(a, explicit);
    var sci := ScientificExponent(a.mantissa, a.exponent);
    LeadingExponent(a, explicit, sci);
    v := new StackVec(62);
    DigitsFit();
    var digits := ParseDigits(v, a.integer, a.fraction, MaxDigits);
    e := sci + 1 - digits;
  }

  // ---- What was kept rounds like the whole literal ----

  ghost function Up(y: int): nat {
    if y >= 0 then y else 0
  }

  /** v * 10^e between multiples of 10^(e + k), from v between multiples of 10^k. */
  lemma WithinDecimal(v: nat, e: int, k: nat, m: nat)
    requires Tens(m, k) < v < Tens(m + 1, k)
    ensures Within(Num(v, e), Den(e), m, Up(e + k), Up(-(e + k)))
  {
    TensIs(m, k);
    TensIs(m + 1, k);
    if e >= 0 {
      TensIs(v, e);
      WithinWhole(v, e, k, m);
    } else if e + k >= 0 {
      WithinMixed(v, -e, k, m);
    } else {
      WithinFraction(v, -e, k, m);
    }
  }

  lemma WithinWhole(v: nat, e: nat, k: nat, m: nat)
    requires m * Pow(10, k) < v < (m + 1) * Pow(10, k)
    ensures Within(v * Pow(10, e), 1, m, e + k, 0)
  {
    assert Pow(10, 0) == 1;
    PowAdd(10, k, e);
    PowPositive(10, e);
    ScaleBetween(v, m, Pow(10, k), Pow(10, e));
  }

  lemma WithinMixed(v: nat, f: nat, k: nat, m: nat)
    requires m * Pow(10, k) < v < (m + 1) * Pow(10, k) && f <= k
    ensures Within(v, Pow(10, f), m, k - f, 0)
  {
    assert Pow(10, 0) == 1;
    PowAdd(10, k - f, f);
    MixedBetween(v, m, Pow(10, k - f), Pow(10, f), Pow(10, k));
  }

  lemma MixedBetween(v: nat, m: nat, p: nat, q: nat, r: nat)
    requires m * r < v < (m + 1) * r && r == p * q
    ensures (m * p) * q < v * 1 < ((m + 1) * p) * q
  {
    Associate(m, p, q);
    Associate(m + 1, p, q);
  }

  lemma WithinFraction(v: nat, f: nat, k: nat, m: nat)
    requires m * Pow(10, k) < v < (m + 1) * Pow(10, k) && k <= f
    ensures Within(v, Pow(10, f), m, 0, f - k)
  {
    assert Pow(10, 0) == 1;
    PowAdd(10, k, f - k);
    PowPositive(10, f - k);
    ScaleBetween(v, m, Pow(10, k), Pow(10, f - k));
  }

  lemma Associate(a: int, b: int, c: int)
    ensures (a * b) * c == a * (b * c)
  {
  }

  lemma ScaleBetween(v: nat, m: nat, p: nat, q: nat)
    requires m * p < v < (m + 1) * p && q >= 1
    ensures m * (p * q) < v * q < (m + 1) * (p * q)
  {
    assert m * (p * q) == (m * p) * q && (m + 1) * (p * q) == ((m + 1) * p) * q;
    MulLeftStrict(m * p, v, q);
    MulLeftStrict(v, (m + 1) * p, q);
  }

  /** Equal fractions round alike. */
  lemma EqualFractions(n: nat, d: nat, n': nat, d': nat) returns (r: nat)
    requires d >= 1 && d' >= 1 && n * d' == n' * d
    ensures RoundsTo(n, d, r) && RoundsTo(n', d', r)
  {
    MulPositive(d, d');
    SomewhereAbove(n * d', d * d');
    var b := Floor(n * d', d * d', 0, n * d' + 1);
    RoundsToChosen(n * d', d * d', b);
    var i := Chosen(n * d', d * d', b);
    NearestScales(n, d, d', i);
    assert d * d' == d' * d;
    NearestScales(n', d', d, i);
    r := if i < INF then i else INF;
  }

  lemma ShiftedFraction(m: nat, k: nat, e: int)
    ensures Num(Tens(m, k), e) * Den(e + k) == Num(m, e + k) * Den(e)
  {
    if e >= 0 {
      TensTwice(m, k, e);
    } else if e + k >= 0 {
      TensTwice(m, e + k, -e);
      TensIs(Tens(m, e + k), -e);
    } else {
      TensIs(m, k);
      PowAdd(10, k, -(e + k));
      Associate(m, Pow(10, k), Pow(10, -(e + k)));
    }
  }

  lemma {:induction false} TensTwice(m: nat, j: nat, k: nat)
    ensures Tens(Tens(m, j), k) == Tens(m, j + k)
  {
    if k > 0 {
      TensTwice(m, j, k - 1);
    }
  }

  lemma {:induction false} TensAdd(m: nat, n: nat, k: nat)
    ensures Tens(m, k) + Tens(n, k) == Tens(m + n, k)
  {
    if k > 0 {
      TensAdd(m, n, k - 1);
    }
  }

  /** The first digits, and the value of the others. */
  lemma {:induction false} SplitValue(s: Text, a: Text, b: Text)
    requires AllDigits(b) && s == a + b && DigitValue(a) >= 0
    ensures DigitValue(s) == Tens(DigitValue(a), |b|) + DigitValue(b) && 0 <= DigitValue(b) < Tens(1, |b|)
    decreases |b|
  {
    if b != [] {
      var n := |b| - 1;
      assert s == (a + b[..n]) + [b[n]];
      SplitValue(a + b[..n], a, b[..n]);
      ValueSnoc(a + b[..n], b[n]);
    } else {
      assert s == a;
    }
  }

  /** How v * 10^e was shortened to kept * 10^e'. */
  datatype Shortening = Whole | Exact(m: nat, k: nat) | Cutoff(m: nat, k: nat)

  ghost predicate Shortens(how: Shortening, v: nat, e: int, kept: int, e': int) {
    match how
    case Whole => kept == v && e' == e
    case Exact(m, k) => v == Tens(m, k) && kept == m && e' == e + k
    case Cutoff(m, k) => Tens(m, k) < v < Tens(m + 1, k) && m >= Pow(10, 768) && k >= 1 && kept == m * 10 + 1 && e' == e + k - 1
  }

  lemma KeptLong(s: Text, max: nat, v: nat, m: nat)
    requires AllDigits(s) && |s| > max > 0 && v == DigitValue(s) && m == DigitValue(s[..max])
    ensures if Sticky(s, max) then Tens(m, |s| - max) < v < Tens(m + 1, |s| - max) else v == Tens(m, |s| - max)
  {
    assert s == s[..max] + s[max..];
    PartsKept(s, s[..max], s[max..], v, m);
  }

  lemma PartsKept(s: Text, a: Text, b: Text, v: nat, m: nat)
    requires AllDigits(b) && s == a + b && v == DigitValue(s) && m == DigitValue(a)
    ensures if AllZero(b) then v == Tens(m, |b|) else Tens(m, |b|) < v < Tens(m + 1, |b|)
  {
    SplitValue(s, a, b);
    TensAdd(m, 1, |b|);
    ZeroOnlyIf(b);
  }

  /** How a string of significant digits is shortened. */
  lemma HowKept(s: Text, e: int) returns (how: Shortening)
    requires AllDigits(s) && s != [] && s[0] != Zero && DigitValue(s) >= 0
    ensures Shortens(how, DigitValue(s), e, Kept(s, MaxDigits), e + |s| - KeptDigits(s, MaxDigits))
  {
    if |s| <= MaxDigits {
      AllKept(s, MaxDigits);
      how := Whole;
    } else {
      ValueNotNegative(s[..MaxDigits]);
      KeptLong(s, MaxDigits, DigitValue(s), DigitValue(s[..MaxDigits]));
      LeadingDigit(s[..MaxDigits]);
      how := if Sticky(s, MaxDigits) then Cutoff(DigitValue(s[..MaxDigits]), |s| - MaxDigits)
             else Exact(DigitValue(s[..MaxDigits]), |s| - MaxDigits);
    }
  }

  lemma ZeroOnlyIf(b: Text)
    requires AllDigits(b)
    ensures DigitValue(b) == 0 <==> AllZero(b)
  {
    if AllZero(b) {
      ZeroValue(b);
    } else {
      var i :| 0 <= i < |b| && b[i] != Zero;
      NonzeroDigit(b, i);
    }
  }

  lemma NonzeroDigit(s: Text, i: nat)
    requires AllDigits(s) && i < |s| && s[i] != Zero
    ensures DigitValue(s) > 0
  {
    assert s == s[..i] + s[i..];
    ValueConcat(s[..i], s[i..]);
    ValueBound(s[..i]);
    LeadingDigit(s[i..]);
    PowPositive(10, |s| - i - 1);
    PowPositive(10, |s| - i);
    MulLeft(0, DigitValue(s[..i]), Pow(10, |s| - i));
  }

  lemma BothNearest(v: nat, e: int, v': nat, e': int, r: nat)
    requires RoundsTo(Num(v, e) * Unit(), Den(e), r) && RoundsTo(Num(v', e') * Unit(), Den(e'), r)
    ensures Nearest64(v, e) == Nearest64(v', e')
  {
    IsNearest(v, e, r);
    IsNearest(v', e', r);
  }

  lemma StickyRoundsAlike(v: nat, e: int, k: nat, m: nat)
    requires Tens(m, k) < v < Tens(m + 1, k) && m >= Pow(10, 768) && k >= 1
    ensures Nearest64(v, e) == Nearest64(m * 10 + 1, e + k - 1)
  {
    WithinDecimal(v, e, k, m);
    assert Tens(m, 1) == 10 * m && Tens(m + 1, 1) == 10 * m + 10;
    WithinDecimal(m * 10 + 1, e + k - 1, 1, m);
    WithinRoundsAlike(v, e, m * 10 + 1, e + k - 1, m, Up(e + k), Up(-(e + k)));
  }

  lemma WithinRoundsAlike(v: nat, e: int, v': nat, e': int, m: nat, u: nat, z: nat)
    requires m >= Pow(10, 768) && (u == 0 || z == 0)
    requires Within(Num(v, e), Den(e), m, u, z) && Within(Num(v', e'), Den(e'), m, u, z)
    ensures Nearest64(v, e) == Nearest64(v', e')
  {
    DenPositive(e);
    DenPositive(e');
    var r := SameRounding(Num(v, e), Den(e), Num(v', e'), Den(e'), m, u, z);
    BothNearest(v, e, v', e', r);
  }

  lemma EqualRoundsAlike(v: nat, e: int, v': nat, e': int)
    requires Num(v, e) * Den(e') == Num(v', e') * Den(e)
    ensures Nearest64(v, e) == Nearest64(v', e')
  {
    DenPositive(e);
    DenPositive(e');
    CrossUnit(Num(v, e), Den(e'), Num(v', e'), Den(e), Unit());
    var r := EqualFractions(Num(v, e) * Unit(), Den(e), Num(v', e') * Unit(), Den(e'));
    BothNearest(v, e, v', e', r);
  }

  lemma ExactRoundsAlike(m: nat, e: int, k: nat)
    ensures Nearest64(Tens(m, k), e) == Nearest64(m, e + k)
  {
    ShiftedFraction(m, k, e);
    EqualRoundsAlike(Tens(m, k), e, m, e + k);
  }

  /** A shortened number rounds like the number. */
  lemma ShortensRoundsAlike(how: Shortening, v: nat, e: int, kept: nat, e': int)
    requires Shortens(how, v, e, kept, e')
    ensures Nearest64(v, e) == Nearest64(kept, e')
  {
    match how
    case Whole =>
    case Exact(m, k) => ExactRoundsAlike(m, e, k);
    case Cutoff(m, k) => StickyRoundsAlike(v, e, k, m);
  }

  lemma CrossUnit(a: nat, b: nat, c: nat, d: nat, u: nat)
    requires a * b == c * d
    ensures (a * u) * b == (c * u) * d
  {
    assert (a * u) * b == (a * b) * u;
    assert (c * u) * d == (c * d) * u;
  }

  // ---- The guess brackets what was kept if it brackets the literal ----

  lemma BracketsAlikeFractions(b: nat, n: nat, d: nat, n': nat, d': nat)
    requires d >= 1 && d' >= 1 && n * d' == n' * d && Brackets(b, n, d)
    ensures Brackets(b, n', d')
  {
    SameSide(Units(b), n, d, n', d');
    SameSide(Units(b + 1), n, d, n', d');
  }

  lemma SameSide(x: nat, n: nat, d: nat, n': nat, d': nat)
    requires d >= 1 && d' >= 1 && n * d' == n' * d
    ensures x * d <= n <==> x * d' <= n'
  {
    assert (x * d) * d' == (x * d') * d;
    MulCancel(n, x * d, d');
    MulCancel(n', x * d', d);
  }

  lemma BracketsAlikeWithin(b: nat, n: nat, d: nat, n': nat, d': nat, m: nat, u: nat, z: nat)
    requires m >= Pow(10, 768) && (u == 0 || z == 0) && d >= 1 && d' >= 1 && b <= INF
    requires Within(n, d, m, u, z) && Within(n', d', m, u, z) && Brackets(b, n * Unit(), d)
    ensures Brackets(b, n' * Unit(), d')
  {
    SideOfNumber(b, n, d, m, u, z);
    SideOfNumber(b, n', d', m, u, z);
    if b < INF {
      SideOfNumber(b + 1, n, d, m, u, z);
      SideOfNumber(b + 1, n', d', m, u, z);
    }
  }

  lemma StickyBracketsAlike(b: nat, v: nat, e: int, k: nat, m: nat)
    requires Tens(m, k) < v < Tens(m + 1, k) && m >= Pow(10, 768) && k >= 1 && b <= INF
    ensures Near(b, v, e) == Near(b, m * 10 + 1, e + k - 1)
  {
    WithinDecimal(v, e, k, m);
    assert Tens(m, 1) == 10 * m && Tens(m + 1, 1) == 10 * m + 10;
    WithinDecimal(m * 10 + 1, e + k - 1, 1, m);
    DenPositive(e);
    DenPositive(e + k - 1);
    var n, d, n', d' := Num(v, e), Den(e), Num(m * 10 + 1, e + k - 1), Den(e + k - 1);
    if Near(b, v, e) {
      BracketsAlikeWithin(b, n, d, n', d', m, Up(e + k), Up(-(e + k)));
    } else if Near(b, m * 10 + 1, e + k - 1) {
      BracketsAlikeWithin(b, n', d', n, d, m, Up(e + k), Up(-(e + k)));
    }
  }

  lemma ExactBracketsAlike(b: nat, m: nat, e: int, k: nat)
    ensures Near(b, Tens(m, k), e) == Near(b, m, e + k)
  {
    ShiftedFraction(m, k, e);
    DenPositive(e);
    DenPositive(e + k);
    var n, n' := Num(Tens(m, k), e), Num(m, e + k);
    CrossUnit(n, Den(e + k), n', Den(e), Unit());
    if Near(b, Tens(m, k), e) {
      BracketsAlikeFractions(b, n * Unit(), Den(e), n' * Unit(), Den(e + k));
    } else if Near(b, m, e + k) {
      BracketsAlikeFractions(b, n' * Unit(), Den(e + k), n * Unit(), Den(e));
    }
  }

  lemma ShortensBracketsAlike(b: nat, how: Shortening, v: nat, e: int, kept: nat, e': int)
    requires Shortens(how, v, e, kept, e') && b <= INF
    ensures Near(b, v, e) == Near(b, kept, e')
  {
    match how
    case Whole =>
    case Exact(m, k) => ExactBracketsAlike(b, m, e, k);
    case Cutoff(m, k) => StickyBracketsAlike(b, v, e, k, m);
  }

  // ---- The literal ----

  /** The exponent of the last digit. */
  ghost function LastExponent(a: Parsed, explicit: int): int {
    explicit - |a.fraction|
  }

  lemma ScannedDigits(a: Parsed, explicit: int)
    requires Scanned(a, explicit) && a.mantissa > 0
    ensures var d, s := a.integer + a.fraction, Strip(a.integer + a.fraction);
            && AllDigits(s) && s != [] && s[0] != Zero && DigitValue(s) == DigitValue(d) && DigitValue(d) > 0
  {
    var d := a.integer + a.fraction;
    if a.tooManyDigits {
      PowPositive(10, Sig(d) - 19);
      MulPositive(a.mantissa, Pow(10, Sig(d) - 19));
    }
    StripSplits(d);
    StripKeepsValue(d);
  }

  /** The exponents the fast path does not send to zero or infinity. */
  predicate InRange(a: Parsed) {
    -342 <= a.exponent <= 308
  }

  /** Then the limbs suffice. */
  lemma AlwaysFits(a: Parsed, explicit: int, b: nat, limbs: nat)
    requires Scanned(a, explicit) && a.mantissa > 0 && InRange(a) && Mantissa(a) > 0 && limbs >= 62
    ensures var m, e := Mantissa(a), Exponent(a, explicit);
            e >= 0 ==> m * Pow(10, e) < Pow(B, limbs)
    ensures var m, e := Mantissa(a), Exponent(a, explicit);
            e < 0 && Near(b, m, e) ==> SidesFit(m, b, -e, Pow(B, limbs))
  {
    ScannedDigits(a, explicit);
    var d, s, e := a.integer + a.fraction, Strip(a.integer + a.fraction), Exponent(a, explicit);
    KeptBound(s, MaxDigits);
    var digits := KeptDigits(s, MaxDigits);
    SomeSignificant(d);
    assert -341 <= digits + e <= 327;
    if e >= 0 {
      WholeFits(Mantissa(a), digits, e, limbs);
    } else if Near(b, Mantissa(a), e) {
      SidesAlwaysFit(Mantissa(a), digits, b, -e, limbs);
    }
  }

  lemma SomeSignificant(d: Text)
    requires AllDigits(d) && DigitValue(d) > 0
    ensures Sig(d) >= 1
  {
    SigBounds(d);
  }

  /** The slow path is right on every literal: if a negative-exponent literal lies between the rounded-down
      guess and the next number, the answer is the binary64 number nearest to the literal, ties to even, or
      infinity.  The big integers always fit. */
  method ReadSlowly(a: Parsed, am: AdjustedMantissa, ghost explicit: int) returns (ok: bool, answer: AdjustedMantissa)
    requires Scanned(a, explicit) && a.mantissa > 0 && Half <= am.mantissa < B
    ensures DigitValue(a.integer + a.fraction) > 0
    ensures var v, e := DigitValue(a.integer + a.fraction), LastExponent(a, explicit);
            (ok || InRange(a)) && (Exponent(a, explicit) >= 0 || Near(Cut(DownIndex(am)), v, e)) ==>
              ok && answer.power2 >= 0 && ToFloat(answer) == Nearest64(v, e)
  {
    ok, answer := DigitCompare(a, am, explicit);
    ScannedDigits(a, explicit);
    ghost var v, e, b := DigitValue(a.integer + a.fraction), LastExponent(a, explicit), Cut(DownIndex(am));
    ghost var how := HowKept(Strip(a.integer + a.fraction), e);
    ShortensRoundsAlike(how, v, e, Mantissa(a), Exponent(a, explicit));
    ShortensBracketsAlike(b, how, v, e, Mantissa(a), Exponent(a, explicit));
    if InRange(a) {
      AlwaysFits(a, explicit, b, 62);
    }
  }
}
