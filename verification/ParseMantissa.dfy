/** The digits of a literal as a big integer: up to `maxDigits` significant ones, and a final 1 in place
    of what follows if that is not all zeros. */
module ParseMantissa {
  import opened Powers
  import opened Limbs
  import opened BigInt
  import opened Words
  import opened Digits
  import opened Decimal

  // ---- The specification ----

  /** Whether a nonzero digit lies beyond the first `max` of the significant digits `s`. */
  predicate Sticky(s: Text, max: nat) {
    |s| > max && !AllZero(s[max..])
  }

  function First(s: Text, max: nat): Text {
    if |s| > max then s[..max] else s
  }

  function Kept(s: Text, max: nat): int {
    if Sticky(s, max) then DigitValue(First(s, max)) * 10 + 1 else DigitValue(First(s, max))
  }

  function KeptDigits(s: Text, max: nat): nat {
    |First(s, max)| + if Sticky(s, max) then 1 else 0
  }

  // ---- Zeros, eight at a time ----

  lemma {:induction false} PackOfZeros(s: Text)
    ensures Pack(s) == Repeat(Zero, |s|) <==> AllZero(s)
  {
    if s != [] {
      PackOfZeros(s[1..]);
      assert s == [s[0]] + s[1..];
      assert Code(s[0]) < 256;
    }
  }

  /** The comparison of a word with eight zeros. */
  function EightZeros(word: Text): (r: bool)
    requires |word| == 8
    ensures r <==> AllZero(word)
  {
    PackOfZeros(word);
    EightBytes();
    Pack(word) == 0x3030303030303030
  }

  method SkipZeros(s: Text) returns (p: nat)
    ensures p <= |s| && s[p..] == Strip(s)
  {
    p := 0;
    while |s| - p >= 8 && EightZeros(s[p..p + 8])
      invariant p <= |s| && AllZero(s[..p])
    {
      assert s[..p + 8] == s[..p] + s[p..p + 8];
      p := p + 8;
    }
    while p < |s| && s[p] == Zero
      invariant p <= |s| && AllZero(s[..p])
    {
      p := p + 1;
    }
    StripIs(s, p);
  }

  method IsTruncated(s: Text) returns (r: bool)
    ensures r <==> !AllZero(s)
  {
    var p := 0;
    while |s| - p >= 8
      invariant 0 <= p <= |s| && AllZero(s[..p])
    {
      if !EightZeros(s[p..p + 8]) {
        NotAllZero(s, p, p + 8);
        return true;
      }
      assert s[..p + 8] == s[..p] + s[p..p + 8];
      p := p + 8;
    }
    while p < |s|
      invariant 0 <= p <= |s| && AllZero(s[..p])
    {
      if s[p] != Zero {
        return true;
      }
      p := p + 1;
    }
    assert s[..p] == s;
    return false;
  }

  lemma NotAllZero(s: Text, p: nat, q: nat)
    requires p <= q <= |s| && !AllZero(s[p..q])
    ensures !AllZero(s)
  {
    var i :| 0 <= i < q - p && s[p..q][i] != Zero;
    assert s[p + i] != Zero;
  }

  // ---- One limb's worth of digits ----

  method TakeChunk(t: Text, p: nat, limit: nat) returns (value: nat, q: nat)
    requires p <= |t| && AllDigits(t)
    ensures p <= q <= |t| && q - p <= 19 && q - p <= limit && value == DigitValue(t[p..q])
    ensures p < |t| && limit > 0 ==> q > p
    ensures q - p == limit || q == |t| || q - p == 19
  {
    value, q := 0, p;
    while |t| - q >= 8 && 19 - (q - p) >= 8 && limit - (q - p) >= 8
      invariant p <= q <= |t| && q - p <= 19 && q - p <= limit && value == DigitValue(t[p..q])
    {
      ValueOfNextEight(t, p, q);
      value := value * 100000000 + ParseEight(Pack(t[q..q + 8]));
      q := q + 8;
    }
    while q - p < 19 && q < |t| && q - p < limit
      invariant p <= q <= |t| && q - p <= 19 && q - p <= limit && value == DigitValue(t[p..q])
    {
      ValueOfNext(t, p, q);
      value := value * 10 + Worth(t[q]);
      q := q + 1;
    }
  }

  lemma ValueOfNext(t: Text, p: nat, q: nat)
    requires p <= q < |t| && AllDigits(t)
    ensures DigitValue(t[p..q + 1]) == DigitValue(t[p..q]) * 10 + Worth(t[q])
  {
    assert t[p..q + 1] == t[p..q] + [t[q]];
    ValueSnoc(t[p..q], t[q]);
  }

  lemma ValueOfNextEight(t: Text, p: nat, q: nat)
    requires p <= q && q + 8 <= |t| && AllDigits(t)
    ensures DigitValue(t[p..q + 8]) == DigitValue(t[p..q]) * 100000000 + ParseEight(Pack(t[q..q + 8]))
  {
    assert t[p..q + 8] == t[p..q] + t[q..q + 8];
    ValueConcat(t[p..q], t[q..q + 8]);
    ParseEightIsExact(t[q..q + 8]);
    EightTens();
  }

  /** Multiply, then add; exact if the result fits. */
  method AddNative(v: StackVec, power: Limb, value: Limb)
    requires v.Valid() && Normal(v.Limbs()) && power > 0 && v.Value() * power + value < v.Limit()
    modifies v, v.data
    ensures v.Valid() && Normal(v.Limbs()) && v.Value() == old(v.Value()) * power + value
  {
    var mul := v.SmallMul(power);
    assert Pow(B, 0) == 1;
    var add := v.SmallAddFrom(value, 0);
  }

  lemma PowerFits(k: nat)
    requires k <= 19
    ensures 0 < Pow(10, k) < B
  {
    NineteenDigits();
    PowMonotone(10, k, 19);
    PowPositive(10, k);
  }

  lemma ChunkFits(done: Text, t: Text, p: nat, q: nat, max: nat)
    requires AllDigits(done) && AllDigits(t) && p <= q <= |t| && q - p <= 19 && |done| + q <= max
    ensures DigitValue(done + t[..q]) == DigitValue(done + t[..p]) * Pow(10, q - p) + DigitValue(t[p..q])
    ensures DigitValue(done + t[..q]) < Pow(10, max)
    ensures 0 <= DigitValue(t[p..q]) < B
  {
    assert done + t[..q] == (done + t[..p]) + t[p..q];
    ValueConcat(done + t[..p], t[p..q]);
    ValueBound(done + t[..q]);
    PowMonotone(10, |done| + q, max);
    ValueBound(t[p..q]);
    PowerFits(q - p);
  }

  /** Append digits of `t` until they or the allowance are used up. */
  method ParsePart(v: StackVec, t: Text, max: nat, digits: nat, ghost done: Text) returns (p: nat)
    requires v.Valid() && Normal(v.Limbs()) && AllDigits(done) && AllDigits(t)
    requires v.Value() == DigitValue(done) && digits == |done| <= max && Pow(10, max) <= v.Limit()
    modifies v, v.data
    ensures v.Valid() && Normal(v.Limbs()) && p <= |t| && digits + p <= max
    ensures v.Value() == DigitValue(done + t[..p])
    ensures p == |t| || digits + p == max
  {
    p := 0;
    assert done + t[..0] == done;
    while p != |t| && digits + p != max
      invariant v.Valid() && Normal(v.Limbs()) && p <= |t| && digits + p <= max
      invariant v.Value() == DigitValue(done + t[..p])
      decreases |t| - p
    {
      var value, q := TakeChunk(t, p, max - digits - p);
      ChunkFits(done, t, p, q, max);
      PowerFits(q - p);
      AddNative(v, Pow(10, q - p), value);
      p := q;
    }
  }

  /** Add the sticky digit if something was cut off. */
  method RoundUp(v: StackVec, truncated: bool, digits: nat, ghost max: nat) returns (count: nat)
    requires v.Valid() && Normal(v.Limbs()) && v.Value() < Pow(10, max) && Pow(10, max + 1) <= v.Limit()
    modifies v, v.data
    ensures v.Valid() && Normal(v.Limbs())
    ensures v.Value() == if truncated then old(v.Value()) * 10 + 1 else old(v.Value())
    ensures count == digits + if truncated then 1 else 0
  {
    count := digits;
    if truncated {
      AddNative(v, 10, 1);
      count := count + 1;
    }
  }

  /** Where the significant digits are: in what is left of the integer part and the fraction, or in what
      is left of the fraction. */
  lemma SignificantParts(integer: Text, fraction: Text)
    ensures Strip(integer) != [] ==> Strip(integer + fraction) == Strip(integer) + fraction
    ensures Strip(integer) == [] ==> Strip(integer + fraction) == Strip(fraction)
  {
    var s, z := integer + fraction, |integer| - |Strip(integer)|;
    StripSplits(integer);
    assert s[..z] == integer[..z];
    if Strip(integer) != [] {
      StripIs(s, z);
    } else {
      StripPastZeros(s, z);
      assert s[z..] == fraction;
    }
  }

  /** The digits taken from one part, and what they mean for the whole. */
  lemma PartKept(s: Text, done: Text, t: Text, rest: Text, p: nat, max: nat)
    requires s == done + t + rest && p <= |t| && |done| + p == max
    ensures First(s, max) == done + t[..p]
    ensures Sticky(s, max) <==> !AllZero(t[p..]) || !AllZero(rest)
  {
    assert s == (done + t[..p]) + (t[p..] + rest);
    var tail := t[p..] + rest;
    assert s[..max] == done + t[..p] && s[max..] == tail;
    if AllZero(tail) {
      assert forall i :: 0 <= i < |t[p..]| ==> t[p..][i] == tail[i];
      assert forall i :: 0 <= i < |rest| ==> rest[i] == tail[|t[p..]| + i];
    }
    if |s| == max {
      assert t[p..] == [] && rest == [];
    }
  }

  lemma AllKept(s: Text, max: nat)
    requires |s| <= max
    ensures Kept(s, max) == DigitValue(s) && KeptDigits(s, max) == |s|
  {
  }

  /** The whole mantissa. */
  method ParseDigits(v: StackVec, integer: Text, fraction: Text, max: nat) returns (digits: nat)
    requires v.Valid() && v.Limbs() == [] && max >= 1 && Pow(10, max + 1) <= v.Limit()
    requires AllDigits(integer) && AllDigits(fraction)
    modifies v, v.data
    ensures v.Valid() && Normal(v.Limbs())
    ensures v.Value() == Kept(Strip(integer + fraction), max)
    ensures digits == KeptDigits(Strip(integer + fraction), max)
  {
    ghost var s := Strip(integer + fraction);
    SignificantParts(integer, fraction);
    PowMonotone(10, max, max + 1);
    var start := SkipZeros(integer);
    var t := integer[start..];
    var p := ParsePart(v, t, max, 0, []);
    assert [] + t[..p] == t[..p];
    digits := p;
    ValueBound(t[..p]);
    if digits == max {
      assert s == [] + t + fraction;
      PartKept(s, [], t, fraction, p, max);
      var truncated := IsTruncated(t[p..]);
      var further := IsTruncated(fraction);
      digits := RoundUp(v, truncated || further, digits, max);
      return;
    }
    assert t[..p] == t;
    var f := Rest(fraction, digits == 0);
    assert s == t + f + [];
    digits := FractionDigits(v, f, t, digits, max);
  }

  /** The digits of the fraction that count: leading zeros do not if there is nothing before them. */
  method Rest(fraction: Text, skip: bool) returns (f: Text)
    requires AllDigits(fraction)
    ensures AllDigits(f) && f == if skip then Strip(fraction) else fraction
  {
    f := fraction;
    if skip {
      var skipped := SkipZeros(fraction);
      f := fraction[skipped..];
    }
  }

  /** The second part, after the digits `done`. */
  method FractionDigits(v: StackVec, f: Text, ghost done: Text, before: nat, max: nat) returns (digits: nat)
    requires v.Valid() && Normal(v.Limbs()) && v.Value() == DigitValue(done) && before == |done| < max
    requires AllDigits(done) && AllDigits(f) && Pow(10, max + 1) <= v.Limit()
    modifies v, v.data
    ensures v.Valid() && Normal(v.Limbs())
    ensures v.Value() == Kept(done + f + [], max) && digits == KeptDigits(done + f + [], max)
  {
    ghost var s := done + f + [];
    PowMonotone(10, max, max + 1);
    var p := ParsePart(v, f, max, before, done);
    digits := before + p;
    ValueBound(done + f[..p]);
    if digits == max {
      PartKept(s, done, f, [], p, max);
      var truncated := IsTruncated(f[p..]);
      digits := RoundUp(v, truncated, digits, max);
    } else {
      assert f[..p] == f && s == done + f[..p];
      AllKept(s, max);
    }
  }

  // ---- The decimal exponent of the leading digit ----

  method ScientificExponent(mantissa: nat, exponent: int) returns (e: int)
    ensures e >= exponent
    ensures mantissa > 0 ==> Pow(10, e - exponent) <= mantissa < Pow(10, e - exponent + 1)
    ensures mantissa == 0 ==> e == exponent
  {
    var m := mantissa;
    e := exponent;
    assert Pow(10, 1) == 10 && Pow(10, 2) == 100;
    PowAdd(10, 2, 2);
    while m >= 10000
      invariant exponent <= e && Shortened(mantissa, m, e - exponent)
    {
      Shorten(mantissa, m, e - exponent, 4);
      m, e := m / 10000, e + 4;
    }
    while m >= 100
      invariant exponent <= e && Shortened(mantissa, m, e - exponent)
    {
      Shorten(mantissa, m, e - exponent, 2);
      m, e := m / 100, e + 2;
    }
    while m >= 10
      invariant exponent <= e && Shortened(mantissa, m, e - exponent)
    {
      Shorten(mantissa, m, e - exponent, 1);
      m, e := m / 10, e + 1;
    }
    assert Pow(10, e - exponent + 1) == 10 * Pow(10, e - exponent);
    if mantissa > 0 {
      MulLeft(1, m, Pow(10, e - exponent));
      MulLeft(m + 1, 10, Pow(10, e - exponent));
    }
  }

  /** `m` is what is left of `mantissa` without its last `k` digits, and not zero unless that is. */
  ghost predicate Shortened(mantissa: nat, m: nat, k: nat) {
    && m * Pow(10, k) <= mantissa < (m + 1) * Pow(10, k)
    && (mantissa > 0 ==> m > 0) && (mantissa == 0 ==> k == 0)
  }

  lemma Shorten(mantissa: nat, m: nat, k: nat, j: nat)
    requires Shortened(mantissa, m, k) && m >= Pow(10, j) > 0
    ensures Shortened(mantissa, m / Pow(10, j), k + j)
  {
    PowAdd(10, k, j);
    ShortenBy(mantissa, m, Pow(10, k), Pow(10, j));
  }

  lemma ShortenBy(x: nat, m: nat, p: nat, d: nat)
    requires m * p <= x < (m + 1) * p && m >= d > 0
    ensures var q := m / d;
            q > 0 && q * (p * d) <= x < (q + 1) * (p * d)
  {
    var q := m / d;
    assert q * (p * d) == (q * d) * p;
    assert (q + 1) * (p * d) == ((q + 1) * d) * p;
    assert (q + 1) * d == q * d + d;
    MulLeft(q * d, m, p);
    MulLeft(m + 1, (q + 1) * d, p);
  }
}
