/** Sequences of 64-bit limbs, least significant first, and the integers they stand for. */
module Limbs {
  import opened Powers

  const B: nat := 0x1_0000_0000_0000_0000

  type Limb = x: int | 0 <= x < B

  function Val(s: seq<Limb>): nat {
    if s == [] then 0 else Val(s[..|s| - 1]) + s[|s| - 1] * Pow(B, |s| - 1)
  }

  /** No leading zero limb. */
  predicate Normal(s: seq<Limb>) {
    s == [] || s[|s| - 1] != 0
  }

  lemma ValSnoc(s: seq<Limb>, x: Limb)
    ensures Val(s + [x]) == Val(s) + x * Pow(B, |s|)
  {
    assert (s + [x])[..|s + [x]| - 1] == s;
  }

  lemma ValTake(s: seq<Limb>, i: nat)
    requires i < |s|
    ensures Val(s[..i + 1]) == Val(s[..i]) + s[i] * Pow(B, i)
  {
    assert s[..i + 1] == s[..i] + [s[i]];
    ValSnoc(s[..i], s[i]);
  }

  lemma {:induction false} ValConcat(s: seq<Limb>, t: seq<Limb>)
    ensures Val(s + t) == Val(s) + Val(t) * Pow(B, |s|)
  {
    if t == [] {
      assert s + t == s;
    } else {
      var n := |t| - 1;
      ValConcat(s, t[..n]);
      assert s + t == (s + t[..n]) + [t[n]];
      ValSnoc(s + t[..n], t[n]);
      PowAdd(B, |s|, n);
      TwoTerms(Val(t[..n]), t[n], Pow(B, n), Pow(B, |s|));
    }
  }

  lemma TwoTerms(v: int, x: int, p: int, q: int)
    ensures (v + x * p) * q == v * q + x * (q * p)
  {
    assert (v + x * p) * q == v * q + (x * p) * q;
    assert (x * p) * q == x * (p * q);
  }

  lemma ValUpdate(s: seq<Limb>, i: nat, v: Limb)
    requires i < |s|
    ensures Val(s[i := v]) == Val(s) + (v - s[i]) * Pow(B, i)
  {
    var head, tail := s[..i], s[i + 1..];
    assert s == (head + [s[i]]) + tail && s[i := v] == (head + [v]) + tail;
    ValConcat(head + [s[i]], tail);
    ValConcat(head + [v], tail);
    ValSnoc(head, s[i]);
    ValSnoc(head, v);
    assert (v - s[i]) * Pow(B, i) == v * Pow(B, i) - s[i] * Pow(B, i);
  }

  lemma {:induction false} ValBound(s: seq<Limb>)
    ensures Val(s) < Pow(B, |s|)
  {
    if s != [] {
      var n := |s| - 1;
      ValBound(s[..n]);
      MulLeft(s[n], B - 1, Pow(B, n));
    }
  }

  lemma {:induction false} ValZeros(s: seq<Limb>)
    requires forall i :: 0 <= i < |s| ==> s[i] == 0
    ensures Val(s) == 0
  {
    if s != [] {
      ValZeros(s[..|s| - 1]);
    }
  }

  /** A number is normalised exactly when it needs all its limbs. */
  lemma NormalMeansLarge(s: seq<Limb>)
    requires s != []
    ensures Normal(s) <==> Val(s) >= Pow(B, |s| - 1)
  {
    var n := |s| - 1;
    ValBound(s[..n]);
    if s[n] != 0 {
      MulLeft(1, s[n], Pow(B, n));
    }
  }

  /** A normalised number that is too long is too large. */
  lemma TooLong(s: seq<Limb>, start: nat, capacity: nat)
    requires s != [] && Normal(s) && |s| + start > capacity
    ensures Val(s) * Pow(B, start) >= Pow(B, capacity)
  {
    NormalMeansLarge(s);
    MulLeft(Pow(B, |s| - 1), Val(s), Pow(B, start));
    PowAdd(B, |s| - 1, start);
    PowMonotone(B, capacity, |s| - 1 + start);
  }

  lemma ValFits(s: seq<Limb>, capacity: nat)
    requires |s| <= capacity
    ensures Val(s) < Pow(B, capacity)
  {
    ValBound(s);
    PowMonotone(B, |s|, capacity);
  }

  lemma ZeroMeansEmpty(s: seq<Limb>)
    requires Normal(s) && Val(s) == 0
    ensures s == []
  {
    if s != [] {
      NormalMeansLarge(s);
      PowPositive(B, |s| - 1);
    }
  }
}
