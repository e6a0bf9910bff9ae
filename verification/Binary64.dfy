/** Binary64 numbers and rounding to nearest, ties to even (IEEE 754, section 4.3.1).

    A non-negative binary64 number is named by its bit pattern, the exponent field above 52 mantissa
    bits; patterns count upwards in the order of the numbers.  Values are multiples of 2^-1074, the
    smallest positive number.  Patterns from `INF` on stand for the numbers a larger exponent range
    would have, so that rounding can be done as if the range were unbounded and then cut off. */
module Binary64 {
  import opened Powers

  const Hidden: nat := 0x10_0000_0000_0000

  /** The pattern of infinity: exponent field 0x7FF, mantissa 0. */
  const INF: nat := 0x7FF * Hidden

  function Units(i: nat): nat {
    if i < Hidden then i else (Hidden + i % Hidden) * Pow(2, i / Hidden - 1)
  }

  /** The distance to the next number. */
  function Gap(i: nat): nat {
    if i < Hidden then 1 else Pow(2, i / Hidden - 1)
  }

  lemma NextUnits(i: nat)
    ensures Units(i + 1) == Units(i) + Gap(i) && Gap(i) >= 1
  {
    if i + 1 < Hidden {
    } else if i + 1 == Hidden {
      assert Pow(2, 0) == 1;
    } else {
      var p, m := i / Hidden, i % Hidden;
      PowPositive(2, p - 1);
      if m + 1 < Hidden {
        assert (i + 1) / Hidden == p && (i + 1) % Hidden == m + 1;
        OneMore(Hidden + m, Pow(2, p - 1));
      } else {
        assert (i + 1) / Hidden == p + 1 && (i + 1) % Hidden == 0;
        assert Pow(2, p) == 2 * Pow(2, p - 1);
      }
    }
  }

  lemma {:induction false} UnitsMonotone(i: nat, j: nat)
    requires i <= j
    ensures Units(i) + (j - i) <= Units(j)
    decreases j - i
  {
    if i < j {
      UnitsMonotone(i, j - 1);
      NextUnits(j - 1);
    }
  }

  /** One, in multiples of the smallest positive number. */
  ghost function Unit(): nat {
    Pow(2, 1074)
  }

  // ---- Rounding ----

  /** How far the value `n / d` is from number `i`, as a multiple of `1 / d`. */
  function Dist(n: nat, d: nat, i: nat): nat {
    var u := Units(i) * d;
    if n >= u then n - u else u - n
  }

  /** No number is closer to `n / d`, and if another one is as close then `i` is even. */
  ghost predicate Nearest(n: nat, d: nat, i: nat) {
    forall j: nat :: Dist(n, d, i) <= Dist(n, d, j) && (Dist(n, d, i) == Dist(n, d, j) && i != j ==> i % 2 == 0)
  }

  /** `r` is the binary64 number, or infinity, that `n / d` rounds to. */
  ghost predicate RoundsTo(n: nat, d: nat, r: nat) {
    exists i: nat :: Nearest(n, d, i) && r == if i < INF then i else INF
  }

  lemma StrictlyBelow(d: nat, i: nat, j: nat)
    requires i < j && d > 0
    ensures Units(i) * d < Units(j) * d
  {
    UnitsMonotone(i, j);
    MulLeftStrict(Units(i), Units(j), d);
  }

  /** There is at most one nearest number. */
  lemma NearestIsUnique(n: nat, d: nat, i: nat, j: nat)
    requires d > 0 && Nearest(n, d, i) && Nearest(n, d, j)
    ensures i == j
  {
    if i != j {
      Apart(n, d, if i < j then i else j, if i < j then j else i);
    }
  }

  /** Equally near numbers are neighbours, so only one of them is even. */
  lemma Apart(n: nat, d: nat, i: nat, j: nat)
    requires d > 0 && Nearest(n, d, i) && i < j
    ensures !Nearest(n, d, j)
  {
    assert Dist(n, d, i) <= Dist(n, d, j);
    if Dist(n, d, i) == Dist(n, d, j) && i % 2 == 0 && j % 2 == 0 {
      CloserBetween(n, d, i, j);
    }
  }

  lemma CloserBetween(n: nat, d: nat, i: nat, j: nat)
    requires d > 0 && i + 1 < j && Dist(n, d, i) == Dist(n, d, j)
    ensures Dist(n, d, i + 1) < Dist(n, d, i)
  {
    StrictlyBelow(d, i, i + 1);
    StrictlyBelow(d, i + 1, j);
  }

  lemma NearestBelow(n: nat, d: nat, b: nat)
    requires d > 0 && Units(b) * d <= n && 2 * n <= Units(b) * d + Units(b + 1) * d
    requires 2 * n == Units(b) * d + Units(b + 1) * d ==> b % 2 == 0
    ensures Nearest(n, d, b)
  {
    forall j: nat
      ensures Dist(n, d, b) <= Dist(n, d, j) && (Dist(n, d, b) == Dist(n, d, j) && b != j ==> b % 2 == 0)
    {
      StrictlyBelow(d, b, b + 1);
      if j < b {
        StrictlyBelow(d, j, b);
      } else if j > b + 1 {
        StrictlyBelow(d, b + 1, j);
      }
    }
  }

  lemma NearestAbove(n: nat, d: nat, b: nat)
    requires d > 0 && n <= Units(b + 1) * d && 2 * n >= Units(b) * d + Units(b + 1) * d
    requires 2 * n == Units(b) * d + Units(b + 1) * d ==> b % 2 == 1
    ensures Nearest(n, d, b + 1)
  {
    forall j: nat
      ensures Dist(n, d, b + 1) <= Dist(n, d, j) && (Dist(n, d, b + 1) == Dist(n, d, j) && b + 1 != j ==> (b + 1) % 2 == 0)
    {
      StrictlyBelow(d, b, b + 1);
      if j < b {
        StrictlyBelow(d, j, b);
      } else if j > b + 1 {
        StrictlyBelow(d, b + 1, j);
      }
    }
  }

  /** The decision between two neighbours. */
  function Chosen(n: nat, d: nat, b: nat): nat {
    var middle := Units(b) * d + Units(b + 1) * d;
    if 2 * n > middle || (2 * n == middle && b % 2 == 1) then b + 1 else b
  }

  /** Rounding a value that lies between two neighbours. */
  lemma RoundsToChosen(n: nat, d: nat, b: nat)
    requires d > 0 && Units(b) * d <= n < Units(b + 1) * d
    ensures Nearest(n, d, Chosen(n, d, b))
  {
    if Chosen(n, d, b) == b {
      NearestBelow(n, d, b);
    } else {
      NearestAbove(n, d, b);
    }
  }

  /** Only the value of the fraction matters. */
  lemma NearestScales(n: nat, d: nat, k: nat, i: nat)
    requires k > 0 && Nearest(n * k, d * k, i)
    ensures Nearest(n, d, i)
  {
    forall j: nat
      ensures Dist(n, d, i) <= Dist(n, d, j) && (Dist(n, d, i) == Dist(n, d, j) && i != j ==> i % 2 == 0)
    {
      DistScales(n, d, k, i);
      DistScales(n, d, k, j);
      assert Dist(n * k, d * k, i) <= Dist(n * k, d * k, j);
      MulCancel(Dist(n, d, j), Dist(n, d, i), k);
    }
  }

  lemma DistScales(n: nat, d: nat, k: nat, i: nat)
    requires k > 0
    ensures Dist(n * k, d * k, i) == Dist(n, d, i) * k
  {
    var u := Units(i);
    assert u * (d * k) == (u * d) * k;
    MulCancel(n, u * d, k);
    assert (n - u * d) * k == n * k - (u * d) * k;
    assert (u * d - n) * k == (u * d) * k - n * k;
  }

  /** Every value lies between two neighbours. */
  lemma {:induction false} Floor(n: nat, d: nat, low: nat, high: nat) returns (b: nat)
    requires d > 0 && low < high && Units(low) * d <= n < Units(high) * d
    ensures low <= b && Units(b) * d <= n < Units(b + 1) * d
    decreases high - low
  {
    if n < Units(low + 1) * d {
      b := low;
    } else {
      b := Floor(n, d, low + 1, high);
    }
  }

  lemma SomewhereAbove(n: nat, d: nat)
    requires d > 0
    ensures n < Units(n + 1) * d
  {
    UnitsMonotone(0, n + 1);
    MulLeft(n + 1, Units(n + 1), d);
    MulLeft(1, d, n + 1);
  }

  /** From the value of infinity on, everything rounds to infinity. */
  lemma Overflows(n: nat, d: nat)
    requires d > 0 && Units(INF) * d <= n
    ensures RoundsTo(n, d, INF)
  {
    SomewhereAbove(n, d);
    if n + 1 <= INF {
      UnitsMonotone(n + 1, INF);
      MulLeft(Units(n + 1), Units(INF), d);
    }
    var b := Floor(n, d, INF, n + 1);
    RoundsToChosen(n, d, b);
  }

  /** Rounding is a function: every value rounds to exactly one result. */
  lemma RoundsToOne(n: nat, d: nat) returns (r: nat)
    requires d > 0
    ensures forall x: nat :: RoundsTo(n, d, x) <==> x == r
  {
    SomewhereAbove(n, d);
    var b := Floor(n, d, 0, n + 1);
    RoundsToChosen(n, d, b);
    var i := Chosen(n, d, b);
    r := if i < INF then i else INF;
    forall x: nat
      ensures RoundsTo(n, d, x) <==> x == r
    {
      if RoundsTo(n, d, x) {
        var j: nat :| Nearest(n, d, j) && x == if j < INF then j else INF;
        NearestIsUnique(n, d, i, j);
      }
    }
  }

  /** The number, or infinity, that `n / d` rounds to. */
  ghost function Rounded(n: nat, d: nat): (r: nat)
    requires d > 0
    ensures RoundsTo(n, d, r)
  {
    SomeRounding(n, d);
    var r: nat :| RoundsTo(n, d, r);
    r
  }

  lemma SomeRounding(n: nat, d: nat)
    requires d > 0
    ensures exists r: nat :: RoundsTo(n, d, r)
  {
    var r := RoundsToOne(n, d);
    assert RoundsTo(n, d, r);
  }

  lemma RoundedIs(n: nat, d: nat, r: nat)
    requires d > 0 && RoundsTo(n, d, r)
    ensures r == Rounded(n, d)
  {
    var only := RoundsToOne(n, d);
    assert RoundsTo(n, d, Rounded(n, d));
  }
}
