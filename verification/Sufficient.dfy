/** Why 769 significant digits and one sticky digit are enough: no binary64 number and no midpoint of
    two neighbours lies strictly between consecutive multiples of 10^y that have 769 digits. */
module Sufficient {
  import opened Powers
  import opened Binary64

  // ---- Binary points in the decimal scale ----

  lemma PowersOfFive()
    ensures Pow(5, 28) == 37252902984619140625 && Pow(5, 31) == 4656612873077392578125
  {
    assert Pow(5, 7) == 78125;
    PowAdd(5, 7, 7);
    PowAdd(5, 14, 14);
    assert Pow(5, 3) == 125;
    PowAdd(5, 28, 3);
  }

  lemma PowersOfTwo()
    ensures Pow(2, 66) == 73786976294838206464 && Pow(2, 72) == 4722366482869645213696
  {
    assert Pow(2, 6) == 64;
    PowAdd(2, 6, 6);
    PowAdd(2, 12, 12);
    PowAdd(2, 24, 24);
    PowAdd(2, 48, 12);
    PowAdd(2, 60, 6);
    PowAdd(2, 66, 6);
  }

  lemma {:induction false} Times31(n: nat)
    ensures Pow(5, 31 * n) <= Pow(2, 72 * n)
  {
    if n > 0 {
      Times31(n - 1);
      PowersOfFive();
      PowersOfTwo();
      StepUp(31, 31 * (n - 1), 72, 72 * (n - 1));
      assert 31 + 31 * (n - 1) == 31 * n && 72 + 72 * (n - 1) == 72 * n;
    }
  }

  lemma StepUp(a: nat, b: nat, c: nat, d: nat)
    requires Pow(5, a) <= Pow(2, c) && Pow(5, b) <= Pow(2, d)
    ensures Pow(5, a + b) <= Pow(2, c + d)
  {
    PowAdd(5, a, b);
    PowAdd(2, c, d);
    MulBoth(Pow(5, a), Pow(2, c), Pow(5, b), Pow(2, d));
  }

  lemma MulBoth(a: nat, b: nat, c: nat, d: nat)
    requires a <= b && c <= d
    ensures a * c <= b * d
  {
    MulLeft(a, b, c);
    MulLeft(c, d, b);
  }

  lemma FiveTo307()
    ensures Pow(5, 307) <= Pow(2, 714)
  {
    Times31(9);
    PowersOfFive();
    PowersOfTwo();
    StepUp(279, 28, 648, 66);
  }

  /** No midpoint has more than 768 significant digits. */
  lemma DigitsOfMidpoints()
    ensures Pow(2, 54) * Pow(5, 1075) <= Pow(10, 768)
  {
    FiveTo307();
    PowProduct(2, 5, 768);
    PowAdd(5, 307, 768);
    PowAdd(2, 54, 714);
    Assemble(Pow(2, 54), Pow(5, 307), Pow(2, 714), Pow(5, 768));
  }

  lemma Assemble(a: nat, b: nat, c: nat, f: nat)
    requires b <= c
    ensures a * (b * f) <= (a * c) * f
  {
    assert a * (b * f) == (a * b) * f;
    MulLeft(b, c, a);
    MulLeft(a * b, a * c, f);
  }

  predicate OutsideBy(p: nat, m: nat, c: nat) {
    p <= m * c || p >= (m + 1) * c
  }

  /** The point h * 2^-1075 is at most m * 10^(u - z), or at least (m + 1) * 10^(u - z). */
  predicate Outside(h: nat, m: nat, u: nat, z: nat) {
    OutsideBy(h * Pow(10, z), m, Pow(10, u) * Pow(2, 1075))
  }

  lemma MultipleOutside(w: nat, m: nat, c: nat)
    ensures OutsideBy(w * c, m, c)
  {
    if w <= m {
      MulLeft(w, m, c);
    } else {
      MulLeft(m + 1, w, c);
    }
  }

  function Point(t: nat, g: nat): nat {
    t * Pow(2, g)
  }

  /** A whole number, between multiples of a negative power of ten. */
  lemma WholeOutside(t: nat, g: nat, m: nat, z: nat)
    requires g >= 1075
    ensures Outside(Point(t, g), m, 0, z)
  {
    PowAdd(2, g - 1075, 1075);
    assert Pow(10, 0) == 1;
    WholeCore(t, Pow(2, g - 1075), Pow(2, 1075), Pow(10, z), m);
  }

  lemma WholeCore(t: nat, a: nat, c: nat, p: nat, m: nat)
    ensures OutsideBy((t * (a * c)) * p, m, c)
  {
    assert (t * (a * c)) * p == ((t * a) * p) * c by {
      assert t * (a * c) == (t * a) * c;
      assert ((t * a) * c) * p == ((t * a) * p) * c;
    }
    MultipleOutside((t * a) * p, m, c);
  }

  /** A fraction with no more binary places than the decimal scale has places. */
  lemma FineOutside(t: nat, g: nat, m: nat, z: nat)
    requires g < 1075 <= g + z
    ensures Outside(Point(t, g), m, 0, z)
  {
    PowProduct(2, 5, z);
    PowAdd(2, g, z);
    PowAdd(2, g + z - 1075, 1075);
    assert Pow(10, 0) == 1;
    FineCore(t, Pow(2, g), Pow(2, z), Pow(5, z), Pow(2, g + z - 1075), Pow(2, 1075), m);
  }

  lemma FineCore(t: nat, x: nat, y: nat, f: nat, a: nat, c: nat, m: nat)
    requires x * y == a * c
    ensures OutsideBy((t * x) * (y * f), m, c)
  {
    assert (t * x) * (y * f) == (t * (x * y)) * f by {
      assert (t * x) * (y * f) == ((t * x) * y) * f;
      assert (t * x) * y == t * (x * y);
    }
    WholeCore(t, a, c, f, m);
  }

  /** A point too small to have as many digits. */
  lemma CoarseOutside(t: nat, g: nat, m: nat, u: nat, z: nat)
    requires g + z < 1075 && t <= Pow(2, 54) && m >= Pow(10, 768)
    ensures Outside(Point(t, g), m, u, z)
  {
    FewDigits(t, 1075 - g);
    CoarsePoint(t, g, 1075 - g, m, u, z);
  }

  lemma CoarsePoint(t: nat, g: nat, j: nat, m: nat, u: nat, z: nat)
    requires g + j == 1075 && z < j && t * Pow(5, j) <= m
    ensures Outside(Point(t, g), m, u, z)
  {
    PowPositive(10, u);
    CoarsePowers(g, z);
    CoarseCore(t, Pow(2, g), Pow(2, j), Pow(5, j), Pow(10, z), Pow(10, j - z), Pow(2, 1075), m, Pow(10, u));
  }

  lemma CoarsePowers(g: nat, z: nat)
    requires g + z < 1075
    ensures var j := 1075 - g;
            && Pow(2, g) * Pow(2, j) == Pow(2, 1075) && Pow(10, j - z) >= 1
            && Pow(10, z) * Pow(10, j - z) == Pow(2, j) * Pow(5, j)
  {
    var j := 1075 - g;
    PowProduct(2, 5, j);
    PowAdd(2, g, j);
    PowAdd(10, z, j - z);
    PowPositive(10, j - z);
  }

  lemma FewDigits(t: nat, j: nat)
    requires t <= Pow(2, 54) && j <= 1075
    ensures t * Pow(5, j) <= Pow(10, 768)
  {
    DigitsOfMidpoints();
    PowMonotone(5, j, 1075);
    MulBoth(t, Pow(2, 54), Pow(5, j), Pow(5, 1075));
  }

  lemma CoarseCore(t: nat, x: nat, y: nat, f: nat, p: nat, q: nat, c: nat, m: nat, d: nat)
    requires x * y == c && p * q == y * f && t * f <= m && d >= 1 && q >= 1
    ensures OutsideBy((t * x) * p, m, d * c)
  {
    assert ((t * x) * p) * q == (t * f) * c by {
      assert ((t * x) * p) * q == (t * x) * (p * q);
      Regroup(t, x, f, y);
      assert y * f == f * y;
    }
    MulLeft(t * f, m, c);
    Enlarge(m * c, d, q);
    assert m * (d * c) == (m * c) * d;
    MulCancel((m * c) * d, (t * x) * p, q);
  }

  lemma Enlarge(x: nat, a: nat, b: nat)
    requires a >= 1 && b >= 1
    ensures x <= (x * a) * b
  {
    MulLeft(1, a, x);
    MulLeft(1, b, x * a);
  }

  lemma TenLarge(m: nat)
    requires m >= Pow(10, 768)
    ensures m >= Pow(2, 1025)
  {
    PowBase(4, 10, 768);
    assert Pow(2, 2) == 4;
    PowPow(2, 2, 768);
    PowMonotone(2, 1025, 1536);
  }

  /** A point below the largest binary64 numbers, against a larger power of ten. */
  lemma HugeOutside(h: nat, m: nat, u: nat)
    requires h <= Pow(2, 2100) && m >= Pow(10, 768)
    ensures Outside(h, m, u, 0)
  {
    TenLarge(m);
    PowAdd(2, 1025, 1075);
    PowPositive(10, u);
    assert Pow(10, 0) == 1;
    HugeCore(h, Pow(2, 1025), Pow(2, 1075), m, Pow(10, u));
  }

  lemma HugeCore(h: nat, a: nat, c: nat, m: nat, d: nat)
    requires h <= a * c && a <= m && d >= 1
    ensures OutsideBy(h, m, d * c)
  {
    MulLeft(a, m, c);
    Enlarge(m * c, d, 1);
    assert m * (d * c) == (m * c) * d;
  }

  /** The points that matter for rounding: the binary64 numbers and the midpoints, doubled. */
  ghost predicate IsPoint(h: nat) {
    h <= Pow(2, 2100) && exists t: nat, g: nat :: t <= Pow(2, 54) && h == Point(t, g)
  }

  lemma PointOutside(h: nat, m: nat, u: nat, z: nat)
    requires IsPoint(h) && m >= Pow(10, 768) && (u == 0 || z == 0)
    ensures Outside(h, m, u, z)
  {
    var t: nat, g: nat :| t <= Pow(2, 54) && h == Point(t, g);
    if g + z < 1075 {
      CoarseOutside(t, g, m, u, z);
    } else if u > 0 {
      HugeOutside(h, m, u);
    } else if g >= 1075 {
      WholeOutside(t, g, m, z);
    } else {
      FineOutside(t, g, m, z);
    }
  }

  // ---- Rounding values that have the same 769 digits ----

  lemma TwoTo54()
    ensures Pow(2, 54) == 4 * Hidden && Pow(2, 52) == Hidden
  {
    assert Pow(2, 6) == 64;
    PowAdd(2, 6, 6);
    PowAdd(2, 12, 12);
    PowAdd(2, 24, 24);
    PowAdd(2, 48, 6);
    assert Pow(2, 54) == 2 * Pow(2, 53) && Pow(2, 53) == 2 * Pow(2, 52);
  }

  lemma NumberIsPoint(b: nat)
    requires b <= INF
    ensures IsPoint(2 * Units(b))
  {
    TwoTo54();
    if b < Hidden {
      assert Pow(2, 0) == 1;
      assert 2 * Units(b) == Point(2 * b, 0);
    } else {
      var p, t := b / Hidden, Hidden + b % Hidden;
      assert Pow(2, p) == 2 * Pow(2, p - 1);
      assert 2 * (t * Pow(2, p - 1)) == t * (2 * Pow(2, p - 1));
      assert 2 * Units(b) == Point(t, p);
    }
    Largest(b);
  }

  lemma MidpointIsPoint(b: nat)
    requires b < INF
    ensures IsPoint(Units(b) + Units(b + 1))
  {
    TwoTo54();
    NextUnits(b);
    if b < Hidden {
      assert Pow(2, 0) == 1;
      assert Units(b) + Units(b + 1) == Point(2 * b + 1, 0);
    } else {
      var p, t := b / Hidden, Hidden + b % Hidden;
      var g := Pow(2, p - 1);
      assert t * g + (t * g + g) == (2 * t + 1) * g;
      assert Units(b) + Units(b + 1) == Point(2 * t + 1, p - 1);
    }
    Largest(b);
    Largest(b + 1);
  }

  lemma Largest(b: nat)
    requires b <= INF
    ensures 2 * Units(b) <= Pow(2, 2100)
  {
    UnitsMonotone(b, INF);
    UnitsOfInfinity();
  }

  lemma UnitsOfInfinity()
    ensures 2 * Units(INF) <= Pow(2, 2100)
  {
    TwoTo54();
    PowerUnits(2047);
    PowAdd(2, 52, 2046);
    LargerPower(2098);
  }

  lemma PowerUnits(p: nat)
    requires p >= 1
    ensures Units(p * Hidden) == Hidden * Pow(2, p - 1)
  {
    DivUnique(p * Hidden, Hidden, p, 0);
  }

  lemma LargerPower(n: nat)
    ensures 2 * Pow(2, n) <= Pow(2, n + 2)
  {
    PowAdd(2, 2, n);
    assert Pow(2, 2) == 4;
  }

  /** The value n / d lies strictly between m * 10^(u - z) and (m + 1) * 10^(u - z). */
  ghost predicate Within(n: nat, d: nat, m: nat, u: nat, z: nat) {
    (m * Pow(10, u)) * d < n * Pow(10, z) < ((m + 1) * Pow(10, u)) * d
  }

  ghost predicate Below(h: nat, m: nat, u: nat, z: nat) {
    h * Pow(10, z) <= m * (Pow(10, u) * Pow(2, 1075))
  }

  lemma SideCore(h: nat, n: nat, d: nat, p: nat, c: nat, q: nat, x: nat)
    requires p >= 1 && c >= 1 && d >= 1
    ensures h * p <= x * (q * c) && (x * q) * d < n * p ==> h * d < n * c
    ensures h * p >= x * (q * c) && (x * q) * d > n * p ==> h * d > n * c
  {
    assert (h * d) * p == (h * p) * d;
    assert (n * c) * p == (n * p) * c;
    assert (x * (q * c)) * d == ((x * q) * d) * c by {
      assert x * (q * c) == (x * q) * c;
      assert ((x * q) * c) * d == ((x * q) * d) * c;
    }
    if h * p <= x * (q * c) && (x * q) * d < n * p {
      MulLeft(h * p, x * (q * c), d);
      MulLeftStrict((x * q) * d, n * p, c);
      MulCancel(h * d, n * c, p);
    }
    if h * p >= x * (q * c) && (x * q) * d > n * p {
      MulLeft(x * (q * c), h * p, d);
      MulLeftStrict(n * p, (x * q) * d, c);
      MulCancel(n * c, h * d, p);
    }
  }

  /** On which side of a point the value is depends only on its first 769 digits. */
  lemma SideOf(h: nat, n: nat, d: nat, m: nat, u: nat, z: nat)
    requires IsPoint(h) && m >= Pow(10, 768) && (u == 0 || z == 0) && d >= 1 && Within(n, d, m, u, z)
    ensures Below(h, m, u, z) ==> h * d < n * Pow(2, 1075)
    ensures !Below(h, m, u, z) ==> h * d > n * Pow(2, 1075)
  {
    PointOutside(h, m, u, z);
    PowPositive(10, z);
    PowPositive(2, 1075);
    SideCore(h, n, d, Pow(10, z), Pow(2, 1075), Pow(10, u), m);
    SideCore(h, n, d, Pow(10, z), Pow(2, 1075), Pow(10, u), m + 1);
  }

  lemma Halves(x: nat, d: nat, n: nat, one: nat, c: nat)
    requires c == 2 * one
    ensures (2 * x) * d == 2 * (x * d) && n * c == 2 * (n * one)
  {
  }

  lemma BothHalves(x: nat, y: nat, d: nat)
    ensures (x + y) * d == x * d + y * d
  {
  }

  lemma OneDoubled()
    ensures Pow(2, 1075) == 2 * Unit()
  {
  }

  /** The comparison with a number, in multiples of the smallest one. */
  lemma SideOfNumber(b: nat, n: nat, d: nat, m: nat, u: nat, z: nat)
    requires b <= INF && m >= Pow(10, 768) && (u == 0 || z == 0) && d >= 1 && Within(n, d, m, u, z)
    ensures Below(2 * Units(b), m, u, z) ==> Units(b) * d < n * Unit()
    ensures !Below(2 * Units(b), m, u, z) ==> Units(b) * d > n * Unit()
  {
    NumberIsPoint(b);
    OneDoubled();
    Halves(Units(b), d, n, Unit(), Pow(2, 1075));
    SideOf(2 * Units(b), n, d, m, u, z);
  }

  lemma ChosenBySide(b: nat, n: nat, d: nat, above: bool)
    requires above ==> (Units(b) + Units(b + 1)) * d < n * Pow(2, 1075)
    requires !above ==> (Units(b) + Units(b + 1)) * d > n * Pow(2, 1075)
    ensures Chosen(n * Unit(), d, b) == if above then b + 1 else b
  {
    OneDoubled();
    Halves(0, d, n, Unit(), Pow(2, 1075));
    BothHalves(Units(b), Units(b + 1), d);
  }

  lemma SideOfMidpoint(b: nat, n: nat, d: nat, m: nat, u: nat, z: nat)
    requires b < INF && m >= Pow(10, 768) && (u == 0 || z == 0) && d >= 1 && Within(n, d, m, u, z)
    ensures Chosen(n * Unit(), d, b) == if Below(Units(b) + Units(b + 1), m, u, z) then b + 1 else b
  {
    MidpointIsPoint(b);
    SideOf(Units(b) + Units(b + 1), n, d, m, u, z);
    ChosenBySide(b, n, d, Below(Units(b) + Units(b + 1), m, u, z));
  }

  /** Two values strictly between the same consecutive multiples round alike. */
  lemma SameRounding(n: nat, d: nat, n': nat, d': nat, m: nat, u: nat, z: nat) returns (r: nat)
    requires m >= Pow(10, 768) && (u == 0 || z == 0) && d >= 1 && d' >= 1
    requires Within(n, d, m, u, z) && Within(n', d', m, u, z)
    ensures RoundsTo(n * Unit(), d, r) && RoundsTo(n' * Unit(), d', r)
  {
    SideOfNumber(INF, n, d, m, u, z);
    SideOfNumber(INF, n', d', m, u, z);
    if Below(2 * Units(INF), m, u, z) {
      Overflows(n * Unit(), d);
      Overflows(n' * Unit(), d');
      r := INF;
    } else {
      var b := Floor(n * Unit(), d, 0, INF);
      if b >= INF {
        UnitsMonotone(INF, b);
        MulLeft(Units(INF), Units(b), d);
      }
      SideOfNumber(b, n, d, m, u, z);
      SideOfNumber(b, n', d', m, u, z);
      SideOfNumber(b + 1, n, d, m, u, z);
      SideOfNumber(b + 1, n', d', m, u, z);
      RoundsToChosen(n * Unit(), d, b);
      RoundsToChosen(n' * Unit(), d', b);
      SideOfMidpoint(b, n, d, m, u, z);
      SideOfMidpoint(b, n', d', m, u, z);
      r := Chosen(n * Unit(), d, b);
      r := if r < INF then r else INF;
    }
  }
}
