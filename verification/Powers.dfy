/** Powers, and the bitwise operations of unsigned machine words as arithmetic. */
module Powers {
  function Pow(b: nat, n: nat): nat {
    if n == 0 then 1 else b * Pow(b, n - 1)
  }

  lemma {:induction false} PowPositive(b: nat, n: nat)
    requires b >= 1
    ensures Pow(b, n) >= 1
  {
    if n > 0 {
      PowPositive(b, n - 1);
      MulPositive(b, Pow(b, n - 1));
    }
  }

  lemma MulPositive(a: nat, b: nat)
    requires a >= 1 && b >= 1
    ensures a * b >= 1 && a * b >= a && a * b >= b
  {
    assert (a - 1) * b >= 0 && a * (b - 1) >= 0;
  }

  lemma MulLeft(a: int, b: int, c: int)
    requires a <= b && c >= 0
    ensures a * c <= b * c
  {
    assert (b - a) * c >= 0;
  }

  lemma OneMore(a: int, p: int)
    ensures (a + 1) * p == a * p + p
  {
  }

  lemma MulLeftStrict(a: int, b: int, c: int)
    requires a < b && c > 0
    ensures a * c < b * c
  {
    MulLeft(a + 1, b, c);
    assert (a + 1) * c == a * c + c;
  }

  /** Cancellation, in both directions. */
  lemma MulCancel(a: int, b: int, c: int)
    requires c > 0
    ensures a * c < b * c <==> a < b
    ensures a * c == b * c <==> a == b
  {
    if a < b {
      MulLeftStrict(a, b, c);
    } else if b < a {
      MulLeftStrict(b, a, c);
    }
  }

  lemma {:induction false} PowAdd(b: nat, m: nat, n: nat)
    ensures Pow(b, m + n) == Pow(b, m) * Pow(b, n)
  {
    if m > 0 {
      PowAdd(b, m - 1, n);
      assert b * (Pow(b, m - 1) * Pow(b, n)) == (b * Pow(b, m - 1)) * Pow(b, n);
    }
  }

  lemma PowMonotone(b: nat, m: nat, n: nat)
    requires b >= 1 && m <= n
    ensures Pow(b, m) <= Pow(b, n)
  {
    PowAdd(b, m, n - m);
    PowPositive(b, m);
    PowPositive(b, n - m);
    MulPositive(Pow(b, m), Pow(b, n - m));
  }

  /** The base of a power of two can be regrouped. */
  lemma {:induction false} PowPow(b: nat, m: nat, n: nat)
    ensures Pow(Pow(b, m), n) == Pow(b, m * n)
  {
    if n > 0 {
      PowPow(b, m, n - 1);
      PowAdd(b, m, m * (n - 1));
      assert m + m * (n - 1) == m * n;
    }
  }

  lemma {:induction false} PowProduct(a: nat, b: nat, n: nat)
    ensures Pow(a * b, n) == Pow(a, n) * Pow(b, n)
  {
    if n > 0 {
      PowProduct(a, b, n - 1);
      Regroup(a, b, Pow(a, n - 1), Pow(b, n - 1));
    }
  }

  lemma Regroup(a: int, b: int, x: int, y: int)
    ensures (a * b) * (x * y) == (a * x) * (b * y)
  {
    assert (a * b) * (x * y) == ((a * b) * x) * y;
    assert (a * b) * x == (a * x) * b;
    assert ((a * x) * b) * y == (a * x) * (b * y);
  }

  lemma {:induction false} PowBase(a: nat, b: nat, n: nat)
    requires a <= b
    ensures Pow(a, n) <= Pow(b, n)
  {
    if n > 0 {
      PowBase(a, b, n - 1);
      MulLeft(a, b, Pow(a, n - 1));
      MulLeft(Pow(a, n - 1), Pow(b, n - 1), b);
    }
  }

  /** Quotient and remainder are determined by the equation between them. */
  lemma DivUnique(x: int, d: int, q: int, r: int)
    requires d > 0 && x == q * d + r && 0 <= r < d
    ensures x / d == q && x % d == r
  {
    var k := x / d - q;
    assert k * d == r - x % d;
    Fewer(k, d);
  }

  lemma Fewer(k: int, d: int)
    requires d > 0
    ensures k >= 1 ==> k * d >= d
    ensures k <= -1 ==> k * d <= -d
  {
    assert k >= 1 ==> (k - 1) * d >= 0;
    assert k <= -1 ==> (-1 - k) * d >= 0;
  }

  // ---- Bitwise operations ----

  /** `a | b`. */
  function Or(a: nat, b: nat): nat {
    if a == 0 && b == 0 then 0 else 2 * Or(a / 2, b / 2) + (if a % 2 == 1 || b % 2 == 1 then 1 else 0)
  }

  /** `a & b`. */
  function And(a: nat, b: nat): nat {
    if a == 0 && b == 0 then 0 else 2 * And(a / 2, b / 2) + (if a % 2 == 1 && b % 2 == 1 then 1 else 0)
  }

  lemma {:induction false} AndZero(a: nat)
    ensures And(a, 0) == 0 && And(0, a) == 0
  {
    if a != 0 {
      AndZero(a / 2);
    }
  }

  lemma {:induction false} OrZero(a: nat)
    ensures Or(a, 0) == a && Or(0, a) == a
  {
    if a != 0 {
      OrZero(a / 2);
    }
  }

  /** Words without common bits: the higher one a multiple of a power of two above the lower one. */
  lemma {:induction false} OrDisjoint(h: nat, l: nat, n: nat)
    requires l < Pow(2, n)
    ensures Or(h * Pow(2, n), l) == h * Pow(2, n) + l
  {
    if n == 0 {
      OrZero(h);
    } else {
      var p := Pow(2, n - 1);
      assert h * (2 * p) == 2 * (h * p);
      assert (2 * (h * p)) / 2 == h * p;
      OrDisjoint(h, l / 2, n - 1);
    }
  }

  /** Masking with `2^n - 1`. */
  lemma {:induction false} AndMask(a: nat, n: nat)
    ensures Pow(2, n) >= 1
    ensures And(a, Pow(2, n) - 1) == a % Pow(2, n)
  {
    PowPositive(2, n);
    if n == 0 {
      AndZero(a);
    } else {
      var p := Pow(2, n - 1);
      PowPositive(2, n - 1);
      AndMask(a / 2, n - 1);
      assert (2 * p - 1) / 2 == p - 1;
      HalveMod(a, p);
    }
  }

  lemma HalveMod(a: nat, p: nat)
    requires p > 0
    ensures a % (2 * p) == 2 * (a / 2 % p) + a % 2
  {
    var q, r := a / 2 / p, a / 2 % p;
    assert a == 2 * (q * p + r) + a % 2;
    assert 2 * (q * p) == q * (2 * p);
    DivUnique(a, 2 * p, q, 2 * r + a % 2);
  }
}
