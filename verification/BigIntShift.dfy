/** Shifting big integers to the left. */
module BigIntShift {
  import opened Powers
  import opened Limbs
  import opened BigInt
  import opened BigIntPowers

  /** `(xi << n) | (prev >> (64 - n))`. */
  function ShiftIn(xi: Limb, prev: Limb, n: nat): nat
    requires n < 64 && Pow(2, 64 - n) >= 1
  {
    Or((xi * Pow(2, n)) % B, prev / Pow(2, 64 - n))
  }

  lemma Word()
    ensures Pow(2, 64) == B
  {
    assert Pow(2, 4) == 16;
    PowAdd(2, 4, 4);
    PowAdd(2, 8, 8);
    PowAdd(2, 16, 16);
    PowAdd(2, 32, 32);
  }

  lemma WordBits(n: nat)
    requires n <= 64
    ensures Pow(2, n) * Pow(2, 64 - n) == B && Pow(2, n) >= 1 && Pow(2, 64 - n) >= 1
  {
    Word();
    PowPositive(2, n);
    PowPositive(2, 64 - n);
    PowAdd(2, n, 64 - n);
  }

  lemma ShiftSplit(xi: Limb, prev: Limb, n: nat)
    requires 0 < n < 64
    ensures Pow(2, 64 - n) >= 1
    ensures var r := ShiftIn(xi, prev, n);
            r < B && r + (xi / Pow(2, 64 - n)) * B == xi * Pow(2, n) + prev / Pow(2, 64 - n)
  {
    WordBits(n);
    Shifted(xi, prev, n, Pow(2, n), Pow(2, 64 - n));
  }

  lemma Shifted(xi: Limb, prev: Limb, n: nat, p: nat, q: nat)
    requires p == Pow(2, n) && p * q == B && p >= 1 && q >= 1
    ensures var r := Or(xi * p % B, prev / q);
            r < B && r + (xi / q) * B == xi * p + prev / q
  {
    var h, l, c := xi / q, xi % q, prev / q;
    Times(h, l, q, p);
    DivUnique(xi * p, B, h, l * p);
    QuotientBound(prev, p, q);
    OrDisjoint(l, c, n);
  }

  lemma QuotientBound(x: nat, p: nat, q: nat)
    requires q >= 1 && x < p * q
    ensures x / q < p
  {
    MulCancel(x / q, p, q);
  }

  lemma Times(h: int, l: int, q: int, p: int)
    requires p * q == B && 0 <= l < q && p >= 1
    ensures (h * q + l) * p == h * B + l * p
    ensures 0 <= l * p <= B - p
  {
    assert (h * q + l) * p == (h * q) * p + l * p;
    assert (h * q) * p == h * (p * q);
    MulLeft(l, q - 1, p);
    assert (q - 1) * p == p * q - p;
  }

  method ShlLimbBits(v: StackVec, n: nat) returns (carry: Limb)
    requires v.Valid() && 0 < n < 64
    modifies v.data
    ensures v.Value() + carry * Pow(B, v.length) == old(v.Value()) * Pow(2, n)
  {
    ghost var was := v.Limbs();
    WordBits(n);
    var prev: Limb, index: nat := 0, 0;
    carry := 0;
    while index < v.length
      invariant index <= v.length && v.Limbs()[index..] == was[index..]
      invariant carry == prev / Pow(2, 64 - n)
      invariant Val(v.Limbs()[..index]) + carry * Pow(B, index) == Val(was[..index]) * Pow(2, n)
    {
      ghost var before, c := v.Limbs(), carry;
      assert before[index] == was[index];
      var xi := v.data[index];
      ShiftSplit(xi, prev, n);
      v.data[index] := ShiftIn(xi, prev, n);
      prev := xi;
      carry := Carried(xi, n);
      ghost var z := v.data[index];
      assert v.Limbs() == before[index := z];
      LimbStep(before, was, index, z, Pow(2, n), c, carry);
      index := index + 1;
    }
    assert v.Limbs()[..index] == v.Limbs() && was[..index] == was;
  }

  /** `xi >> (64 - n)`. */
  function Carried(xi: Limb, n: nat): (r: Limb)
    requires 0 < n < 64
    ensures Pow(2, 64 - n) >= 1 && r == xi / Pow(2, 64 - n)
  {
    PowPositive(2, 64 - n);
    DivSmall(xi, Pow(2, 64 - n));
    xi / Pow(2, 64 - n)
  }

  lemma DivSmall(x: nat, d: nat)
    requires d > 0
    ensures 0 <= x / d <= x
  {
    MulPositiveNat(x / d, d);
  }

  method ShlBits(v: StackVec, n: nat) returns (ok: bool)
    requires v.Valid() && 0 < n < 64
    modifies v, v.data
    ensures v.Valid() && (ok <==> old(v.Value()) * Pow(2, n) < v.Limit())
    ensures ok ==> v.Value() == old(v.Value()) * Pow(2, n)
    ensures ok && old(Positive(v)) ==> Positive(v)
    ensures ok && old(Normal(v.Limbs())) ==> Normal(v.Limbs())
  {
    ghost var was := v.Limbs();
    var carry := ShlLimbBits(v, n);
    PowPositive(2, n);
    if carry == 0 {
      StaysNormal(was, v.Limbs(), Pow(2, n));
    }
    if Val(was) > 0 {
      MulPositive(Val(was), Pow(2, n));
    }
    ok := v.PushCarry(carry, Val(was) * Pow(2, n));
  }

  /** Copy the first `count` limbs `n` places up, from the last one down. */
  method CopyBackward(a: array<Limb>, count: nat, n: nat)
    requires n + count <= a.Length
    modifies a
    ensures a[n..n + count] == old(a[..count])
  {
    var i := count;
    while i > 0
      invariant 0 <= i <= count
      invariant forall k :: 0 <= k < i ==> a[k] == old(a[k])
      invariant forall k :: i <= k < count ==> a[n + k] == old(a[k])
    {
      i := i - 1;
      a[n + i] := a[i];
    }
  }

  method FillZeros(a: array<Limb>, n: nat)
    requires n <= a.Length
    modifies a
    ensures forall k :: 0 <= k < n ==> a[k] == 0
    ensures a[n..] == old(a[n..])
  {
    var i := 0;
    while i < n
      invariant 0 <= i <= n
      invariant forall k :: 0 <= k < i ==> a[k] == 0
      invariant forall k :: n <= k < a.Length ==> a[k] == old(a[k])
    {
      a[i] := 0;
      i := i + 1;
    }
  }

  /** Move the limbs up by `n` places and clear the lowest ones. */
  method MoveUp(v: StackVec, n: nat)
    requires v.Valid() && n + v.length <= v.data.Length
    modifies v, v.data
    ensures v.Valid() && v.Value() == old(v.Value()) * Pow(B, n) && v.length == n + old(v.length)
  {
    ghost var was := v.Limbs();
    CopyBackward(v.data, v.length, n);
    assert v.data[n..n + v.length] == v.data[n..][..v.length];
    FillZeros(v.data, n);
    v.length := n + v.length;
    ghost var zeros := v.data[..n];
    assert v.data[n..v.length] == v.data[n..][..v.length - n];
    assert v.Limbs() == zeros + was;
    ValZeros(zeros);
    ValConcat(zeros, was);
  }

  method ShlLimbs(v: StackVec, n: nat) returns (ok: bool)
    requires v.Valid()
    modifies v, v.data
    ensures v.Valid() && (ok <==> n + old(v.length) <= v.data.Length)
    ensures ok ==> v.Value() == old(v.Value()) * Pow(B, n)
    ensures ok && old(Positive(v)) ==> Positive(v)
    ensures old(Positive(v)) && !ok ==> old(v.Value()) * Pow(B, n) >= v.Limit()
    ensures ok && old(Normal(v.Limbs())) ==> Normal(v.Limbs())
  {
    ghost var was := v.Limbs();
    if n + v.length > v.data.Length {
      ok := false;
      if was != [] && Normal(was) {
        TooLong(was, n, v.data.Length);
      }
    } else if v.length != 0 {
      MoveUp(v, n);
      if Normal(was) {
        LimbsUp(was, v.Limbs(), n);
      }
      ok := true;
    } else {
      ok := true;
    }
  }

  lemma LimbsUp(s: seq<Limb>, t: seq<Limb>, n: nat)
    requires s != [] && Normal(s) && |t| == |s| + n && Val(t) == Val(s) * Pow(B, n)
    ensures Normal(t) && Val(t) > 0
  {
    NormalMeansLarge(s);
    NormalMeansLarge(t);
    PowAdd(B, |s| - 1, n);
    MulLeft(Pow(B, |s| - 1), Val(s), Pow(B, n));
    PowPositive(B, |t| - 1);
  }

  /** Multiply by 2^n. */
  method Shl(v: StackVec, n: nat) returns (ok: bool)
    requires v.Valid()
    modifies v, v.data
    ensures v.Valid() && (ok ==> v.Value() == old(v.Value()) * Pow(2, n))
    ensures old(Positive(v)) ==> (ok <==> old(v.Value()) * Pow(2, n) < v.Limit()) && (ok ==> Positive(v))
    ensures ok && old(Normal(v.Limbs())) ==> Normal(v.Limbs())
  {
    var rem, div := n % 64, n / 64;
    ghost var was := v.Value();
    ShiftParts(was, n);
    assert Pow(2, 0) == 1 && Pow(B, 0) == 1;
    ok := true;
    if rem != 0 {
      ok := ShlBits(v, rem);
    }
    if ok && div != 0 {
      ok := ShlLimbs(v, div);
    }
    if ok {
      ValFits(v.Limbs(), v.data.Length);
    }
  }

  lemma ShiftParts(value: nat, n: nat)
    ensures value * Pow(2, n) == (value * Pow(2, n % 64)) * Pow(B, n / 64)
    ensures value * Pow(2, n % 64) <= value * Pow(2, n)
  {
    Word();
    PowPow(2, 64, n / 64);
    PowAdd(2, n % 64, 64 * (n / 64));
    PowPositive(B, n / 64);
    var p, q := Pow(2, n % 64), Pow(B, n / 64);
    assert value * (p * q) == (value * p) * q;
    MulPositiveNat(value * p, q);
  }

  /** Multiply by 10^exp. */
  method Pow10(v: StackVec, exp: nat) returns (ok: bool)
    requires v.Valid()
    modifies v, v.data
    ensures v.Valid() && (ok ==> v.Value() == old(v.Value()) * Pow(10, exp))
    ensures old(Positive(v)) ==> (ok <==> old(v.Value()) * Pow(10, exp) < v.Limit()) && (ok ==> Positive(v))
    ensures ok && old(Normal(v.Limbs())) ==> Normal(v.Limbs())
  {
    ghost var was := v.Value();
    TenParts(was, exp);
    ok := Pow5(v, exp);
    if ok {
      ok := Shl(v, exp);
    }
  }

  lemma TenParts(value: nat, exp: nat)
    ensures value * Pow(10, exp) == (value * Pow(5, exp)) * Pow(2, exp)
    ensures value * Pow(5, exp) <= value * Pow(10, exp)
  {
    PowProduct(5, 2, exp);
    PowPositive(2, exp);
    var p, q := Pow(5, exp), Pow(2, exp);
    assert value * (p * q) == (value * p) * q;
    MulPositiveNat(value * p, q);
  }
}
