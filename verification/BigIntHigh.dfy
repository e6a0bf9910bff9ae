/** Comparing big integers, and reading off their length and their most significant 64 bits. */
module BigIntHigh {
  import opened Powers
  import opened Limbs
  import opened BigInt
  import opened BigIntShift

  // ---- Comparison ----

  lemma LongerIsLarger(s: seq<Limb>, t: seq<Limb>)
    requires |s| < |t| && Normal(t)
    ensures Val(s) < Val(t)
  {
    NormalMeansLarge(t);
    ValFits(s, |t| - 1);
  }

  lemma FirstDifference(s: seq<Limb>, t: seq<Limb>, k: nat)
    requires |s| == |t| && k < |s| && s[k + 1..] == t[k + 1..] && s[k] < t[k]
    ensures Val(s) < Val(t)
  {
    var tail := s[k + 1..];
    assert s == s[..k + 1] + tail && t == t[..k + 1] + tail;
    ValConcat(s[..k + 1], tail);
    ValConcat(t[..k + 1], tail);
    ValTake(s, k);
    ValTake(t, k);
    ValBound(s[..k]);
    Decides(Val(s[..k]), s[k], Val(t[..k]), t[k], Pow(B, k));
  }

  lemma Decides(a: nat, x: nat, b: nat, y: nat, p: nat)
    requires a < p && x < y
    ensures a + x * p < b + y * p
  {
    MulLeft(x + 1, y, p);
    assert (x + 1) * p == x * p + p;
  }

  /** On normalised operands this is the order of the integers. */
  method Compare(v: StackVec, w: StackVec) returns (ord: int)
    requires v.Valid() && w.Valid() && Normal(v.Limbs()) && Normal(w.Limbs())
    ensures ord < 0 <==> v.Value() < w.Value()
    ensures ord > 0 <==> v.Value() > w.Value()
  {
    if v.length > w.length {
      LongerIsLarger(w.Limbs(), v.Limbs());
      return 1;
    } else if v.length < w.length {
      LongerIsLarger(v.Limbs(), w.Limbs());
      return -1;
    }
    var index := v.length;
    while index > 0
      invariant 0 <= index <= v.length && v.Limbs()[index..] == w.Limbs()[index..]
    {
      index := index - 1;
      if v.data[index] > w.data[index] {
        FirstDifference(w.Limbs(), v.Limbs(), index);
        return 1;
      } else if v.data[index] < w.data[index] {
        FirstDifference(v.Limbs(), w.Limbs(), index);
        return -1;
      }
      assert v.Limbs()[index..] == [v.Limbs()[index]] + v.Limbs()[index + 1..];
      assert w.Limbs()[index..] == [w.Limbs()[index]] + w.Limbs()[index + 1..];
    }
    assert v.Limbs() == w.Limbs();
    ord := 0;
  }

  // ---- Leading zeroes and length ----

  const Half: nat := 0x8000_0000_0000_0000

  function LeadingZeroes(x: Limb): (z: nat)
    requires x > 0
    ensures z < 64 && Half <= x * Pow(2, z) < B
    decreases B - x
  {
    if x >= Half then assert Pow(2, 0) == 1; 0
    else DoubleShift(x, LeadingZeroes(2 * x)); 1 + LeadingZeroes(2 * x)
  }

  lemma DoubleShift(x: Limb, z: nat)
    requires 0 < x && Half <= (2 * x) * Pow(2, z) < B && z < 64
    ensures Half <= x * Pow(2, 1 + z) < B && 1 + z < 64
  {
    assert (2 * x) * Pow(2, z) == x * Pow(2, 1 + z) by {
      assert Pow(2, 1 + z) == 2 * Pow(2, z);
      assert (2 * x) * Pow(2, z) == x * (2 * Pow(2, z));
    }
    if z == 63 {
      Word();
      assert Pow(2, 1 + z) == B;
      MulPositive(x, Pow(2, 1 + z));
    }
  }

  function LengthOf(s: seq<Limb>): nat {
    if s == [] || s[|s| - 1] == 0 then 0 else 64 * |s| - LeadingZeroes(s[|s| - 1])
  }

  // ---- The high 64 bits ----

  /** The most significant 64 bits of two limbs, and whether bits are left over. */
  function HighOf(r0: Limb, r1: Limb): (nat, bool)
    requires r0 > 0
  {
    var shl := LeadingZeroes(r0);
    if shl == 0 then (r0, r1 != 0)
    else
      PowPositive(2, 64 - shl);
      (ShiftIn(r0, r1, shl), r1 * Pow(2, shl) % B != 0)
  }

  /** What is left over is a multiple of the shift. */
  lemma HighSplit(r0: Limb, r1: Limb) returns (d: nat)
    requires r0 > 0
    ensures var p := Pow(2, LeadingZeroes(r0));
            && (r0 * B + r1) * p == HighOf(r0, r1).0 * B + d && d + p <= B
            && Half <= HighOf(r0, r1).0 < B && (HighOf(r0, r1).1 <==> d != 0)
  {
    var z := LeadingZeroes(r0);
    if z == 0 {
      assert Pow(2, 0) == 1;
      d := r1;
    } else {
      WordBits(z);
      ShiftSplit(r0, r1, z);
      d := HighNumbers(r0, r1, ShiftIn(r0, r1, z), Pow(2, z), Pow(2, 64 - z));
    }
  }

  lemma HighNumbers(r0: nat, r1: Limb, hi: nat, p: nat, q: nat) returns (d: nat)
    requires p * q == B && p >= 1 && q >= 1 && Half <= r0 * p < B && hi < B
    requires hi + (r0 / q) * B == r0 * p + r1 / q
    ensures (r0 * B + r1) * p == hi * B + d && d + p <= B && Half <= hi
    ensures d == r1 * p % B
  {
    NoBitsOut(r0, p, q);
    var c, l := r1 / q, r1 % q;
    Times(c, l, q, p);
    d := l * p;
    DivUnique(r1 * p, B, c, d);
    assert (r0 * B + r1) * p == (r0 * B) * p + r1 * p;
    assert (r0 * B) * p == (r0 * p) * B;
  }

  lemma NoBitsOut(x: nat, p: nat, q: nat)
    requires p * q == B && p >= 1 && q >= 1 && x * p < B
    ensures x / q == 0
  {
    MulCancel(x, q, p);
    assert x < q;
  }

  /** `hi` are the 64 most significant of the `bits` bits of `n`, and `truncated` says whether any of
      the others is set. */
  ghost predicate HighBits(n: nat, hi: nat, truncated: bool, bits: nat) {
    && Half <= hi < B
    && hi * Pow(2, bits) <= n * B < (hi + 1) * Pow(2, bits)
    && (truncated <==> hi * Pow(2, bits) != n * B)
  }

  lemma {:induction false} NonzeroLimb(s: seq<Limb>, i: nat)
    requires i < |s| && s[i] != 0
    ensures Val(s) != 0
  {
    var n := |s| - 1;
    if i < n {
      NonzeroLimb(s[..n], i);
    } else {
      PowPositive(B, n);
      MulPositive(s[n], Pow(B, n));
    }
  }

  /** Whether a limb other than the `index` most significant ones is set. */
  method Nonzero(v: StackVec, index: nat) returns (r: bool)
    requires v.Valid() && index <= v.length
    ensures r <==> Val(v.Limbs()[..v.length - index]) != 0
  {
    var i := index;
    ghost var low := v.Limbs()[..v.length - index];
    while i < v.length
      invariant index <= i <= v.length
      invariant forall k :: v.length - i <= k < v.length - index ==> low[k] == 0
    {
      if v.data[v.length - i - 1] != 0 {
        NonzeroLimb(low, v.length - i - 1);
        return true;
      }
      i := i + 1;
    }
    ValZeros(low);
    r := false;
  }

  lemma CompareScaled(x: nat, n: nat, p: nat, z: nat, bits: nat)
    requires bits * z == p * B && z >= 1
    ensures x * p < n * z <==> x * bits < n * B
    ensures x * p == n * z <==> x * bits == n * B
  {
    assert (x * bits) * z == (x * p) * B by {
      assert (x * bits) * z == x * (bits * z);
      assert x * (p * B) == (x * p) * B;
    }
    assert (n * B) * z == (n * z) * B;
    MulCancel(x * p, n * z, B);
    MulCancel(x * bits, n * B, z);
  }

  lemma BitsOfLimbs(n: nat, z: nat)
    requires n >= 1 && z < 64
    ensures Pow(2, 64 * n - z) * Pow(2, z) == Pow(B, n - 1) * B
  {
    PowAdd(2, 64 * n - z, z);
    PowPow(2, 64, n);
    Word();
  }

  /** From a statement about the limbs, scaled so that the top one has no leading zeroes. */
  lemma ToBits(s: seq<Limb>, hi: nat, truncated: bool)
    requires s != [] && Normal(s) && Half <= hi < B
    requires var z, p := Pow(2, LeadingZeroes(s[|s| - 1])), Pow(B, |s| - 1);
             hi * p <= Val(s) * z < (hi + 1) * p && (truncated <==> hi * p != Val(s) * z)
    ensures HighBits(Val(s), hi, truncated, LengthOf(s))
  {
    var lz := LeadingZeroes(s[|s| - 1]);
    BitsOfLimbs(|s|, lz);
    PowPositive(2, lz);
    CompareScaled(hi, Val(s), Pow(B, |s| - 1), Pow(2, lz), Pow(2, LengthOf(s)));
    CompareScaled(hi + 1, Val(s), Pow(B, |s| - 1), Pow(2, lz), Pow(2, LengthOf(s)));
  }

  /** The two top limbs and the rest of the number. */
  lemma TwoLimbs(s: seq<Limb>)
    requires |s| >= 2
    ensures Val(s) == (s[|s| - 1] * B + s[|s| - 2]) * Pow(B, |s| - 2) + Val(s[..|s| - 2])
  {
    var n := |s|;
    ValTake(s, n - 1);
    ValTake(s, n - 2);
    assert s[..n] == s;
    assert Pow(B, n - 1) == B * Pow(B, n - 2);
    Stack(s[n - 1], s[n - 2], Pow(B, n - 2));
  }

  lemma Stack(a: int, b: int, p: int)
    ensures (a * B + b) * p == a * (B * p) + b * p
  {
    assert (a * B) * p == a * (B * p);
  }

  lemma HighOfMany(s: seq<Limb>, rest: bool)
    requires |s| >= 2 && Normal(s) && (rest <==> Val(s[..|s| - 2]) != 0)
    ensures var (hi, truncated) := HighOf(s[|s| - 1], s[|s| - 2]);
            HighBits(Val(s), hi, truncated || rest, LengthOf(s))
  {
    var r0, r1, low := s[|s| - 1], s[|s| - 2], Val(s[..|s| - 2]);
    var d := HighSplit(r0, r1);
    var q := Pow(B, |s| - 2);
    TwoLimbs(s);
    ValBound(s[..|s| - 2]);
    PowPositive(2, LeadingZeroes(r0));
    HighInequality(r0 * B + r1, low, d, HighOf(r0, r1).0, Pow(2, LeadingZeroes(r0)), q);
    assert Pow(B, |s| - 1) == B * q;
    ToBits(s, HighOf(r0, r1).0, HighOf(r0, r1).1 || rest);
  }

  lemma HighInequality(top: nat, low: nat, d: nat, hi: nat, z: nat, q: nat)
    requires top * z == hi * B + d && d + z <= B && low < q && z >= 1
    ensures hi * (B * q) <= (top * q + low) * z < (hi + 1) * (B * q)
    ensures hi * (B * q) == (top * q + low) * z <==> d == 0 && low == 0
  {
    HighExpand(top, low, d, hi, z, q);
    RestSmall(low, d, z, q);
    OneMore(hi, B * q);
  }

  lemma HighExpand(top: nat, low: nat, d: nat, hi: nat, z: nat, q: nat)
    requires top * z == hi * B + d
    ensures (top * q + low) * z == hi * (B * q) + (d * q + low * z)
  {
    assert (top * q + low) * z == (top * q) * z + low * z;
    assert (top * q) * z == (top * z) * q;
    assert (hi * B + d) * q == (hi * B) * q + d * q;
    assert (hi * B) * q == hi * (B * q);
  }

  lemma RestSmall(low: nat, d: nat, z: nat, q: nat)
    requires d + z <= B && low < q && z >= 1
    ensures 0 <= d * q + low * z < B * q
    ensures d * q + low * z == 0 <==> d == 0 && low == 0
  {
    MulLeft(low + 1, q, z);
    assert (low + 1) * z == low * z + z;
    MulLeft(d + z, B, q);
    assert (d + z) * q == d * q + z * q;
    if d != 0 {
      MulPositive(d, q);
    }
    if low != 0 {
      MulPositive(low, z);
    }
  }

  lemma HighOfOne(s: seq<Limb>)
    requires |s| == 1 && Normal(s)
    ensures HighBits(Val(s), s[0] * Pow(2, LeadingZeroes(s[0])), false, LengthOf(s))
  {
    ValTake(s, 0);
    assert s[..1] == s;
    assert Pow(B, 0) == 1;
    ToBits(s, s[0] * Pow(2, LeadingZeroes(s[0])), false);
  }

  /** The most significant 64 bits; zero for the number zero. */
  method Hi64(v: StackVec) returns (hi: nat, truncated: bool)
    requires v.Valid() && Normal(v.Limbs())
    ensures v.length > 0 ==> HighBits(v.Value(), hi, truncated, LengthOf(v.Limbs()))
    ensures v.length == 0 ==> hi == 0 && !truncated
  {
    if v.length == 0 {
      return 0, false;
    } else if v.length == 1 {
      HighOfOne(v.Limbs());
      return v.data[0] * Pow(2, LeadingZeroes(v.data[0])), false;
    } else {
      var (h, t) := HighOf(v.data[v.length - 1], v.data[v.length - 2]);
      var rest := Nonzero(v, 2);
      HighOfMany(v.Limbs(), rest);
      return h, t || rest;
    }
  }

  /** The length in bits is the position of the highest bit. */
  lemma LengthIsLength(n: nat, hi: nat, truncated: bool, bits: nat)
    requires HighBits(n, hi, truncated, bits) && bits >= 1
    ensures Pow(2, bits - 1) <= n < Pow(2, bits)
  {
    var p := Pow(2, bits - 1);
    assert Pow(2, bits) == 2 * p;
    PowPositive(2, bits - 1);
    MulLeft(Half, hi, 2 * p);
    MulLeft(hi + 1, B, 2 * p);
  }

  lemma LengthBounds(s: seq<Limb>)
    requires s != [] && Normal(s)
    ensures LengthOf(s) >= 1 && Pow(2, LengthOf(s) - 1) <= Val(s) < Pow(2, LengthOf(s))
  {
    if |s| == 1 {
      HighOfOne(s);
      LengthIsLength(Val(s), s[0] * Pow(2, LeadingZeroes(s[0])), false, LengthOf(s));
    } else {
      var (hi, truncated) := HighOf(s[|s| - 1], s[|s| - 2]);
      var rest := Val(s[..|s| - 2]) != 0;
      HighOfMany(s, rest);
      LengthIsLength(Val(s), hi, truncated || rest, LengthOf(s));
    }
  }

  /** The least number of bits that hold the value. */
  method BitLength(v: StackVec) returns (bits: nat)
    requires v.Valid() && Normal(v.Limbs())
    ensures v.Value() < Pow(2, bits) && (v.Value() > 0 ==> bits >= 1 && Pow(2, bits - 1) <= v.Value())
    ensures bits == LengthOf(v.Limbs())
  {
    if v.length == 0 {
      bits := 0;
    } else {
      LengthBounds(v.Limbs());
      bits := 64 * v.length - LeadingZeroes(v.data[v.length - 1]);
    }
  }
}
