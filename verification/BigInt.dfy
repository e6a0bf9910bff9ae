/** The arbitrary-precision integers of the slow path: a fixed buffer of limbs, updated in place.
    Each operation returns false when the result does not fit the buffer. */
module BigInt {
  import opened Powers
  import opened Limbs

  /** 64-bit addition with an overflow flag. */
  function ScalarAdd(x: Limb, y: Limb): (r: (Limb, bool))
    ensures r.0 + (if r.1 then B else 0) == x + y
  {
    var z := (x + y) % B;
    (z, z < x)
  }

  /** 64-bit multiplication with a carry in and a carry out. */
  function ScalarMul(x: Limb, y: Limb, carry: Limb): (r: (Limb, Limb))
    ensures r.0 + r.1 * B == x * y + carry
  {
    CarryFits(x, y, carry);
    ((x * y + carry) % B, (x * y + carry) / B)
  }

  lemma CarryFits(x: Limb, y: Limb, carry: Limb)
    ensures 0 <= (x * y + carry) / B < B
  {
    MulLeft(x, B - 1, y);
  }

  lemma AddStep(value: int, was: int, now: int, carry: int, carry': int, p: int)
    requires now + (if carry' != 0 then B else 0) == was + carry && 0 <= carry' <= 1
    ensures value + (now - was) * p + carry' * (B * p) == value + carry * p
  {
    assert (now - was) * p + (carry' * B) * p == (now - was + carry' * B) * p;
    assert carry' * (B * p) == (carry' * B) * p;
  }

  lemma MulStep(done: int, prefix: int, y: int, limb: int, now: int, carry: int, carry': int, p: int)
    requires done + carry * p == prefix * y && now + carry' * B == limb * y + carry
    ensures done + now * p + carry' * (B * p) == (prefix + limb * p) * y
  {
    assert now * p + (carry' * B) * p == (now + carry' * B) * p;
    assert carry' * (B * p) == (carry' * B) * p;
    assert (limb * y + carry) * p == (limb * y) * p + carry * p;
    assert (limb * y) * p == (limb * p) * y;
    assert (prefix + limb * p) * y == prefix * y + (limb * p) * y;
  }

  /** One limb further in a multiplication by `y`, in place. */
  lemma LimbStep(before: seq<Limb>, was: seq<Limb>, index: nat, z: Limb, y: nat, carry: nat, carry': nat)
    requires |before| == |was| && index < |was| && before[index..] == was[index..]
    requires Val(before[..index]) + carry * Pow(B, index) == Val(was[..index]) * y
    requires z + carry' * B == was[index] * y + carry
    ensures var after := before[index := z];
            && after[index + 1..] == was[index + 1..]
            && Val(after[..index + 1]) + carry' * Pow(B, index + 1) == Val(was[..index + 1]) * y
  {
    var after := before[index := z];
    assert after[..index] == before[..index];
    assert after[index + 1..] == before[index..][1..] && was[index + 1..] == was[index..][1..];
    ValTake(after, index);
    ValTake(was, index);
    MulStep(Val(before[..index]), Val(was[..index]), y, was[index], z, carry, carry', Pow(B, index));
  }

  class StackVec {
    const data: array<Limb>
    var length: nat

    ghost predicate Valid()
      reads this
    {
      length <= data.Length
    }

    ghost function Limbs(): (s: seq<Limb>)
      requires Valid()
      reads this, data
    {
      data[..length]
    }

    ghost function Value(): nat
      requires Valid()
      reads this, data
    {
      Val(Limbs())
    }

    /** The least number that does not fit. */
    ghost function Limit(): nat {
      Pow(B, data.Length)
    }

    constructor (capacity: nat)
      ensures Valid() && Limbs() == [] && data.Length == capacity && fresh(data)
    {
      data := new Limb[capacity];
      length := 0;
    }

    method TryPush(value: Limb) returns (ok: bool)
      requires Valid()
      modifies this, data
      ensures Valid() && (ok <==> old(length) < data.Length)
      ensures Limbs() == old(Limbs()) + if ok then [value] else []
    {
      ok := length < data.Length;
      if ok {
        data[length] := value;
        length := length + 1;
      }
    }

    /** Push what is carried out of the top limb, to complete the number `target`. */
    method PushCarry(carry: Limb, ghost target: nat) returns (ok: bool)
      requires Valid() && Value() + carry * Pow(B, length) == target
      modifies this, data
      ensures Valid() && (ok <==> target < Limit()) && (ok ==> Value() == target)
      ensures ok ==> Limbs() == old(Limbs()) + if carry != 0 then [carry] else []
    {
      ok := true;
      if carry != 0 {
        ghost var was := Limbs();
        ok := TryPush(carry);
        ValSnoc(was, carry);
        MulLeft(1, carry, Pow(B, |was|));
      }
      if ok {
        ValFits(Limbs(), data.Length);
      }
    }

    /** Add `y * B^start`. */
    method SmallAddFrom(y: Limb, start: nat) returns (ok: bool)
      requires Valid() && start <= length
      modifies this, data
      ensures Valid() && (ok <==> old(Value()) + y * Pow(B, start) < Limit())
      ensures ok ==> Value() == old(Value()) + y * Pow(B, start)
      ensures ok && old(Normal(Limbs())) ==> Normal(Limbs())
    {
      ghost var was0 := Limbs();
      ghost var target := Value() + y * Pow(B, start);
      var index: nat, carry: Limb := start, y;
      while carry != 0 && index < length
        invariant Valid() && length == old(length) && start <= index <= length
        invariant Value() + carry * Pow(B, index) == target
      {
        ghost var was, c := Limbs(), carry;
        var (z, overflow) := ScalarAdd(data[index], carry);
        data[index] := z;
        carry := if overflow then 1 else 0;
        assert Limbs() == was[index := z];
        ValUpdate(was, index, z);
        AddStep(Val(was), was[index], z, c, carry, Pow(B, index));
        assert Pow(B, index + 1) == B * Pow(B, index);
        index := index + 1;
      }
      assert carry == 0 || index == length;
      if carry == 0 {
        StaysLarge(was0, Limbs());
      }
      ok := PushCarry(carry, target);
    }

    /** Multiply the limbs by `y`; the carry belongs above them. */
    method MulLimbs(y: Limb) returns (carry: Limb)
      requires Valid()
      modifies data
      ensures Value() + carry * Pow(B, length) == old(Value()) * y
    {
      ghost var was := Limbs();
      carry := 0;
      var index: nat := 0;
      while index < length
        invariant index <= length && Limbs()[index..] == was[index..]
        invariant Val(Limbs()[..index]) + carry * Pow(B, index) == Val(was[..index]) * y
      {
        ghost var before, c := Limbs(), carry;
        assert before[index] == was[index];
        var (z, high) := ScalarMul(data[index], y, carry);
        data[index] := z;
        carry := high;
        assert Limbs() == before[index := z];
        LimbStep(before, was, index, z, y, c, carry);
        index := index + 1;
      }
      assert Limbs()[..index] == Limbs() && was[..index] == was;
    }

    /** Multiply by `y`. */
    method SmallMul(y: Limb) returns (ok: bool)
      requires Valid()
      modifies this, data
      ensures Valid() && (ok <==> old(Value()) * y < Limit())
      ensures ok ==> Value() == old(Value()) * y
      ensures ok && y != 0 && old(Normal(Limbs())) ==> Normal(Limbs())
    {
      ghost var was := Limbs();
      var carry := MulLimbs(y);
      if carry == 0 {
        StaysNormal(was, Limbs(), y);
      }
      ok := PushCarry(carry, Val(was) * y);
    }

    method TryResize(newLength: nat) returns (ok: bool)
      requires Valid()
      modifies this, data
      ensures Valid() && (ok <==> newLength <= data.Length)
      ensures ok && newLength >= old(length) ==> length == newLength && Value() == old(Value())
      ensures ok && newLength <= old(length) ==> Limbs() == old(Limbs())[..newLength]
      ensures !ok ==> Limbs() == old(Limbs())
    {
      ok := newLength <= data.Length;
      if ok && newLength <= length {
        length := newLength;
      } else if ok {
        ghost var was := Limbs();
        var i := length;
        while i < newLength
          invariant length <= i <= newLength && Limbs() == was
          invariant forall k :: length <= k < i ==> data[k] == 0
        {
          data[i] := 0;
          i := i + 1;
        }
        ghost var zeros := data[length..newLength];
        assert data[..newLength] == was + zeros;
        assert forall k :: 0 <= k < |zeros| ==> zeros[k] == data[length + k];
        ValZeros(zeros);
        ValConcat(was, zeros);
        length := newLength;
      }
    }

    /** Add the limbs `y` to as many limbs from position `start` on; the carry belongs above them. */
    method AddLimbs(y: seq<Limb>, start: nat) returns (carry: bool)
      requires Valid() && |y| + start <= length
      modifies data
      ensures Value() + (if carry then Pow(B, |y| + start) else 0) == old(Value()) + Val(y) * Pow(B, start)
    {
      ghost var base := Value();
      var index: nat;
      index, carry := 0, false;
      while index < |y|
        invariant index <= |y|
        invariant Value() + (if carry then Pow(B, index + start) else 0) == base + Val(y[..index]) * Pow(B, start)
      {
        ghost var was, c := Limbs(), carry;
        var (xi, c1) := ScalarAdd(data[index + start], y[index]);
        var c2 := false;
        if carry {
          var r := ScalarAdd(xi, 1);
          xi, c2 := r.0, r.1;
        }
        data[index + start] := xi;
        carry := c1 || c2;
        assert Limbs() == was[index + start := xi];
        ValUpdate(was, index + start, xi);
        ValTake(y, index);
        PowAdd(B, index, start);
        LargeAddStep(base, Val(was), was[index + start], xi, y[index], c, carry, Val(y[..index]), Pow(B, index), Pow(B, start));
        index := index + 1;
      }
      assert y[..index] == y;
    }

    /** Add the limbs `y`, from position `start` on. */
    method LargeAddFrom(y: seq<Limb>, start: nat) returns (ok: bool)
      requires Valid()
      modifies this, data
      ensures Valid() && (ok ==> Value() == old(Value()) + Val(y) * Pow(B, start))
      ensures y != [] && Normal(y) ==> (ok <==> old(Value()) + Val(y) * Pow(B, start) < Limit())
    {
      if length < start || |y| > length - start {
        ok := TryResize(|y| + start);
        if !ok {
          if y != [] && Normal(y) {
            TooLong(y, start, data.Length);
          }
          return;
        }
      }
      var carry := AddLimbs(y, start);
      ok := true;
      if carry {
        ok := SmallAddFrom(1, |y| + start);
      }
      if ok {
        ValFits(Limbs(), data.Length);
      }
    }

    /** Drop leading zero limbs. */
    method Normalize()
      requires Valid()
      modifies this
      ensures Valid() && Normal(Limbs()) && Value() == old(Value())
    {
      while length > 0 && data[length - 1] == 0
        invariant Valid() && Value() == old(Value())
      {
        ghost var was := Limbs();
        length := length - 1;
        assert Limbs() == was[..|was| - 1];
      }
    }

    method TryExtend(s: seq<Limb>) returns (ok: bool)
      requires Valid()
      modifies this, data
      ensures Valid() && (ok <==> old(length) + |s| <= data.Length)
      ensures Limbs() == old(Limbs()) + if ok then s else []
    {
      ok := length + |s| <= data.Length;
      if ok {
        var i: nat := 0;
        while i < |s|
          invariant i <= |s| && length == old(length) && data[..length] == old(Limbs()) && data[length..length + i] == s[..i]
        {
          data[length + i] := s[i];
          i := i + 1;
        }
        assert data[..length + |s|] == data[..length] + data[length..length + |s|];
        length := length + |s|;
      }
    }

    /** Add `z * yi`, moved up by `index` limbs: one row of the multiplication. */
    method AddRow(z: seq<Limb>, yi: Limb, index: nat) returns (ok: bool)
      requires Valid() && |z| <= data.Length && yi != 0
      modifies this, data
      ensures Valid() && (ok ==> Value() == old(Value()) + (Val(z) * yi) * Pow(B, index))
      ensures !ok && z != [] && Normal(z) ==> old(Value()) + (Val(z) * yi) * Pow(B, index) >= Limit()
    {
      var zi := new StackVec(data.Length);
      ok := zi.TryExtend(z);
      assert zi.Limbs() == z;
      ok := zi.SmallMul(yi);
      if ok {
        ghost var row := zi.Limbs();
        if z != [] && Normal(z) {
          RowNonempty(z, row, yi);
        }
        ok := LargeAddFrom(zi.data[..zi.length], index);
      } else {
        PowPositive(B, index);
        MulPositiveNat(Val(z) * yi, Pow(B, index));
      }
    }

    /** Grade-school multiplication.  An empty `y` is not treated as zero: it leaves the number as it is. */
    method LongMul(y: seq<Limb>) returns (ok: bool)
      requires Valid()
      modifies this, data
      ensures Valid() && (ok ==> Value() == old(Value()) * if y == [] then 1 else Val(y))
      ensures old(length) > 0 && old(Normal(Limbs())) && y != [] ==> (ok <==> old(Value()) * Val(y) < Limit())
      ensures ok ==> Normal(Limbs())
    {
      ghost var z := Limbs();
      var zs := data[..length];
      if y != [] {
        ok := SmallMul(y[0]);
        FirstLimb(y);
        if !ok {
          ProductGrows(Val(z), y, 1);
          return;
        }
        var index: nat := 1;
        while index < |y|
          invariant Valid() && index <= |y| && Value() == Val(z) * Val(y[..index])
        {
          var yi := y[index];
          RowSum(Val(z), y, index);
          if yi != 0 {
            ok := AddRow(zs, yi, index);
            if !ok {
              ProductGrows(Val(z), y, index + 1);
              return;
            }
          }
          index := index + 1;
        }
        assert y[..index] == y;
      }
      ValFits(Limbs(), data.Length);
      Normalize();
      ok := true;
    }
  }

  lemma RowNonempty(z: seq<Limb>, row: seq<Limb>, yi: Limb)
    requires z != [] && Normal(z) && yi != 0 && Val(row) == Val(z) * yi
    ensures row != []
  {
    NormalMeansLarge(z);
    PowPositive(B, |z| - 1);
    MulPositive(Val(z), yi);
  }

  lemma FirstLimb(y: seq<Limb>)
    requires y != []
    ensures Val(y[..1]) == y[0]
  {
    ValTake(y, 0);
  }

  lemma RowSum(v: nat, y: seq<Limb>, index: nat)
    requires index < |y|
    ensures v * Val(y[..index + 1]) == v * Val(y[..index]) + (v * y[index]) * Pow(B, index)
  {
    ValTake(y, index);
    Distribute(v, Val(y[..index]), y[index], Pow(B, index));
  }

  lemma Distribute(v: int, a: int, b: int, p: int)
    ensures v * (a + b * p) == v * a + (v * b) * p
  {
    assert v * (b * p) == (v * b) * p;
  }

  lemma {:induction false} PrefixGrows(y: seq<Limb>, index: nat)
    requires index <= |y|
    ensures Val(y[..index]) <= Val(y)
    decreases |y| - index
  {
    if index == |y| {
      assert y[..index] == y;
    } else {
      PrefixGrows(y, index + 1);
      ValTake(y, index);
    }
  }

  lemma ProductGrows(v: nat, y: seq<Limb>, index: nat)
    requires index <= |y|
    ensures v * Val(y[..index]) <= v * Val(y)
  {
    PrefixGrows(y, index);
    MulLeft(Val(y[..index]), Val(y), v);
  }

  lemma LargeAddStep(base: int, value: int, was: int, now: int, y: int, carry: bool, carry': bool, prefix: int, p: int, s: int)
    requires now + (if carry' then B else 0) == was + y + if carry then 1 else 0
    requires value + (if carry then p * s else 0) == base + prefix * s
    ensures value + (now - was) * (p * s) + (if carry' then B * (p * s) else 0) == base + (prefix + y * p) * s
  {
    var ps := p * s;
    assert (prefix + y * p) * s == prefix * s + y * ps by {
      assert (prefix + y * p) * s == prefix * s + (y * p) * s;
      assert (y * p) * s == y * ps;
    }
    assert (now - was) * ps == (y + (if carry then 1 else 0) - (if carry' then B else 0)) * ps;
  }

  lemma StaysNormal(s: seq<Limb>, t: seq<Limb>, y: nat)
    requires |s| == |t| && Val(t) == Val(s) * y
    ensures Normal(s) && y != 0 ==> Normal(t)
  {
    if s != [] && y != 0 {
      NormalMeansLarge(s);
      NormalMeansLarge(t);
      MulPositiveNat(Val(s), y);
    }
  }

  lemma StaysLarge(s: seq<Limb>, t: seq<Limb>)
    requires |s| == |t| && Val(t) >= Val(s)
    ensures Normal(s) ==> Normal(t)
  {
    if s != [] {
      NormalMeansLarge(s);
      NormalMeansLarge(t);
    }
  }

  lemma MulPositiveNat(a: nat, b: nat)
    requires b >= 1
    ensures a * b >= a
  {
    MulLeft(1, b, a);
  }
}
