/** Multiplication of big integers by powers of five. */
module BigIntPowers {
  import opened Powers
  import opened Limbs
  import opened BigInt

  /** 5^135. */
  const LargePowerOf5: seq<Limb> :=
    [1414648277510068013, 9180637584431281687, 4539964771860779200, 10482974169319127550, 198276706040285095]

  const SmallPowersOf5: seq<Limb> :=
    [1, 5, 25, 125, 625, 3125, 15625, 78125, 390625, 1953125, 9765625, 48828125, 244140625, 1220703125,
     6103515625, 30517578125, 152587890625, 762939453125, 3814697265625, 19073486328125, 95367431640625,
     476837158203125, 2384185791015625, 11920928955078125, 59604644775390625, 298023223876953125,
     1490116119384765625, 7450580596923828125]

  lemma {:induction false} SmallTable(e: nat)
    requires e < 28
    ensures SmallPowersOf5[e] == Pow(5, e)
  {
    if e > 0 {
      SmallTable(e - 1);
      assert SmallPowersOf5[e] == 5 * SmallPowersOf5[e - 1];
    }
  }

  lemma LargeTable()
    ensures Val(LargePowerOf5) == Pow(5, 135)
  {
    SmallTable(27);
    PowAdd(5, 27, 27);
    PowAdd(5, 54, 54);
    PowAdd(5, 108, 27);
    ValFive(LargePowerOf5);
  }

  lemma ValFive(s: seq<Limb>)
    requires |s| == 5
    ensures Val(s) == s[0] + B * (s[1] + B * (s[2] + B * (s[3] + B * s[4])))
  {
    ValTake(s, 0);
    ValTake(s, 1);
    ValTake(s, 2);
    ValTake(s, 3);
    ValTake(s, 4);
    assert s[..5] == s && s[..0] == [];
    assert Pow(B, 0) == 1 && Pow(B, 1) == B && Pow(B, 2) == B * B && Pow(B, 3) == B * B * B;
    assert Pow(B, 4) == B * B * B * B;
  }

  ghost predicate Positive(v: StackVec)
    reads v, v.data
  {
    v.Valid() && Normal(v.Limbs()) && v.Value() > 0
  }

  method LargeMul(v: StackVec, y: seq<Limb>) returns (ok: bool)
    requires v.Valid()
    modifies v, v.data
    ensures v.Valid() && (ok ==> v.Value() == old(v.Value()) * if y == [] then 1 else Val(y))
    ensures old(Positive(v)) && Val(y) > 0 ==> (ok <==> old(v.Value()) * Val(y) < v.Limit()) && (ok ==> Positive(v))
    ensures ok && old(Normal(v.Limbs())) && Val(y) > 0 ==> Normal(v.Limbs())
  {
    ghost var was := v.Value();
    if |y| == 1 {
      assert y[..1] == y;
      FirstLimb(y);
      ok := v.SmallMul(y[0]);
    } else {
      ok := v.LongMul(y);
    }
    if was > 0 && Val(y) > 0 {
      MulPositive(was, Val(y));
    }
  }

  /** `v` is to be multiplied by 5^e still, to reach `total`. */
  ghost predicate Owes(v: StackVec, e: nat, total: nat)
    reads v, v.data
  {
    v.Valid() && v.Value() * Pow(5, e) == total
  }

  lemma Repay(value: nat, e: nat, step: nat, total: nat)
    requires value * Pow(5, e) == total && step <= e
    ensures (value * Pow(5, step)) * Pow(5, e - step) == total && value * Pow(5, step) <= total
    ensures Pow(5, step) > 0
  {
    PowAdd(5, step, e - step);
    PowPositive(5, e - step);
    PowPositive(5, step);
    var p, rest := Pow(5, step), Pow(5, e - step);
    assert (value * p) * rest == value * (p * rest);
    MulPositiveNat(value * p, rest);
  }

  method LargeSteps(v: StackVec, exp: nat, ghost total: nat) returns (ok: bool, e: nat)
    requires Owes(v, exp, total)
    modifies v, v.data
    ensures v.Valid() && (ok ==> Owes(v, e, total))
    ensures old(Positive(v)) ==> (ok ==> Positive(v)) && (!ok ==> total >= v.Limit())
    ensures ok && old(Normal(v.Limbs())) ==> Normal(v.Limbs())
  {
    e, ok := exp, true;
    while e >= 135
      invariant Owes(v, e, total) && (old(Positive(v)) ==> Positive(v)) && ok
      invariant old(Normal(v.Limbs())) ==> Normal(v.Limbs())
    {
      Repay(v.Value(), e, 135, total);
      LargeTable();
      ok := LargeMul(v, LargePowerOf5);
      if !ok {
        return;
      }
      e := e - 135;
    }
  }

  method SmallSteps(v: StackVec, exp: nat, ghost total: nat) returns (ok: bool, e: nat)
    requires Owes(v, exp, total)
    modifies v, v.data
    ensures v.Valid() && (ok ==> Owes(v, e, total) && e < 27)
    ensures old(Positive(v)) ==> (ok ==> Positive(v)) && (!ok ==> total >= v.Limit())
    ensures ok && old(Normal(v.Limbs())) ==> Normal(v.Limbs())
  {
    e, ok := exp, true;
    while e >= 27
      invariant Owes(v, e, total) && (old(Positive(v)) ==> Positive(v)) && ok
      invariant old(Normal(v.Limbs())) ==> Normal(v.Limbs())
    {
      Repay(v.Value(), e, 27, total);
      SmallTable(27);
      ok := MulPositively(v, 7450580596923828125);
      if !ok {
        return;
      }
      e := e - 27;
    }
  }

  /** Multiply by 5^exp: the exponent is consumed in steps of 135, then 27, then what is left. */
  method Pow5(v: StackVec, exp: nat) returns (ok: bool)
    requires v.Valid()
    modifies v, v.data
    ensures v.Valid() && (ok ==> v.Value() == old(v.Value()) * Pow(5, exp))
    ensures old(Positive(v)) ==> (ok <==> old(v.Value()) * Pow(5, exp) < v.Limit()) && (ok ==> Positive(v))
    ensures ok && old(Normal(v.Limbs())) ==> Normal(v.Limbs())
  {
    ghost var total := v.Value() * Pow(5, exp);
    var e: nat;
    ok, e := LargeSteps(v, exp, total);
    if !ok {
      return;
    }
    ok, e := SmallSteps(v, e, total);
    if !ok {
      return;
    }
    if e != 0 {
      Repay(v.Value(), e, e, total);
      SmallTable(e);
      ok := MulPositively(v, SmallPowersOf5[e]);
    }
    if ok {
      ValFits(v.Limbs(), v.data.Length);
    }
  }

  method MulPositively(v: StackVec, y: Limb) returns (ok: bool)
    requires v.Valid() && y > 0
    modifies v, v.data
    ensures v.Valid() && (ok ==> v.Value() == old(v.Value()) * y)
    ensures ok <==> old(v.Value()) * y < v.Limit()
    ensures ok && old(Positive(v)) ==> Positive(v)
    ensures ok && old(Normal(v.Limbs())) ==> Normal(v.Limbs())
  {
    ghost var was := v.Value();
    ok := v.SmallMul(y);
    if was > 0 {
      MulPositive(was, y);
    }
  }
}
