/** Sums of a measure over a sequence, and how they move when one entry changes.
    Every counting argument about the pipeline (ids, tuples, sentinels, weights)
    is an instance of these few facts. */
module Sums {

  ghost function Sum<T>(s: seq<T>, f: T -> nat): nat {
    if s == [] then 0 else Sum(s[..|s| - 1], f) + f(s[|s| - 1])
  }

  ghost function Bag<T, X>(s: seq<T>, f: T -> multiset<X>): multiset<X> {
    if s == [] then multiset{} else Bag(s[..|s| - 1], f) + f(s[|s| - 1])
  }

  lemma {:induction false} SumUpdate<T>(s: seq<T>, i: nat, x: T, f: T -> nat)
    requires i < |s|
    ensures Sum(s[i := x], f) + f(s[i]) == Sum(s, f) + f(x)
  {
    var n := |s| - 1;
    if i < n {
      SumUpdate(s[..n], i, x, f);
      assert s[i := x][..n] == s[..n][i := x];
    } else {
      assert s[i := x][..n] == s[..n];
    }
  }

  lemma {:induction false} BagUpdate<T, X>(s: seq<T>, i: nat, x: T, f: T -> multiset<X>)
    requires i < |s|
    ensures Bag(s[i := x], f) + f(s[i]) == Bag(s, f) + f(x)
  {
    var n := |s| - 1;
    if i < n {
      BagUpdate(s[..n], i, x, f);
      assert s[i := x][..n] == s[..n][i := x];
      var before, after, last := Bag(s[..n], f), Bag(s[..n][i := x], f), f(s[n]);
      assert (after + last) + f(s[i]) == (after + f(s[i])) + last == (before + last) + f(x);
    } else {
      assert s[i := x][..n] == s[..n];
    }
  }

  lemma {:induction false} SumSame<T>(s: seq<T>, f: T -> nat, g: T -> nat)
    requires forall i :: 0 <= i < |s| ==> f(s[i]) == g(s[i])
    ensures Sum(s, f) == Sum(s, g)
  {
    if s != [] {
      SumSame(s[..|s| - 1], f, g);
    }
  }

  lemma {:induction false} SumAtMost<T>(s: seq<T>, f: T -> nat, g: T -> nat)
    requires forall i :: 0 <= i < |s| ==> f(s[i]) <= g(s[i])
    ensures Sum(s, f) <= Sum(s, g)
    ensures Sum(s, f) == Sum(s, g) ==> forall i :: 0 <= i < |s| ==> f(s[i]) == g(s[i])
  {
    if s != [] {
      SumAtMost(s[..|s| - 1], f, g);
      assert forall i :: 0 <= i < |s| - 1 ==> s[..|s| - 1][i] == s[i];
    }
  }

  lemma {:induction false} SumConcat<T>(s: seq<T>, t: seq<T>, f: T -> nat)
    ensures Sum(s + t, f) == Sum(s, f) + Sum(t, f)
  {
    if t == [] {
      assert s + t == s;
    } else {
      SumConcat(s, t[..|t| - 1], f);
      assert (s + t)[..|s + t| - 1] == s + t[..|t| - 1];
    }
  }

  lemma {:induction false} BagConcat<T, X>(s: seq<T>, t: seq<T>, f: T -> multiset<X>)
    ensures Bag(s + t, f) == Bag(s, f) + Bag(t, f)
  {
    if t == [] {
      assert s + t == s;
    } else {
      BagConcat(s, t[..|t| - 1], f);
      assert (s + t)[..|s + t| - 1] == s + t[..|t| - 1];
    }
  }

  lemma {:induction false} SumConst<T>(s: seq<T>, f: T -> nat, k: nat)
    requires forall i :: 0 <= i < |s| ==> f(s[i]) == k
    ensures Sum(s, f) == k * |s|
  {
    if s != [] {
      SumConst(s[..|s| - 1], f, k);
    }
  }

  lemma {:induction false} BagEmpty<T, X>(s: seq<T>, f: T -> multiset<X>)
    requires forall i :: 0 <= i < |s| ==> f(s[i]) == multiset{}
    ensures Bag(s, f) == multiset{}
  {
    if s != [] {
      BagEmpty(s[..|s| - 1], f);
    }
  }

  /** The size of the bag is the sum of the sizes of the entries. */
  lemma {:induction false} BagSize<T, X>(s: seq<T>, f: T -> multiset<X>, g: T -> nat)
    requires forall i :: 0 <= i < |s| ==> |f(s[i])| == g(s[i])
    ensures |Bag(s, f)| == Sum(s, g)
  {
    if s != [] {
      BagSize(s[..|s| - 1], f, g);
    }
  }

  /** Two sums that differ little at `k` and not the other way anywhere else. */
  lemma {:induction false} SumAllBut<T>(s: seq<T>, f: T -> nat, g: T -> nat, k: nat)
    requires k < |s| && forall i :: 0 <= i < |s| ==> f(s[i]) <= g(s[i])
    ensures Sum(s, f) + g(s[k]) <= Sum(s, g) + f(s[k])
  {
    var n := |s| - 1;
    if k < n {
      SumAllBut(s[..n], f, g, k);
    } else {
      SumAtMost(s[..n], f, g);
    }
  }

  lemma {:induction false} SumPositive<T>(s: seq<T>, f: T -> nat, i: nat)
    requires i < |s|
    ensures f(s[i]) <= Sum(s, f)
  {
    var n := |s| - 1;
    if i < n {
      SumPositive(s[..n], f, i);
    }
  }

  lemma {:induction false} SumWitness<T>(s: seq<T>, f: T -> nat) returns (i: nat)
    requires Sum(s, f) > 0
    ensures i < |s| && f(s[i]) > 0
  {
    var n := |s| - 1;
    if f(s[n]) > 0 {
      i := n;
    } else {
      i := SumWitness(s[..n], f);
    }
  }

  lemma {:induction false} SumAdd<T>(s: seq<T>, f: T -> nat, g: T -> nat, h: T -> nat)
    requires forall i :: 0 <= i < |s| ==> h(s[i]) == f(s[i]) + g(s[i])
    ensures Sum(s, h) == Sum(s, f) + Sum(s, g)
  {
    if s != [] {
      SumAdd(s[..|s| - 1], f, g, h);
    }
  }
}
