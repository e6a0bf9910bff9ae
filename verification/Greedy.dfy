/** The greedy allocation of workers to pipeline stages. */
module Greedy {
  import opened Options

  datatype Stage = Read | Deser | Comp | Send | Rcv | Decomp | Ser | Write

  predicate OnServer(c: Stage) {
    c.Read? || c.Deser? || c.Comp? || c.Send?
  }

  /** Throughput of one worker, in the order in which the stages were listed. */
  datatype Table = Table(order: seq<Stage>, rate: map<Stage, real>)

  ghost predicate Proper(t: Table) {
    && (forall c :: c in t.order <==> c in t.rate)
    && (forall i, j :: 0 <= i < j < |t.order| ==> t.order[i] != t.order[j])
  }

  /** Throughput of a stage with `workers` workers, of which the fraction `f0` does not scale. */
  function EffectiveRate(f0: real, base: real, workers: nat): real {
    (f0 + (1.0 - f0) * workers as real) * base
  }

  /** Only the rest scales: every further worker adds the same. */
  lemma RateOfNext(f0: real, base: real, workers: nat)
    ensures EffectiveRate(f0, base, workers + 1) - EffectiveRate(f0, base, workers) == (1.0 - f0) * base
    ensures EffectiveRate(f0, base, 1) == base
  {
    RateOfOne(f0, base);
    var x, y := f0 + (1.0 - f0) * workers as real, 1.0 - f0;
    assert (1.0 - f0) * (workers as real + 1.0) == (1.0 - f0) * workers as real + (1.0 - f0);
    assert (x + y) * base == x * base + y * base;
  }

  lemma RateOfOne(f0: real, base: real)
    ensures EffectiveRate(f0, base, 1) == base
  {
    assert f0 + (1.0 - f0) * 1.0 == 1.0;
  }

  lemma MoreWorkersFaster(f0: real, base: real, v: nat, w: nat)
    requires 0.0 <= f0 <= 1.0 && base >= 0.0 && v <= w
    ensures EffectiveRate(f0, base, v) <= EffectiveRate(f0, base, w)
  {
    var d := (w - v) as real;
    assert w as real == v as real + d;
    assert (1.0 - f0) * d >= 0.0;
    assert (1.0 - f0) * (v as real + d) == (1.0 - f0) * v as real + (1.0 - f0) * d;
    var x, y := f0 + (1.0 - f0) * v as real, (1.0 - f0) * d;
    assert (x + y) * base == x * base + y * base;
    assert y * base >= 0.0;
  }

  lemma FasterMeansMore(f0: real, base: real, v: nat, w: nat)
    requires 0.0 <= f0 <= 1.0 && base >= 0.0 && EffectiveRate(f0, base, v) > EffectiveRate(f0, base, w)
    ensures v > w
  {
    if v <= w {
      MoreWorkersFaster(f0, base, v, w);
    }
  }

  lemma RatePositive(f0: real, base: real, w: nat)
    requires 0.0 <= f0 <= 1.0 && w >= 1
    ensures base > 0.0 ==> EffectiveRate(f0, base, w) > 0.0
    ensures base == 0.0 ==> EffectiveRate(f0, base, w) == 0.0
  {
    if base > 0.0 {
      MoreWorkersFaster(f0, base, 1, w);
      RateOfOne(f0, base);
    }
  }

  // ---- The n-th slowest stage ----

  function NonZero(s: seq<Stage>, rate: map<Stage, real>): (r: seq<Stage>)
    requires forall c :: c in s ==> c in rate
    ensures forall c :: c in r <==> c in s && rate[c] != 0.0
  {
    if s == [] then []
    else
      var n := |s| - 1;
      if rate[s[n]] != 0.0 then NonZero(s[..n], rate) + [s[n]] else NonZero(s[..n], rate)
  }

  /** Where a stage is listed. */
  function Position(order: seq<Stage>, c: Stage): nat {
    if order == [] || order[0] == c then 0 else 1 + Position(order[1..], c)
  }

  lemma {:induction false} PositionIs(order: seq<Stage>, i: nat)
    requires i < |order| && forall a, b :: 0 <= a < b < |order| ==> order[a] != order[b]
    ensures Position(order, order[i]) == i
  {
    if i > 0 {
      assert order[0] != order[i];
      PositionIs(order[1..], i - 1);
    }
  }

  /** The order of a stable sort: by rate, and by position where the rates are equal. */
  predicate Ahead(rate: map<Stage, real>, order: seq<Stage>, a: Stage, b: Stage)
    requires a in rate && b in rate
  {
    rate[a] < rate[b] || (rate[a] == rate[b] && Position(order, a) < Position(order, b))
  }

  predicate Ascending(s: seq<Stage>, rate: map<Stage, real>, order: seq<Stage>)
    requires forall c :: c in s ==> c in rate
  {
    forall i, j {:trigger Ahead(rate, order, s[i], s[j])} :: 0 <= i < j < |s| ==> Ahead(rate, order, s[i], s[j])
  }

  /** Listed in this order. */
  predicate Rising(s: seq<Stage>, order: seq<Stage>) {
    forall i, j :: 0 <= i < j < |s| ==> Position(order, s[i]) < Position(order, s[j])
  }

  lemma {:induction false} NonZeroRises(order: seq<Stage>, rate: map<Stage, real>, m: nat)
    requires m <= |order| && (forall a, b :: 0 <= a < b < |order| ==> order[a] != order[b])
    requires forall c :: c in order[..m] ==> c in rate
    ensures var list := NonZero(order[..m], rate);
            Rising(list, order) && forall i :: 0 <= i < |list| ==> Position(order, list[i]) < m
  {
    if m > 0 {
      assert order[..m][..m - 1] == order[..m - 1];
      NonZeroRises(order, rate, m - 1);
      PositionIs(order, m - 1);
    }
  }

  /** Insertion behind the entries that are not slower: the sort is stable. */
  function Insert(c: Stage, s: seq<Stage>, rate: map<Stage, real>): (r: seq<Stage>)
    requires c in rate && (forall d :: d in s ==> d in rate)
    ensures multiset(r) == multiset(s) + multiset{c} && forall d :: d in r ==> d in rate
  {
    if s == [] || rate[c] < rate[s[0]] then [c] + s
    else
      var t := Insert(c, s[1..], rate);
      assert s == [s[0]] + s[1..];
      [s[0]] + t
  }

  lemma {:induction false} InsertAscends(c: Stage, s: seq<Stage>, rate: map<Stage, real>, order: seq<Stage>)
    requires c in rate && (forall d :: d in s ==> d in rate) && Ascending(s, rate, order)
    requires forall d :: d in s ==> Position(order, d) < Position(order, c)
    ensures Ascending(Insert(c, s, rate), rate, order)
  {
    if s != [] {
      TailAscends(s, rate, order);
      if rate[c] >= rate[s[0]] {
        InsertAscends(c, s[1..], rate, order);
        var t := Insert(c, s[1..], rate);
        forall j | 0 <= j < |t|
          ensures Ahead(rate, order, s[0], t[j])
        {
          InsertedFrom(c, s[1..], rate, j);
        }
        HeadAscends(s[0], t, rate, order);
      } else {
        forall j | 0 <= j < |s|
          ensures Ahead(rate, order, c, s[j])
        {
          assert j > 0 ==> Ahead(rate, order, s[0], s[j]);
        }
        HeadAscends(c, s, rate, order);
      }
    }
  }

  lemma TailAscends(s: seq<Stage>, rate: map<Stage, real>, order: seq<Stage>)
    requires s != [] && (forall d :: d in s ==> d in rate) && Ascending(s, rate, order)
    ensures Ascending(s[1..], rate, order) && forall d :: d in s[1..] ==> Ahead(rate, order, s[0], d)
  {
    forall i, j | 0 <= i < j < |s[1..]|
      ensures Ahead(rate, order, s[1..][i], s[1..][j])
    {
      assert Ahead(rate, order, s[i + 1], s[j + 1]);
    }
    forall d | d in s[1..]
      ensures Ahead(rate, order, s[0], d)
    {
      var i :| 0 <= i < |s[1..]| && s[1..][i] == d;
      assert Ahead(rate, order, s[0], s[i + 1]);
    }
  }

  lemma HeadAscends(c: Stage, s: seq<Stage>, rate: map<Stage, real>, order: seq<Stage>)
    requires c in rate && (forall d :: d in s ==> d in rate) && Ascending(s, rate, order)
    requires forall j :: 0 <= j < |s| ==> Ahead(rate, order, c, s[j])
    ensures Ascending([c] + s, rate, order)
  {
    var t := [c] + s;
    forall i, j | 0 <= i < j < |t|
      ensures Ahead(rate, order, t[i], t[j])
    {
      assert t[j] == s[j - 1] && (i > 0 ==> t[i] == s[i - 1]);
    }
  }

  lemma InsertedFrom(c: Stage, s: seq<Stage>, rate: map<Stage, real>, j: nat)
    requires c in rate && (forall d :: d in s ==> d in rate) && j < |Insert(c, s, rate)|
    ensures Insert(c, s, rate)[j] == c || Insert(c, s, rate)[j] in s
  {
    var t := Insert(c, s, rate);
    assert t[j] in multiset(t);
  }

  function Sort(s: seq<Stage>, rate: map<Stage, real>): (r: seq<Stage>)
    requires forall c :: c in s ==> c in rate
    ensures multiset(r) == multiset(s) && |r| == |s| && forall c :: c in r ==> c in rate
  {
    if s == [] then []
    else
      var n := |s| - 1;
      assert s == s[..n] + [s[n]];
      var r := Insert(s[n], Sort(s[..n], rate), rate);
      assert |multiset(r)| == |r|;
      SameMembers(r, s);
      r
  }

  lemma SameMembers(r: seq<Stage>, s: seq<Stage>)
    requires multiset(r) == multiset(s)
    ensures |r| == |s| && forall c :: c in r <==> c in s
  {
    assert |r| == |multiset(r)| && |s| == |multiset(s)|;
    forall c
      ensures c in r <==> c in s
    {
      assert c in r <==> c in multiset(r);
      assert c in s <==> c in multiset(s);
    }
  }

  lemma {:induction false} SortAscends(s: seq<Stage>, rate: map<Stage, real>, order: seq<Stage>)
    requires (forall c :: c in s ==> c in rate) && Rising(s, order)
    ensures Ascending(Sort(s, rate), rate, order)
  {
    if s != [] {
      var n := |s| - 1;
      SortAscends(s[..n], rate, order);
      SameMembers(Sort(s[..n], rate), s[..n]);
      InsertAscends(s[n], Sort(s[..n], rate), rate, order);
    }
  }

  /** The n-th slowest of the stages whose throughput is not zero. */
  function NthSlowest(t: Table, n: nat): Option<Stage>
    requires forall c :: c in t.order ==> c in t.rate
  {
    var s := Sort(NonZero(t.order, t.rate), t.rate);
    if n < |s| then Some(s[n]) else None
  }

  /** The stage has a throughput at all. */
  predicate Works(t: Table, c: Stage) {
    c in t.rate && t.rate[c] != 0.0
  }

  ghost predicate SomeWorks(t: Table) {
    exists c :: Works(t, c)
  }

  /** Of the stages with a throughput none is slower than `c`, and none listed before it is as slow. */
  ghost predicate IsSlowest(t: Table, c: Stage) {
    Works(t, c) && forall d {:trigger Ahead(t.rate, t.order, c, d)} :: Works(t, d) && d != c ==> Ahead(t.rate, t.order, c, d)
  }

  /** The same with `c` left out. */
  ghost predicate IsSecond(t: Table, c: Stage, second: Stage) {
    && Works(t, second) && second != c
    && forall d {:trigger Ahead(t.rate, t.order, second, d)} :: Works(t, d) && d != c && d != second ==> Ahead(t.rate, t.order, second, d)
  }

  lemma SlowestIsLeast(t: Table)
    requires Proper(t)
    ensures NthSlowest(t, 0).Some? <==> SomeWorks(t)
    ensures NthSlowest(t, 0).Some? ==> IsSlowest(t, NthSlowest(t, 0).value)
    ensures NthSlowest(t, 1).Some? ==> NthSlowest(t, 0).Some? && IsSecond(t, NthSlowest(t, 0).value, NthSlowest(t, 1).value)
  {
    var s := Sort(NonZero(t.order, t.rate), t.rate);
    ListAscends(t);
    ListWorks(t);
    if s != [] {
      FirstIsSlowest(t, s);
      if |s| > 1 {
        NextIsSecond(t, s);
      }
    }
  }

  lemma ListAscends(t: Table)
    requires Proper(t)
    ensures Ascending(Sort(NonZero(t.order, t.rate), t.rate), t.rate, t.order)
  {
    assert t.order[..|t.order|] == t.order;
    NonZeroRises(t.order, t.rate, |t.order|);
    SortAscends(NonZero(t.order, t.rate), t.rate, t.order);
  }

  lemma ListWorks(t: Table)
    requires Proper(t)
    ensures forall c :: c in Sort(NonZero(t.order, t.rate), t.rate) <==> Works(t, c)
  {
    SameMembers(Sort(NonZero(t.order, t.rate), t.rate), NonZero(t.order, t.rate));
  }

  lemma FirstIsSlowest(t: Table, s: seq<Stage>)
    requires s != [] && (forall c :: c in s <==> Works(t, c)) && (forall c :: c in s ==> c in t.rate) && Ascending(s, t.rate, t.order)
    ensures IsSlowest(t, s[0])
  {
    assert s[0] in s;
    forall d | Works(t, d) && d != s[0]
      ensures Ahead(t.rate, t.order, s[0], d)
    {
      assert d in s;
      var i :| 0 <= i < |s| && s[i] == d;
      assert Ahead(t.rate, t.order, s[0], s[i]);
    }
  }

  lemma NextIsSecond(t: Table, s: seq<Stage>)
    requires |s| > 1 && (forall c :: c in s <==> Works(t, c)) && (forall c :: c in s ==> c in t.rate) && Ascending(s, t.rate, t.order)
    ensures IsSecond(t, s[0], s[1])
  {
    assert s[1] in s && s[0] in s && Ahead(t.rate, t.order, s[0], s[1]);
    forall d | Works(t, d) && d != s[0] && d != s[1]
      ensures Ahead(t.rate, t.order, s[1], d)
    {
      assert d in s;
      var i :| 0 <= i < |s| && s[i] == d;
      assert Ahead(t.rate, t.order, s[1], s[i]);
    }
  }

  /** There is only one. */
  lemma SlowestIsUnique(t: Table, c: Stage)
    requires Proper(t) && IsSlowest(t, c)
    ensures NthSlowest(t, 0) == Some(c)
  {
    SlowestIsLeast(t);
    assert SomeWorks(t);
    var d := NthSlowest(t, 0).value;
    assert d != c ==> Ahead(t.rate, t.order, c, d) && Ahead(t.rate, t.order, d, c);
  }

  lemma SlowestRates(t: Table, c: Stage)
    requires IsSlowest(t, c)
    ensures forall d :: Works(t, d) ==> t.rate[c] <= t.rate[d]
  {
    forall d | Works(t, d)
      ensures t.rate[c] <= t.rate[d]
    {
      assert d != c ==> Ahead(t.rate, t.order, c, d);
    }
  }

  lemma SecondRates(t: Table, c: Stage, second: Stage)
    requires IsSecond(t, c, second)
    ensures forall d :: Works(t, d) && d != c ==> t.rate[second] <= t.rate[d]
  {
    forall d | Works(t, d) && d != c
      ensures t.rate[second] <= t.rate[d]
    {
      assert d != second ==> Ahead(t.rate, t.order, second, d);
    }
  }

  // ---- The allocation ----

  type Workers = map<Stage, nat>

  ghost predicate Complete(best: Workers) {
    forall c: Stage :: c in best && best[c] >= 1
  }

  function OfServer(best: Workers): nat
    requires Read in best && Deser in best && Comp in best && Send in best
  {
    best[Read] + best[Deser] + best[Comp] + best[Send]
  }

  function OfClient(best: Workers): nat
    requires Rcv in best && Decomp in best && Ser in best && Write in best
  {
    best[Rcv] + best[Decomp] + best[Ser] + best[Write]
  }

  /** The estimates are those of the allocation, and no stage has a worker that it did not need to keep up
      with the slowest. */
  ghost predicate Fair(t: Table, f0: real, best: Workers, est: map<Stage, real>) {
    && Complete(best) && est.Keys == t.rate.Keys
    && (forall c :: c in t.rate ==> est[c] == EffectiveRate(f0, t.rate[c], best[c]))
    && (forall c, d :: Works(t, c) && Works(t, d) && best[c] > 1 ==> EffectiveRate(f0, t.rate[c], best[c] - 1) <= est[d])
  }

  ghost predicate Input(t: Table, f0: real) {
    Proper(t) && 0.0 <= f0 <= 1.0 && forall c :: c in t.rate ==> t.rate[c] >= 0.0
  }

  /** A rate is zero in the estimates exactly if it is zero to begin with. */
  lemma SameZeros(t: Table, f0: real, best: Workers, est: map<Stage, real>, c: Stage)
    requires Input(t, f0) && Fair(t, f0, best, est) && c in t.rate
    ensures est[c] != 0.0 <==> Works(t, c)
    ensures est[c] >= 0.0
  {
    RatePositive(f0, t.rate[c], best[c]);
  }

  /** Giving a worker to the slowest stage keeps the allocation fair. */
  lemma FairStep(t: Table, f0: real, best: Workers, est: map<Stage, real>, c: Stage)
    requires Input(t, f0) && Fair(t, f0, best, est) && Works(t, c)
    requires forall d :: Works(t, d) ==> est[c] <= est[d]
    ensures var w := best[c] + 1;
            Fair(t, f0, best[c := w], est[c := EffectiveRate(f0, t.rate[c], w)])
  {
    var w := best[c] + 1;
    var best', est' := best[c := w], est[c := EffectiveRate(f0, t.rate[c], w)];
    MoreWorkersFaster(f0, t.rate[c], best[c], w);
    forall a, d | Works(t, a) && Works(t, d) && best'[a] > 1
      ensures EffectiveRate(f0, t.rate[a], best'[a] - 1) <= est'[d]
    {
      assert est[c] <= est[d];
      if a != c {
        assert EffectiveRate(f0, t.rate[a], best[a] - 1) <= est[d];
        assert EffectiveRate(f0, t.rate[a], best[a] - 1) <= est[c];
      }
    }
  }

  /** Estimates and throughputs agree on which stages count. */
  lemma FairTable(t: Table, f0: real, best: Workers, est: map<Stage, real>)
    requires Input(t, f0) && Fair(t, f0, best, est)
    ensures Proper(Table(t.order, est))
    ensures forall c :: Works(Table(t.order, est), c) <==> Works(t, c)
  {
    assert forall c :: c in t.rate <==> c in est.Keys;
    forall c | c in t.rate
      ensures est[c] != 0.0 <==> Works(t, c)
    {
      SameZeros(t, f0, best, est, c);
    }
  }

  lemma {:induction false} SameNonZero(s: seq<Stage>, rate: map<Stage, real>, rate': map<Stage, real>)
    requires forall c :: c in s ==> c in rate && c in rate' && (rate[c] == 0.0 <==> rate'[c] == 0.0)
    ensures NonZero(s, rate) == NonZero(s, rate')
  {
    if s != [] {
      SameNonZero(s[..|s| - 1], rate, rate');
    }
  }

  /** The number of stages that count does not change. */
  lemma SameCount(t: Table, f0: real, best: Workers, est: map<Stage, real>)
    requires Input(t, f0) && Fair(t, f0, best, est)
    ensures Proper(Table(t.order, est)) && (NthSlowest(Table(t.order, est), 1).Some? <==> NthSlowest(t, 1).Some?)
  {
    FairTable(t, f0, best, est);
    forall c | c in t.order
      ensures t.rate[c] == 0.0 <==> est[c] == 0.0
    {
      assert Works(Table(t.order, est), c) <==> Works(t, c);
    }
    SameNonZero(t.order, t.rate, est);
  }

  // ---- One worker at a time ----

  /** What the stages achieve with these workers. */
  ghost function Estimates(t: Table, f0: real, best: Workers): (est: map<Stage, real>)
    requires Complete(best)
  {
    map c | c in t.rate :: EffectiveRate(f0, t.rate[c], best[c])
  }

  ghost function Slowest(t: Table, f0: real, best: Workers): Option<Stage>
    requires Proper(t) && Complete(best)
  {
    NthSlowest(Table(t.order, Estimates(t, f0, best)), 0)
  }

  /** Another worker is wanted: the slowest stage does not reach the bound, and both sides have workers left. */
  ghost predicate Wanted(t: Table, f0: real, bound: real, maxServer: nat, maxClient: nat, best: Workers)
    requires Proper(t) && Complete(best)
  {
    && Slowest(t, f0, best).Some? && Slowest(t, f0, best).value in t.rate
    && EffectiveRate(f0, t.rate[Slowest(t, f0, best).value], best[Slowest(t, f0, best).value]) < bound
    && OfServer(best) < maxServer && OfClient(best) < maxClient
  }

  /** The simple form of the allocation: as long as another worker is wanted, the slowest stage gets it. */
  ghost function Spread(t: Table, f0: real, bound: real, maxServer: nat, maxClient: nat, best: Workers): Workers
    requires Proper(t) && Complete(best)
    decreases maxServer + maxClient - OfServer(best) - OfClient(best)
  {
    if Wanted(t, f0, bound, maxServer, maxClient, best) then
      Spread(t, f0, bound, maxServer, maxClient, WithOne(best, Slowest(t, f0, best).value))
    else best
  }

  /** One more worker for `c`. */
  function WithOne(best: Workers, c: Stage): (r: Workers)
    requires Complete(best)
    ensures Complete(r)
    ensures OfServer(r) == OfServer(best) + if OnServer(c) then 1 else 0
    ensures OfClient(r) == OfClient(best) + if OnServer(c) then 0 else 1
  {
    OneMore(best, c);
    best[c := best[c] + 1]
  }

  /** Every worker but the first was needed to reach the bound. */
  ghost predicate Needed(t: Table, f0: real, bound: real, best: Workers)
    requires Complete(best)
  {
    forall c :: Works(t, c) && best[c] > 1 ==> EffectiveRate(f0, t.rate[c], best[c] - 1) < bound
  }

  lemma {:induction false} SpreadNeeds(t: Table, f0: real, bound: real, maxServer: nat, maxClient: nat, best: Workers)
    requires Proper(t) && Complete(best) && Needed(t, f0, bound, best)
    ensures var r := Spread(t, f0, bound, maxServer, maxClient, best);
            Complete(r) && Needed(t, f0, bound, r)
    decreases maxServer + maxClient - OfServer(best) - OfClient(best)
  {
    if Wanted(t, f0, bound, maxServer, maxClient, best) {
      var c := Slowest(t, f0, best).value;
      NeedsOneMore(t, f0, bound, best, c);
      SpreadNeeds(t, f0, bound, maxServer, maxClient, WithOne(best, c));
    }
  }

  lemma NeedsOneMore(t: Table, f0: real, bound: real, best: Workers, c: Stage)
    requires Complete(best) && Needed(t, f0, bound, best) && c in t.rate && EffectiveRate(f0, t.rate[c], best[c]) < bound
    ensures Needed(t, f0, bound, WithOne(best, c))
  {
  }

  lemma SpreadStep(t: Table, f0: real, bound: real, maxServer: nat, maxClient: nat, best: Workers, c: Stage)
    requires Proper(t) && Complete(best) && Slowest(t, f0, best) == Some(c) && c in t.rate
    requires EffectiveRate(f0, t.rate[c], best[c]) < bound && OfServer(best) < maxServer && OfClient(best) < maxClient
    ensures Spread(t, f0, bound, maxServer, maxClient, best) == Spread(t, f0, bound, maxServer, maxClient, WithOne(best, c))
  {
    assert Wanted(t, f0, bound, maxServer, maxClient, best);
  }

  /** A stage that is slower than all others is the one that gets the worker. */
  lemma StrictlySlowest(t: Table, f0: real, best: Workers, est: map<Stage, real>, c: Stage)
    requires Input(t, f0) && Fair(t, f0, best, est) && Works(t, c)
    requires forall d :: Works(t, d) && d != c ==> est[c] < est[d]
    ensures Slowest(t, f0, best) == Some(c)
  {
    FairTable(t, f0, best, est);
    EstimatesAre(t, f0, best, est);
    assert IsSlowest(Table(t.order, est), c);
    SlowestIsUnique(Table(t.order, est), c);
  }

  lemma EstimatesAre(t: Table, f0: real, best: Workers, est: map<Stage, real>)
    requires Fair(t, f0, best, est)
    ensures Estimates(t, f0, best) == est
  {
  }

  datatype Result = Ok(best: Workers, est: map<Stage, real>) | TypeError

  /** One more worker for `c`. */
  lemma OneMore(best: Workers, c: Stage)
    requires Complete(best)
    ensures Complete(best[c := best[c] + 1])
    ensures OfServer(best[c := best[c] + 1]) == OfServer(best) + if OnServer(c) then 1 else 0
    ensures OfClient(best[c := best[c] + 1]) == OfClient(best) + if OnServer(c) then 0 else 1
  {
  }

  /** No other stage that counts is slower than `second`, and `c` is the slowest. */
  ghost predicate Trails(t: Table, est: map<Stage, real>, c: Stage, second: real) {
    && est.Keys == t.rate.Keys && Works(t, c)
    && (forall d :: Works(t, d) ==> est[c] <= est[d])
    && (forall d :: Works(t, d) && d != c ==> second <= est[d])
  }

  lemma StillTrails(t: Table, est: map<Stage, real>, c: Stage, second: real, rate: real)
    requires Trails(t, est, c, second) && rate < second
    ensures Trails(t, est[c := rate], c, second)
  {
  }

  /** One more worker for the slowest stage. */
  method GiveWorker(t: Table, f0: real, c: Stage, second: real, best0: Workers, est0: map<Stage, real>, ws0: nat, wc0: nat)
    returns (best: Workers, est: map<Stage, real>, ws: nat, wc: nat, rate: real)
    requires Input(t, f0) && Fair(t, f0, best0, est0) && Trails(t, est0, c, second)
    requires ws0 == OfServer(best0) && wc0 == OfClient(best0)
    ensures Fair(t, f0, best, est) && ws == OfServer(best) && wc == OfClient(best)
    ensures ws0 <= ws && wc0 <= wc && ws + wc == ws0 + wc0 + 1
    ensures best == best0[c := best0[c] + 1] && est == est0[c := rate] && (rate < second ==> Trails(t, est, c, second))
  {
    FairStep(t, f0, best0, est0, c);
    OneMore(best0, c);
    best, ws, wc := best0[c := best0[c] + 1], ws0, wc0;
    rate := EffectiveRate(f0, t.rate[c], best[c]);
    if rate < second {
      StillTrails(t, est0, c, second, rate);
    }
    est := est0[c := rate];
    if OnServer(c) {
      ws := ws + 1;
    } else {
      wc := wc + 1;
    }
  }

  /** One round of the inner loop; `goal` is what the simple form ends with. */
  method BoostOnce(t: Table, f0: real, bound: real, maxServer: nat, maxClient: nat, c: Stage, second: real,
                   best0: Workers, est0: map<Stage, real>, ws0: nat, wc0: nat, ghost goal: Workers)
    returns (best: Workers, est: map<Stage, real>, ws: nat, wc: nat, more: bool)
    requires Input(t, f0) && Fair(t, f0, best0, est0) && Trails(t, est0, c, second) && Slowest(t, f0, best0) == Some(c)
    requires ws0 == OfServer(best0) < maxServer && wc0 == OfClient(best0) < maxClient && est0[c] < bound
    requires Spread(t, f0, bound, maxServer, maxClient, best0) == goal
    ensures Fair(t, f0, best, est) && ws == OfServer(best) && wc == OfClient(best)
    ensures ws0 <= ws && wc0 <= wc && ws + wc == ws0 + wc0 + 1
    ensures more ==> Trails(t, est, c, second) && Slowest(t, f0, best) == Some(c) && est[c] < bound
    ensures Spread(t, f0, bound, maxServer, maxClient, best) == goal
  {
    SpreadStep(t, f0, bound, maxServer, maxClient, best0, c);
    var rate;
    best, est, ws, wc, rate := GiveWorker(t, f0, c, second, best0, est0, ws0, wc0);
    more := true;
    if rate >= second || rate >= bound {
      more := false;
    } else {
      StrictlySlowest(t, f0, best, est, c);
    }
  }

  /** The inner loop: workers for the slowest stage until it has caught up with the second slowest. */
  method Boost(t: Table, f0: real, bound: real, maxServer: nat, maxClient: nat, c: Stage, second: real,
               best0: Workers, est0: map<Stage, real>, ws0: nat, wc0: nat)
    returns (best: Workers, est: map<Stage, real>, ws: nat, wc: nat)
    requires Input(t, f0) && Fair(t, f0, best0, est0) && Trails(t, est0, c, second) && Slowest(t, f0, best0) == Some(c)
    requires ws0 == OfServer(best0) && wc0 == OfClient(best0)
    ensures Fair(t, f0, best, est) && ws == OfServer(best) && wc == OfClient(best)
    ensures ws0 <= ws && wc0 <= wc && (ws <= maxServer || ws == ws0) && (wc <= maxClient || wc == wc0)
    ensures ws0 < maxServer && wc0 < maxClient && est0[c] < bound ==> ws + wc > ws0 + wc0
    ensures est0[c] >= bound ==> best == best0 && est == est0
    ensures Spread(t, f0, bound, maxServer, maxClient, best) == Spread(t, f0, bound, maxServer, maxClient, best0)
  {
    best, est, ws, wc := best0, est0, ws0, wc0;
    ghost var goal := Spread(t, f0, bound, maxServer, maxClient, best0);
    var slowest := est[c];
    var more := true;
    while more && wc < maxClient && ws < maxServer && slowest < bound
      invariant Fair(t, f0, best, est) && ws == OfServer(best) && wc == OfClient(best)
      invariant more ==> Trails(t, est, c, second) && Slowest(t, f0, best) == Some(c) && (slowest < bound ==> est[c] < bound)
      invariant Spread(t, f0, bound, maxServer, maxClient, best) == goal
      invariant ws0 <= ws && wc0 <= wc && (ws <= maxServer || ws == ws0) && (wc <= maxClient || wc == wc0)
      invariant ws + wc > ws0 + wc0 || (more && best == best0 && est == est0)
      invariant slowest >= bound ==> best == best0 && est == est0
      decreases maxServer + maxClient - ws - wc, more
    {
      best, est, ws, wc, more := BoostOnce(t, f0, bound, maxServer, maxClient, c, second, best, est, ws, wc, goal);
    }
  }

  function OneEach(): Workers {
    map[Read := 1, Deser := 1, Comp := 1, Send := 1, Rcv := 1, Decomp := 1, Ser := 1, Write := 1]
  }

  lemma OneEachHas(c: Stage)
    ensures c in OneEach() && OneEach()[c] == 1
  {
    match c {
      case Read =>
      case Deser =>
      case Comp =>
      case Send =>
      case Rcv =>
      case Decomp =>
      case Ser =>
      case Write =>
    }
  }

  lemma StartsFair(t: Table, f0: real)
    requires Input(t, f0)
    ensures Fair(t, f0, OneEach(), t.rate)
  {
    forall c | c in t.rate
      ensures t.rate[c] == EffectiveRate(f0, t.rate[c], 1)
    {
      RateOfOne(f0, t.rate[c]);
    }
    forall c: Stage
      ensures c in OneEach() && OneEach()[c] == 1
    {
      OneEachHas(c);
    }
  }

  /** The two slowest stages, as the loop looks them up; nothing if there are no two. */
  method FindSlowest(t: Table, f0: real, ghost best: Workers, est: map<Stage, real>) returns (c: Stage, second: Option<real>)
    requires Input(t, f0) && Fair(t, f0, best, est) && SomeWorks(t)
    ensures second.Some? <==> NthSlowest(t, 1).Some?
    ensures second.Some? ==> Trails(t, est, c, second.value)
    ensures Slowest(t, f0, best) == Some(c)
    ensures Works(t, c) && forall d :: Works(t, d) ==> est[c] <= est[d]
  {
    SameCount(t, f0, best, est);
    FairTable(t, f0, best, est);
    EstimatesAre(t, f0, best, est);
    var now := Table(t.order, est);
    SlowestIsLeast(now);
    StillSome(t, now);
    c := NthSlowest(now, 0).value;
    SlowestRates(now, c);
    var next := NthSlowest(now, 1);
    second := None;
    if next.Some? {
      SecondRates(now, c, next.value);
      second := Some(est[next.value]);
    }
  }

  lemma StillSome(t: Table, now: Table)
    requires SomeWorks(t) && forall c :: Works(now, c) <==> Works(t, c)
    ensures SomeWorks(now)
  {
    var c :| Works(t, c);
    assert Works(now, c);
  }

  /** What is true of the allocation whenever the outer loop tests its condition: `thr` is the throughput of
      the slowest stage at the last lookup. */
  ghost predicate Allocated(t: Table, f0: real, bound: real, maxServer: nat, maxClient: nat,
                            best: Workers, est: map<Stage, real>, ws: nat, wc: nat, thr: real) {
    && Fair(t, f0, best, est) && ws == OfServer(best) && wc == OfClient(best)
    && (thr >= bound ==> forall d :: Works(t, d) ==> est[d] >= bound)
    && ws <= (if maxServer > 4 then maxServer else 4) && wc <= (if maxClient > 4 then maxClient else 4)
  }

  /** The loop is over: every stage meets the bound, or one side has no workers left; the limits are kept. */
  ghost predicate Done(t: Table, f0: real, bound: real, maxServer: nat, maxClient: nat, best: Workers, est: map<Stage, real>) {
    && Fair(t, f0, best, est)
    && ((forall c :: Works(t, c) ==> est[c] >= bound) || OfServer(best) >= maxServer || OfClient(best) >= maxClient)
    && OfServer(best) <= (if maxServer > 4 then maxServer else 4)
    && OfClient(best) <= (if maxClient > 4 then maxClient else 4)
  }

  /** What the allocation gives: starting with one worker each, the slowest stage got one as long as that was wanted. */
  ghost predicate Final(t: Table, f0: real, bound: real, maxServer: nat, maxClient: nat, best: Workers, est: map<Stage, real>) {
    && Done(t, f0, bound, maxServer, maxClient, best, est) && Needed(t, f0, bound, best)
    && Proper(t) && Complete(OneEach()) && best == Spread(t, f0, bound, maxServer, maxClient, OneEach())
  }

  /** The allocation.  Without a working stage, or with just one that is to be sped up, the subscript of a
      missing entry fails. */
  method Allocate(t: Table, f0: real, bound: real, maxServer: nat, maxClient: nat) returns (r: Result)
    requires Input(t, f0)
    ensures r.Ok? ==> Final(t, f0, bound, maxServer, maxClient, r.best, r.est)
    ensures r.TypeError? <==>
              || NthSlowest(t, 0).None?
              || (NthSlowest(t, 1).None? && t.rate[NthSlowest(t, 0).value] < bound && 4 < maxServer && 4 < maxClient)
  {
    SlowestIsLeast(t);
    var slowest := NthSlowest(t, 0);
    if slowest.None? {
      return TypeError;
    }
    StartsAllocated(t, f0, bound, maxServer, maxClient, slowest.value);
    r := Grow(t, f0, bound, maxServer, maxClient, OneEach(), t.rate[slowest.value]);
    StartsFair(t, f0);
    StartsNeeded(t, f0, bound);
    SpreadNeeds(t, f0, bound, maxServer, maxClient, OneEach());
  }

  lemma StartsNeeded(t: Table, f0: real, bound: real)
    ensures Complete(OneEach()) && Needed(t, f0, bound, OneEach())
  {
    forall c: Stage
      ensures c in OneEach() && OneEach()[c] == 1
    {
      OneEachHas(c);
    }
  }

  lemma StartsAllocated(t: Table, f0: real, bound: real, maxServer: nat, maxClient: nat, c: Stage)
    requires Input(t, f0) && IsSlowest(t, c)
    ensures Allocated(t, f0, bound, maxServer, maxClient, OneEach(), t.rate, 4, 4, t.rate[c])
  {
    StartsFair(t, f0);
    SlowestRates(t, c);
  }

  /** The outer loop.  Its condition looks at the throughput found by the previous lookup. */
  method Grow(t: Table, f0: real, bound: real, maxServer: nat, maxClient: nat, best0: Workers, thr0: real) returns (r: Result)
    requires Input(t, f0) && SomeWorks(t)
    requires Allocated(t, f0, bound, maxServer, maxClient, best0, t.rate, 4, 4, thr0)
    ensures r.Ok? ==> Done(t, f0, bound, maxServer, maxClient, r.best, r.est)
    ensures r.Ok? ==> r.best == Spread(t, f0, bound, maxServer, maxClient, best0)
    ensures r.TypeError? <==> NthSlowest(t, 1).None? && thr0 < bound && 4 < maxServer && 4 < maxClient
  {
    var best, est, thr := best0, t.rate, thr0;
    var ws: nat, wc: nat, failed := 4, 4, false;
    while thr < bound && wc < maxClient && ws < maxServer
      invariant Allocated(t, f0, bound, maxServer, maxClient, best, est, ws, wc, thr)
      invariant Spread(t, f0, bound, maxServer, maxClient, best) == Spread(t, f0, bound, maxServer, maxClient, best0)
      invariant NthSlowest(t, 1).Some? || (thr == thr0 && ws == wc == 4)
      decreases maxServer + maxClient - ws - wc, thr < bound
    {
      failed, best, est, ws, wc, thr := GrowOnce(t, f0, bound, maxServer, maxClient, best, est, ws, wc);
      if failed {
        return TypeError;
      }
    }
    NotWanted(t, f0, bound, maxServer, maxClient, best, est);
    return Ok(best, est);
  }

  lemma NotWanted(t: Table, f0: real, bound: real, maxServer: nat, maxClient: nat, best: Workers, est: map<Stage, real>)
    requires Input(t, f0) && Fair(t, f0, best, est)
    requires (forall c :: Works(t, c) ==> est[c] >= bound) || OfServer(best) >= maxServer || OfClient(best) >= maxClient
    ensures Spread(t, f0, bound, maxServer, maxClient, best) == best
  {
    FairTable(t, f0, best, est);
    EstimatesAre(t, f0, best, est);
    SlowestIsLeast(Table(t.order, est));
  }

  method GrowOnce(t: Table, f0: real, bound: real, maxServer: nat, maxClient: nat,
                  best0: Workers, est0: map<Stage, real>, ws0: nat, wc0: nat)
    returns (failed: bool, best: Workers, est: map<Stage, real>, ws: nat, wc: nat, thr: real)
    requires Input(t, f0) && SomeWorks(t) && Fair(t, f0, best0, est0) && ws0 == OfServer(best0) && wc0 == OfClient(best0)
    requires ws0 < maxServer && wc0 < maxClient
    ensures failed <==> NthSlowest(t, 1).None?
    ensures !failed ==>
              && Allocated(t, f0, bound, maxServer, maxClient, best, est, ws, wc, thr)
              && ws0 <= ws && wc0 <= wc && (thr < bound ==> ws + wc > ws0 + wc0)
              && Spread(t, f0, bound, maxServer, maxClient, best) == Spread(t, f0, bound, maxServer, maxClient, best0)
  {
    best, est, ws, wc := best0, est0, ws0, wc0;
    var c, second := FindSlowest(t, f0, best, est);
    thr := est[c];
    failed := second.None?;
    if !failed {
      best, est, ws, wc := Boost(t, f0, bound, maxServer, maxClient, c, second.value, best, est, ws, wc);
    }
  }

  // ---- Optimality ----

  /** The workers of the stages that count. */
  function Counted(t: Table, w: Workers, c: Stage): nat
    requires c in w
  {
    if Works(t, c) then w[c] else 0
  }

  function CountedTotal(t: Table, w: Workers): nat
    requires forall c: Stage :: c in w
  {
    Counted(t, w, Read) + Counted(t, w, Deser) + Counted(t, w, Comp) + Counted(t, w, Send)
    + Counted(t, w, Rcv) + Counted(t, w, Decomp) + Counted(t, w, Ser) + Counted(t, w, Write)
  }

  /** Any allocation with a faster slowest stage has at least as many workers in every stage that counts,
      and more in the one that is slowest here; so it has more of them in all. */
  lemma Optimal(t: Table, f0: real, best: Workers, est: map<Stage, real>, slowest: Stage, other: Workers)
    requires Input(t, f0) && Fair(t, f0, best, est) && Complete(other)
    requires Works(t, slowest) && forall c :: Works(t, c) ==> est[slowest] <= est[c]
    requires forall c :: Works(t, c) ==> EffectiveRate(f0, t.rate[c], other[c]) > est[slowest]
    ensures forall c :: Works(t, c) ==> other[c] >= best[c]
    ensures other[slowest] > best[slowest]
    ensures CountedTotal(t, other) > CountedTotal(t, best)
  {
    forall c | Works(t, c)
      ensures other[c] >= best[c]
    {
      if best[c] > 1 {
        FasterMeansMore(f0, t.rate[c], other[c], best[c] - 1);
      }
    }
    FasterMeansMore(f0, t.rate[slowest], other[slowest], best[slowest]);
    CountedMore(t, best, other, slowest);
  }

  /** No allocation that reaches the bound does with fewer workers in any stage that counts. */
  lemma Frugal(t: Table, f0: real, bound: real, best: Workers, other: Workers)
    requires Input(t, f0) && Complete(best) && Needed(t, f0, bound, best) && Complete(other)
    requires forall c :: Works(t, c) ==> EffectiveRate(f0, t.rate[c], other[c]) >= bound
    ensures forall c :: Works(t, c) ==> other[c] >= best[c]
    ensures CountedTotal(t, other) >= CountedTotal(t, best)
  {
    forall c: Stage
      ensures Works(t, c) ==> other[c] >= best[c]
      ensures Counted(t, best, c) <= Counted(t, other, c)
    {
      if Works(t, c) && best[c] > 1 {
        FasterMeansMore(f0, t.rate[c], other[c], best[c] - 1);
      }
      NotFewer(t, best, other, c);
    }
  }

  lemma CountedMore(t: Table, best: Workers, other: Workers, s: Stage)
    requires (forall c: Stage :: c in best && c in other) && Works(t, s) && other[s] > best[s]
    requires forall c :: Works(t, c) ==> other[c] >= best[c]
    ensures CountedTotal(t, other) > CountedTotal(t, best)
  {
    NotFewer(t, best, other, Read);
    NotFewer(t, best, other, Deser);
    NotFewer(t, best, other, Comp);
    NotFewer(t, best, other, Send);
    NotFewer(t, best, other, Rcv);
    NotFewer(t, best, other, Decomp);
    NotFewer(t, best, other, Ser);
    NotFewer(t, best, other, Write);
    match s {
      case Read =>
      case Deser =>
      case Comp =>
      case Send =>
      case Rcv =>
      case Decomp =>
      case Ser =>
      case Write =>
    }
  }

  lemma NotFewer(t: Table, best: Workers, other: Workers, c: Stage)
    requires c in best && c in other && (Works(t, c) ==> other[c] >= best[c])
    ensures Counted(t, best, c) <= Counted(t, other, c)
    ensures Works(t, c) && other[c] > best[c] ==> Counted(t, best, c) < Counted(t, other, c)
  {
  }
}
