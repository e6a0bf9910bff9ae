/** Exclusive ownership: in every reachable state each buffer id is in exactly one place,
    a queue slot or a register of one thread.

    The proof weighs the ids: for every weight function `g` on ids the total weight of all places
    never changes.  Counting one id gives ownership, counting all of them gives conservation. */
module PipelineOwnership {
  import opened Sums
  import opened Pipeline
  import opened PipelineShape

  type Weight = int -> nat

  ghost function QueueWeight(g: Weight): seq<int> -> nat {
    (q: seq<int>) => Sum(q, g)
  }

  function HeldWeight(g: Weight): Worker -> nat {
    (w: Worker) => g(w.b) + g(w.o)
  }

  ghost function Weigh(s: State, g: Weight): nat {
    Sum(s.q, QueueWeight(g)) + Sum(s.th, HeldWeight(g)) + Sum(s.lost, g)
  }

  // ---- Queues ----

  lemma Pushed(q: seq<int>, x: int, g: Weight)
    ensures Sum(q + [x], g) == Sum(q, g) + g(x)
  {
    assert (q + [x])[..|q|] == q;
  }

  lemma Popped(q: seq<int>, g: Weight)
    requires q != []
    ensures Sum(q, g) == g(q[0]) + Sum(q[1..], g)
  {
    assert q == [q[0]] + q[1..];
    SumConcat([q[0]], q[1..], g);
    Pushed([], q[0], g);
    assert [] + [q[0]] == [q[0]];
  }

  // ---- The weight never changes ----

  lemma WeighStart(c: Config, input: seq<seq<Tuple>>, g: Weight)
    requires c.Valid() && g(END) == 0
    ensures Weigh(Init(c, input), g) == Sum(Iota(c.ids), g)
  {
    var s := Init(c, input);
    SumConst(s.th, HeldWeight(g), 0);
    assert s.q == [Iota(c.ids)] + [[], [], []];
    SumConcat([Iota(c.ids)], [[], [], []], QueueWeight(g));
    SumConst([[], [], []], QueueWeight(g), 0);
    assert [Iota(c.ids)][..0] == [];
  }

  lemma WeighTake(c: Config, s: State, i: nat, p: Plan, g: Weight)
    requires c.Valid() && Ready(c, s, i, p) && g(END) == 0 && p.Take?
    ensures Weigh(Apply(c, s, i, p).value, g) == Weigh(s, g)
  {
    var s', w := Apply(c, s, i, p).value, s.th[i];
    FitApply(c, s, i, p);
    SumUpdate(s.th, i, s'.th[i], HeldWeight(g));
    ReceiveFits(c.roles[w.stage], w, s.q[p.j][0], s.pool);
    Popped(s.q[p.j], g);
    SumUpdate(s.q, p.j, s.q[p.j][1..], QueueWeight(g));
  }

  lemma GiveMoves(role: Role, w: Worker, p: Plan, g: Weight)
    requires Sound(role, w, p) && p.Give? && g(END) == 0
    ensures HeldWeight(g)(p.w) + g(p.x) == HeldWeight(g)(w)
  {
  }

  lemma WeighGive(c: Config, s: State, i: nat, p: Plan, g: Weight)
    requires c.Valid() && Ready(c, s, i, p) && g(END) == 0 && p.Give?
    ensures Weigh(Apply(c, s, i, p).value, g) == Weigh(s, g)
  {
    var s' := Apply(c, s, i, p).value;
    assert s'.th == s.th[i := p.w] && s'.q == s.q[p.j := s.q[p.j] + [p.x]] && s'.lost == s.lost;
    GiveMoves(c.roles[s.th[i].stage], s.th[i], p, g);
    SumUpdate(s.th, i, p.w, HeldWeight(g));
    Pushed(s.q[p.j], p.x, g);
    SumUpdate(s.q, p.j, s.q[p.j] + [p.x], QueueWeight(g));
  }

  lemma WeighLocal(c: Config, s: State, i: nat, p: Plan, g: Weight)
    requires c.Valid() && Ready(c, s, i, p) && g(END) == 0 && (p.Local? || p.Bump?)
    ensures Weigh(Apply(c, s, i, p).value, g) == Weigh(s, g)
  {
    SumUpdate(s.th, i, p.w, HeldWeight(g));
    if p.Local? {
      if p.lost == [] {
        assert s.lost + p.lost == s.lost;
      } else {
        Pushed(s.lost, p.lost[0], g);
      }
    }
  }

  lemma WeighStep(c: Config, s: State, i: nat, p: Plan, g: Weight)
    requires c.Valid() && Ready(c, s, i, p) && g(END) == 0
    ensures Weigh(Apply(c, s, i, p).value, g) == Weigh(s, g)
  {
    match p
    case Take(_) => WeighTake(c, s, i, p, g);
    case Give(_, _, _) => WeighGive(c, s, i, p, g);
    case Local(_, _, _, _, _) => WeighLocal(c, s, i, p, g);
    case Bump(_) => WeighLocal(c, s, i, p, g);
  }

  // ---- Counting one id ----

  function Is(x: int): Weight {
    (y: int) => if x == y then 1 else 0
  }

  /** How many places refer to id `x`. */
  ghost function Places(s: State, x: int): nat {
    Weigh(s, Is(x))
  }

  function One(): Weight {
    (y: int) => if y == END then 0 else 1
  }

  /** Each id of the pool is in exactly one place, no other id is anywhere, and all places together
      number as many as there are ids. */
  ghost predicate Owned(c: Config, s: State) {
    && (forall x :: x != END ==> Places(s, x) == if 0 <= x < c.ids then 1 else 0)
    && Weigh(s, One()) == c.ids
  }

  lemma {:induction false} IotaOnce(n: nat, x: int)
    ensures Sum(Iota(n), Is(x)) == if 0 <= x < n then 1 else 0
  {
    if n > 0 {
      IotaOnce(n - 1, x);
      assert Iota(n)[..n - 1] == Iota(n - 1);
    }
  }

  lemma OwnedStart(c: Config, input: seq<seq<Tuple>>)
    requires c.Valid()
    ensures Owned(c, Init(c, input))
  {
    forall x | x != END
      ensures Places(Init(c, input), x) == if 0 <= x < c.ids then 1 else 0
    {
      WeighStart(c, input, Is(x));
      IotaOnce(c.ids, x);
    }
    WeighStart(c, input, One());
    SumConst(Iota(c.ids), One(), 1);
  }

  lemma OwnedStep(c: Config, s: State, i: nat, p: Plan)
    requires c.Valid() && Ready(c, s, i, p) && Owned(c, s)
    ensures Owned(c, Apply(c, s, i, p).value)
  {
    forall x | x != END
      ensures Places(Apply(c, s, i, p).value, x) == Places(s, x)
    {
      WeighStep(c, s, i, p, Is(x));
    }
    WeighStep(c, s, i, p, One());
  }

  lemma {:induction false} CountIn(q: seq<int>, x: int)
    ensures x in q <==> Sum(q, Is(x)) > 0
  {
    if q != [] {
      CountIn(q[..|q| - 1], x);
      assert x in q <==> x in q[..|q| - 1] || x == q[|q| - 1];
    }
  }

  lemma {:induction false} SumTwo<T>(s: seq<T>, f: T -> nat, i: nat, j: nat)
    requires i < j < |s|
    ensures f(s[i]) + f(s[j]) <= Sum(s, f)
  {
    var n := |s| - 1;
    if j < n {
      SumTwo(s[..n], f, i, j);
    } else {
      SumPositive(s[..n], f, i);
    }
  }

  predicate Holds(w: Worker, x: int) {
    w.b == x || w.o == x
  }

  /** No two threads hold the same buffer, no thread holds one twice, and no held buffer is queued
      anywhere or lost. */
  lemma NoSharing(c: Config, s: State, i: nat, x: int)
    requires Owned(c, s) && i < |s.th| && x != END && Holds(s.th[i], x)
    ensures 0 <= x < c.ids
    ensures s.th[i].b != s.th[i].o
    ensures forall k :: 0 <= k < |s.th| && k != i ==> !Holds(s.th[k], x)
    ensures forall j :: 0 <= j < |s.q| ==> x !in s.q[j]
    ensures x !in s.lost
  {
    var held := HeldWeight(Is(x));
    SumPositive(s.th, held, i);
    assert Places(s, x) >= 1;
    assert Places(s, x) == 1;
    forall k | 0 <= k < |s.th| && k != i
      ensures !Holds(s.th[k], x)
    {
      SumTwo(s.th, held, if k < i then k else i, if k < i then i else k);
    }
    forall j | 0 <= j < |s.q|
      ensures x !in s.q[j]
    {
      CountIn(s.q[j], x);
      SumPositive(s.q, QueueWeight(Is(x)), j);
    }
    CountIn(s.lost, x);
  }
}
