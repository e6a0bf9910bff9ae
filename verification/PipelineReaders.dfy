/** With any numbers of threads: what a buffer holds of one reader's tuples is in that reader's order. */
module PipelineReaders {
  import opened Sums
  import opened Pipeline
  import opened PipelineShape
  import opened PipelineOwnership
  import opened PipelineContents
  import opened PipelineProgress
  import opened PipelineDelivery
  import opened PipelineOrder

  /** The tuples of one reader, in their order. */
  function Only(mine: Tuple -> bool, ts: seq<Tuple>): seq<Tuple> {
    if ts == [] then []
    else if mine(ts[|ts| - 1]) then Only(mine, ts[..|ts| - 1]) + [ts[|ts| - 1]]
    else Only(mine, ts[..|ts| - 1])
  }

  lemma {:induction false} OnlyBoth(mine: Tuple -> bool, a: seq<Tuple>, b: seq<Tuple>)
    ensures Only(mine, a + b) == Only(mine, a) + Only(mine, b)
  {
    if b == [] {
      assert a + b == a;
    } else {
      var n := |b| - 1;
      assert (a + b)[..|a + b| - 1] == a + b[..n];
      OnlyBoth(mine, a, b[..n]);
    }
  }

  lemma {:induction false} OnlyNone(mine: Tuple -> bool, ts: seq<Tuple>)
    requires forall k :: 0 <= k < |ts| ==> !mine(ts[k])
    ensures Only(mine, ts) == []
  {
    if ts != [] {
      OnlyNone(mine, ts[..|ts| - 1]);
    }
  }

  // ---- Taking tuples out ----

  lemma FrontWithin(a: seq<Tuple>, b: seq<Tuple>, t: seq<Tuple>)
    requires Within(a + b, t)
    ensures Within(a, t) && Within(b, t)
  {
    WithinFront(a, a + b, t);
    assert [] + a + b == a + b && [] + b == b;
    WithinLess([], a, b, t);
  }

  lemma MiddleOut(a: seq<Tuple>, d: seq<Tuple>, b: seq<Tuple>, t: seq<Tuple>)
    requires Within(a + (d + b), t)
    ensures Within(a + b, t)
  {
    assert a + (d + b) == a + d + b;
    WithinLess(a, d, b, t);
  }

  // ---- Where a reader's tuples are ----

  /** What the reader has not passed on yet, behind what waits in the first queue. */
  function Stream(s: State, r: nat, mine: Tuple -> bool): seq<Tuple>
    requires r < |s.th| && |s.q| == 4
  {
    Only(mine, TuplesIn(s.pool, s.q[1])) + Only(mine, Inside(s.th[r], s.pool))
  }

  /** One thread: `stream` comes behind what a thread of the second stage holds; the other readers have nothing of it. */
  ghost predicate Keeps(w: Worker, pool: Pool, mine: Tuple -> bool, stream: seq<Tuple>, t: seq<Tuple>) {
    if w.stage == 0 then Only(mine, Inside(w, pool)) == []
    else if w.stage == 1 then Within(Only(mine, Inside(w, pool)) + stream, t)
    else Within(Only(mine, Inside(w, pool)), t)
  }

  ghost predicate AllKeep(s: State, r: nat, mine: Tuple -> bool, t: seq<Tuple>)
    requires r < |s.th| && |s.q| == 4
  {
    forall k :: 0 <= k < |s.th| && k != r ==> Keeps(s.th[k], s.pool, mine, Stream(s, r, mine), t)
  }

  ghost predicate QueuesKeep(s: State, mine: Tuple -> bool, t: seq<Tuple>)
    requires |s.q| == 4
  {
    forall l, k :: 2 <= l < 4 && 0 <= k < |s.q[l]| ==> Within(Only(mine, At(s.pool, s.q[l][k])), t)
  }

  ghost predicate InOrder(s: State, r: nat, mine: Tuple -> bool, t: seq<Tuple>) {
    && r < |s.th| && |s.q| == 4 && s.th[r].stage == 0
    && Within(Stream(s, r, mine), t) && AllKeep(s, r, mine, t) && QueuesKeep(s, mine, t)
  }

  // ---- One thread ----

  /** The thread pops an id. */
  lemma KeepsTake(w: Worker, w': Worker, pool: Pool, x: seq<Tuple>, mine: Tuple -> bool, stream: seq<Tuple>, stream': seq<Tuple>, t: seq<Tuple>)
    requires w'.stage == w.stage && Inside(w', pool) == Inside(w, pool) + x && Keeps(w, pool, mine, stream, t)
    requires w.stage == 0 ==> x == []
    requires w.stage == 1 ==> stream == Only(mine, x) + stream'
    requires w.stage >= 2 ==> x == [] || (Inside(w, pool) == [] && Within(Only(mine, x), t))
    ensures Keeps(w', pool, mine, stream', t)
  {
    OnlyBoth(mine, Inside(w, pool), x);
    var held := Only(mine, Inside(w, pool));
    if w.stage == 1 {
      assert held + (Only(mine, x) + stream') == (held + Only(mine, x)) + stream';
    } else if x == [] {
      assert held + [] == held;
    } else {
      assert [] + x == x;
    }
  }

  /** The thread gives up the front of what it has. */
  lemma KeepsLess(w: Worker, w': Worker, pool: Pool, pool': Pool, x: seq<Tuple>, mine: Tuple -> bool, stream: seq<Tuple>, t: seq<Tuple>)
    requires w'.stage == w.stage && Inside(w, pool) == x + Inside(w', pool') && Keeps(w, pool, mine, stream, t)
    ensures Keeps(w', pool', mine, stream, t)
    ensures w.stage == 0 ==> Only(mine, x) == []
    ensures w.stage > 0 ==> Within(Only(mine, x), t)
  {
    OnlyBoth(mine, x, Inside(w', pool'));
    var a, b := Only(mine, x), Only(mine, Inside(w', pool'));
    if w.stage == 1 {
      FrontOfThree(a, b, stream, t);
    } else if w.stage > 1 {
      FrontWithin(a, b, t);
    }
  }

  lemma FrontOfThree(a: seq<Tuple>, b: seq<Tuple>, c: seq<Tuple>, t: seq<Tuple>)
    requires Within((a + b) + c, t)
    ensures Within(a, t) && Within(b + c, t)
  {
    assert (a + b) + c == a + (b + c);
    FrontWithin(a, b + c, t);
  }

  /** Less is to come: another thread has popped a buffer. */
  lemma KeepsStream(w: Worker, pool: Pool, pool': Pool, d: seq<Tuple>, mine: Tuple -> bool, stream: seq<Tuple>, stream': seq<Tuple>, t: seq<Tuple>)
    requires Inside(w, pool') == Inside(w, pool) && Keeps(w, pool, mine, stream, t) && stream == d + stream'
    ensures Keeps(w, pool', mine, stream', t)
  {
    if w.stage == 1 {
      MiddleOut(Only(mine, Inside(w, pool)), d, stream', t);
    }
  }

  // ---- One step ----

  lemma BlankWhenIdle(c: Config, w: Worker, pool: Pool)
    requires c.Valid() && !c.roles[2].Repack? && 2 <= w.stage < 4 && Fits(c.roles[w.stage], w) && Stops(w.pc)
    ensures Inside(w, pool) == []
  {
  }

  /** What a pop does to the stream. */
  lemma StreamAfterTake(s: State, s': State, r: nat, i: nat, j: nat, mine: Tuple -> bool)
    requires |s.q| == |s'.q| == 4 && r < |s.th| == |s'.th| && i < |s.th| && j < 4 && s.q[j] != []
    requires s'.pool == s.pool && s'.th == s.th[i := s'.th[i]] && s'.q == s.q[j := s.q[j][1..]]
    requires i == r ==> Inside(s'.th[i], s.pool) == Inside(s.th[i], s.pool)
    ensures Stream(s, r, mine) == (if j == 1 then Only(mine, At(s.pool, s.q[1][0])) else []) + Stream(s', r, mine)
  {
    var x, inside := s.q[j][0], Only(mine, Inside(s.th[r], s.pool));
    if j == 1 {
      var rest := TuplesIn(s.pool, s.q[1][1..]);
      OnlyBoth(mine, At(s.pool, x), rest);
      assert (Only(mine, At(s.pool, x)) + Only(mine, rest)) + inside == Only(mine, At(s.pool, x)) + (Only(mine, rest) + inside);
    }
  }

  lemma TakeOne(c: Config, s: State, i: nat, j: nat, w': Worker, r: nat, mine: Tuple -> bool, t: seq<Tuple>, stream': seq<Tuple>)
    requires c.Valid() && !c.roles[2].Repack? && InOrder(s, r, mine, t) && i < |s.th| && i != r && s.th[i].stage < 4 && j < 4
    requires Fits(c.roles[s.th[i].stage], s.th[i]) && j < 4 && s.q[j] != [] && j == (if Stops(s.th[i].pc) then s.th[i].stage else 0)
    requires j == 0 ==> At(s.pool, s.q[0][0]) == []
    requires w'.stage == s.th[i].stage && Inside(w', s.pool) == Inside(s.th[i], s.pool) + At(s.pool, s.q[j][0])
    requires Stream(s, r, mine) == (if j == 1 then Only(mine, At(s.pool, s.q[1][0])) else []) + stream'
    ensures Keeps(w', s.pool, mine, stream', t)
  {
    var w, x := s.th[i], At(s.pool, s.q[j][0]);
    assert Keeps(w, s.pool, mine, Stream(s, r, mine), t);
    assert Only(mine, []) == [] && [] + stream' == stream';
    if j >= 2 {
      BlankWhenIdle(c, w, s.pool);
    }
    KeepsTake(w, w', s.pool, x, mine, Stream(s, r, mine), stream', t);
  }

  lemma TakeInOrder(c: Config, s: State, i: nat, p: Plan, r: nat, mine: Tuple -> bool, t: seq<Tuple>)
    requires c.Valid() && !c.roles[2].Repack? && Inv(c, s) && InOrder(s, r, mine, t) && Ready(c, s, i, p) && p.Take?
    ensures InOrder(Apply(c, s, i, p).value, r, mine, t)
  {
    var w := s.th[i];
    FitApply(c, s, i, p);
    if !Stops(w.pc) {
      assert At(s.pool, s.q[0][0]) == [];
    }
    ReceiveOrder(c.roles[w.stage], w, s.q[p.j][0], s.pool);
    TakePieces(c, s, Apply(c, s, i, p).value, i, p.j, r, mine, t);
  }

  lemma TakePieces(c: Config, s: State, s': State, i: nat, j: nat, r: nat, mine: Tuple -> bool, t: seq<Tuple>)
    requires c.Valid() && !c.roles[2].Repack? && InOrder(s, r, mine, t) && i < |s.th| == |s'.th| && s'.pool == s.pool
    requires s'.th == s.th[i := s'.th[i]] && s'.th[i].stage == s.th[i].stage < 4 && j < 4 && s.q[j] != [] && s'.q == s.q[j := s.q[j][1..]]
    requires Fits(c.roles[s.th[i].stage], s.th[i]) && j == (if Stops(s.th[i].pc) then s.th[i].stage else 0)
    requires j == 0 ==> At(s.pool, s.q[0][0]) == []
    requires Inside(s'.th[i], s.pool) == Inside(s.th[i], s.pool) + At(s.pool, s.q[j][0])
    ensures InOrder(s', r, mine, t)
  {
    assert Inside(s.th[i], s.pool) + [] == Inside(s.th[i], s.pool);
    assert s.th[i].stage == 0 ==> !Stops(s.th[i].pc);
    StreamAfterTake(s, s', r, i, j, mine);
    var d := if j == 1 then Only(mine, At(s.pool, s.q[1][0])) else [];
    FrontWithin(d, Stream(s', r, mine), t);
    forall k | 0 <= k < |s'.th| && k != r
      ensures Keeps(s'.th[k], s'.pool, mine, Stream(s', r, mine), t)
    {
      if k == i {
        TakeOne(c, s, i, j, s'.th[i], r, mine, t, Stream(s', r, mine));
      } else {
        KeepsStream(s.th[k], s.pool, s.pool, d, mine, Stream(s, r, mine), Stream(s', r, mine), t);
      }
    }
    QueuesTaken(s, s', j, mine, t);
  }

  lemma QueuesTaken(s: State, s': State, j: nat, mine: Tuple -> bool, t: seq<Tuple>)
    requires |s.q| == 4 && j < 4 && s.q[j] != [] && s'.q == s.q[j := s.q[j][1..]] && s'.pool == s.pool && QueuesKeep(s, mine, t)
    ensures QueuesKeep(s', mine, t)
  {
    forall l, k | 2 <= l < 4 && 0 <= k < |s'.q[l]|
      ensures Within(Only(mine, At(s'.pool, s'.q[l][k])), t)
    {
      assert s'.q[l][k] == s.q[l][if l == j then k + 1 else k];
    }
  }

  /** What a push does to the stream: what the reader itself pushes stays in it, and others have nothing of it. */
  lemma StreamAfterGive(s: State, s': State, r: nat, i: nat, x: int, mine: Tuple -> bool)
    requires |s.q| == |s'.q| == 4 && r < |s.th| == |s'.th| && i < |s.th| && s.th[i].stage == 0
    requires s'.pool == s.pool && s'.th == s.th[i := s'.th[i]] && s'.q == s.q[1 := s.q[1] + [x]]
    requires Inside(s.th[i], s.pool) == At(s.pool, x) + Inside(s'.th[i], s.pool)
    requires i != r ==> Only(mine, At(s.pool, x)) == []
    ensures Stream(s', r, mine) == Stream(s, r, mine)
  {
    LongerQueue(s.pool, s.q[1], x, mine);
    var a, q := Only(mine, At(s.pool, x)), Only(mine, TuplesIn(s.pool, s.q[1]));
    if i == r {
      OnlyBoth(mine, At(s.pool, x), Inside(s'.th[i], s.pool));
      Associate(q, a, Only(mine, Inside(s'.th[i], s.pool)));
    } else {
      assert q + [] == q;
    }
  }

  lemma LongerQueue(pool: Pool, q: seq<int>, x: int, mine: Tuple -> bool)
    ensures Only(mine, TuplesIn(pool, q + [x])) == Only(mine, TuplesIn(pool, q)) + Only(mine, At(pool, x))
  {
    TuplesInSnoc(pool, q, x);
    OnlyBoth(mine, TuplesIn(pool, q), At(pool, x));
  }

  lemma Associate(a: seq<Tuple>, b: seq<Tuple>, c: seq<Tuple>)
    ensures (a + b) + c == a + (b + c)
  {
  }

  lemma StreamSame(s: State, s': State, r: nat, mine: Tuple -> bool)
    requires |s.q| == |s'.q| == 4 && r < |s.th| == |s'.th|
    requires TuplesIn(s'.pool, s'.q[1]) == TuplesIn(s.pool, s.q[1]) && Inside(s'.th[r], s'.pool) == Inside(s.th[r], s.pool)
    ensures Stream(s', r, mine) == Stream(s, r, mine)
  {
  }

  /** The threads other than the reader, when one of them gives up the front of what it has. */
  lemma AllKeepLess(s: State, s': State, i: nat, x: seq<Tuple>, r: nat, mine: Tuple -> bool, t: seq<Tuple>)
    requires InOrder(s, r, mine, t) && i < |s.th| == |s'.th| && s'.th == s.th[i := s'.th[i]] && |s'.q| == 4
    requires s'.th[i].stage == s.th[i].stage && Inside(s.th[i], s.pool) == x + Inside(s'.th[i], s'.pool)
    requires forall k :: 0 <= k < |s.th| && k != i ==> Inside(s.th[k], s'.pool) == Inside(s.th[k], s.pool)
    requires Stream(s', r, mine) == Stream(s, r, mine)
    ensures AllKeep(s', r, mine, t)
  {
    forall k | 0 <= k < |s'.th| && k != r
      ensures Keeps(s'.th[k], s'.pool, mine, Stream(s', r, mine), t)
    {
      assert Keeps(s.th[k], s.pool, mine, Stream(s, r, mine), t);
      if k == i {
        KeepsLess(s.th[i], s'.th[i], s.pool, s'.pool, x, mine, Stream(s, r, mine), t);
      }
    }
  }

  lemma GivenWithin(s: State, i: nat, x: seq<Tuple>, w': Worker, r: nat, mine: Tuple -> bool, t: seq<Tuple>)
    requires InOrder(s, r, mine, t) && i < |s.th| && i != r && w'.stage == s.th[i].stage
    requires Inside(s.th[i], s.pool) == x + Inside(w', s.pool)
    ensures if s.th[i].stage == 0 then Only(mine, x) == [] else Within(Only(mine, x), t)
  {
    KeepsLess(s.th[i], w', s.pool, s.pool, x, mine, Stream(s, r, mine), t);
  }

  lemma GiveInOrder(c: Config, s: State, i: nat, p: Plan, r: nat, mine: Tuple -> bool, t: seq<Tuple>)
    requires c.Valid() && Inv(c, s) && InOrder(s, r, mine, t) && Ready(c, s, i, p) && p.Give?
    requires Orderly(s.th[i], s.pool, p) && Conserves(s.th[i], s.pool, p)
    ensures InOrder(Apply(c, s, i, p).value, r, mine, t)
  {
    FitApply(c, s, i, p);
    GivePieces(s, Apply(c, s, i, p).value, i, p.j, p.x, r, mine, t);
  }

  lemma GivePieces(s: State, s': State, i: nat, j: nat, x: int, r: nat, mine: Tuple -> bool, t: seq<Tuple>)
    requires InOrder(s, r, mine, t) && i < |s.th| == |s'.th| && s'.pool == s.pool && s'.th == s.th[i := s'.th[i]]
    requires s'.th[i].stage == s.th[i].stage && j < 4 && s'.q == s.q[j := s.q[j] + [x]]
    requires if j == 0 then At(s.pool, x) == [] else j == s.th[i].stage + 1
    requires Inside(s.th[i], s.pool) == At(s.pool, x) + Inside(s'.th[i], s.pool)
    ensures InOrder(s', r, mine, t)
  {
    if i != r {
      GivenWithin(s, i, At(s.pool, x), s'.th[i], r, mine, t);
    }
    if j == 1 {
      StreamAfterGive(s, s', r, i, x, mine);
    } else {
      assert [] + Inside(s'.th[i], s.pool) == Inside(s'.th[i], s.pool);
      StreamSame(s, s', r, mine);
    }
    AllKeepLess(s, s', i, At(s.pool, x), r, mine, t);
    QueuesGiven(s, s', j, x, mine, t);
  }

  lemma QueuesGiven(s: State, s': State, j: nat, x: int, mine: Tuple -> bool, t: seq<Tuple>)
    requires |s.q| == 4 && j < 4 && s'.q == s.q[j := s.q[j] + [x]] && s'.pool == s.pool && QueuesKeep(s, mine, t)
    requires j >= 2 ==> Within(Only(mine, At(s.pool, x)), t)
    ensures QueuesKeep(s', mine, t)
  {
  }

  lemma BumpInOrder(c: Config, s: State, i: nat, p: Plan, r: nat, mine: Tuple -> bool, t: seq<Tuple>)
    requires c.Valid() && InOrder(s, r, mine, t) && Ready(c, s, i, p) && p.Bump? && Orderly(s.th[i], s.pool, p)
    ensures InOrder(Apply(c, s, i, p).value, r, mine, t)
  {
    var s' := Apply(c, s, i, p).value;
    FitApply(c, s, i, p);
    assert [] + Inside(p.w, s.pool) == Inside(p.w, s.pool);
    StreamSame(s, s', r, mine);
    AllKeepLess(s, s', i, [], r, mine, t);
  }

  lemma LocalInOrder(c: Config, s: State, i: nat, p: Plan, r: nat, mine: Tuple -> bool, t: seq<Tuple>)
    requires c.Valid() && Inv(c, s) && InOrder(s, r, mine, t) && Ready(c, s, i, p) && p.Local?
    requires Orderly(s.th[i], s.pool, p) && Conserves(s.th[i], s.pool, p)
    ensures InOrder(Apply(c, s, i, p).value, r, mine, t)
  {
    var s' := Apply(c, s, i, p).value;
    FitApply(c, s, i, p);
    LocalElsewhere(c, s, i, p.pool);
    if i == r {
      assert [] + Inside(p.w, p.pool) == Inside(p.w, p.pool);
    }
    StreamSame(s, s', r, mine);
    AllKeepLess(s, s', i, p.sent + p.dropped, r, mine, t);
    QueuesUntouched(s, s', mine, t);
  }

  lemma QueuesUntouched(s: State, s': State, mine: Tuple -> bool, t: seq<Tuple>)
    requires |s.q| == 4 && s'.q == s.q && QueuesKeep(s, mine, t)
    requires forall l, k :: 0 <= l < 4 && 0 <= k < |s.q[l]| ==> At(s'.pool, s.q[l][k]) == At(s.pool, s.q[l][k])
    ensures QueuesKeep(s', mine, t)
  {
    forall l, k | 2 <= l < 4 && 0 <= k < |s'.q[l]|
      ensures Within(Only(mine, At(s'.pool, s'.q[l][k])), t)
    {
      assert At(s'.pool, s'.q[l][k]) == At(s.pool, s.q[l][k]);
    }
  }

  lemma StepInOrder(c: Config, s: State, i: nat, ch: Choice, r: nat, mine: Tuple -> bool, t: seq<Tuple>)
    requires c.Valid() && !c.roles[2].Repack? && Inv(c, s) && InOrder(s, r, mine, t) && i < |s.th| && Step(c, s, i, ch).Some?
    ensures InOrder(Step(c, s, i, ch).value, r, mine, t)
  {
    var w, p := s.th[i], PlanOf(c, s, s.th[i], ch);
    StepReady(c, s, i, ch);
    HeldApart(c, s, i);
    PlanConserves(c, s, w, ch);
    PlanOrder(c, s, w, ch);
    match p
    case Take(_) => TakeInOrder(c, s, i, p, r, mine, t);
    case Give(_, _, _) => GiveInOrder(c, s, i, p, r, mine, t);
    case Bump(_) => BumpInOrder(c, s, i, p, r, mine, t);
    case Local(_, _, _, _, _) => LocalInOrder(c, s, i, p, r, mine, t);
  }

  // ---- Every run ----

  lemma StartInOrder(c: Config, input: seq<seq<Tuple>>, r: nat, mine: Tuple -> bool)
    requires c.Valid() && r < c.n[0] && OnlyFrom(c, input, r, mine)
    ensures InOrder(Init(c, input), r, mine, Only(mine, Shares(c.n[0], input)[r]))
  {
    StartsInside(c, input);
    StartPieces(c, Init(c, input), Shares(c.n[0], input), r, mine);
  }

  lemma StartPieces(c: Config, s: State, shares: seq<seq<Tuple>>, r: nat, mine: Tuple -> bool)
    requires r < |shares| <= |s.th| && |s.q| == 4 && s.q[1..] == [[], [], []]
    requires forall k :: 0 <= k < |shares| ==> s.th[k].stage == 0 && Inside(s.th[k], s.pool) == shares[k]
    requires forall k :: |shares| <= k < |s.th| ==> s.th[k].stage > 0 && Inside(s.th[k], s.pool) == []
    requires forall k, i {:trigger shares[k][i]} :: 0 <= k < |shares| && k != r && 0 <= i < |shares[k]| ==> !mine(shares[k][i])
    ensures InOrder(s, r, mine, Only(mine, shares[r]))
  {
    var t := Only(mine, shares[r]);
    WithinItself(t);
    assert s.q[1] == s.q[1..][0] && s.q[2] == s.q[1..][1] && s.q[3] == s.q[1..][2];
    assert [] + t == t && Stream(s, r, mine) == t;
    forall k | 0 <= k < |s.th| && k != r
      ensures Keeps(s.th[k], s.pool, mine, t, t)
    {
      if k < |shares| {
        OnlyNone(mine, shares[k]);
      }
    }
  }

  lemma StartsInside(c: Config, input: seq<seq<Tuple>>)
    requires c.Valid()
    ensures var s := Init(c, input);
            && |s.th| >= c.n[0]
            && (forall k :: 0 <= k < c.n[0] ==> s.th[k].stage == 0 && Inside(s.th[k], s.pool) == Shares(c.n[0], input)[k])
            && (forall k :: c.n[0] <= k < |s.th| ==> s.th[k].stage > 0 && Inside(s.th[k], s.pool) == [])
  {
  }

  /** No other reader is given such tuples. */
  ghost predicate OnlyFrom(c: Config, input: seq<seq<Tuple>>, r: nat, mine: Tuple -> bool)
    requires c.Valid()
  {
    forall k, i {:trigger Shares(c.n[0], input)[k][i]} ::
      0 <= k < c.n[0] && k != r && 0 <= i < |Shares(c.n[0], input)[k]| ==> !mine(Shares(c.n[0], input)[k][i])
  }

  lemma {:induction false} InOrderAlways(c: Config, input: seq<seq<Tuple>>, run: seq<Event>, r: nat, mine: Tuple -> bool)
    requires c.Valid() && !c.roles[2].Repack? && r < c.n[0] && OnlyFrom(c, input, r, mine) && Exec(c, Init(c, input), run).Some?
    ensures InOrder(Exec(c, Init(c, input), run).value, r, mine, Only(mine, Shares(c.n[0], input)[r]))
  {
    if run == [] {
      StartInOrder(c, input, r, mine);
    } else {
      var e, front := run[|run| - 1], run[..|run| - 1];
      InOrderAlways(c, input, front, r, mine);
      InvAlways(c, input, front);
      StepInOrder(c, Exec(c, Init(c, input), front).value, e.thread, e.ch, r, mine, Only(mine, Shares(c.n[0], input)[r]));
    }
  }

  /** The tuples of one buffer are among those of the place where it is. */
  lemma {:induction false} QueueHas(pool: Pool, q: seq<int>, x: int, mine: Tuple -> bool, behind: seq<Tuple>, t: seq<Tuple>)
    requires x in q && Within(Only(mine, TuplesIn(pool, q)) + behind, t)
    ensures Within(Only(mine, At(pool, x)), t)
  {
    var a, b := Only(mine, At(pool, q[0])), Only(mine, TuplesIn(pool, q[1..]));
    OnlyBoth(mine, At(pool, q[0]), TuplesIn(pool, q[1..]));
    FrontOfThree(a, b, behind, t);
    if q[0] != x {
      QueueHas(pool, q[1..], x, mine, behind, t);
    }
  }

  lemma HandsHave(w: Worker, pool: Pool, x: int, mine: Tuple -> bool, behind: seq<Tuple>, t: seq<Tuple>)
    requires x == w.b || (x == w.o && (w.stage > 0 || At(pool, w.o) == []))
    requires Within(Only(mine, Inside(w, pool)) + behind, t)
    ensures Within(Only(mine, At(pool, x)), t)
  {
    FrontWithin(Only(mine, Inside(w, pool)), behind, t);
    var first := if w.stage == 0 then At(pool, w.b) else At(pool, w.o);
    var last := if w.stage == 0 then w.line + w.todo else w.line + At(pool, w.b);
    OnlyBoth(mine, first, last);
    FrontWithin(Only(mine, first), Only(mine, last), t);
    if w.stage > 0 {
      OnlyBoth(mine, w.line, At(pool, w.b));
      FrontWithin(Only(mine, w.line), Only(mine, At(pool, w.b)), t);
    }
  }

  lemma HeldInOrder(c: Config, s: State, k: nat, x: int, r: nat, mine: Tuple -> bool, t: seq<Tuple>)
    requires c.Valid() && Inv(c, s) && InOrder(s, r, mine, t) && k < |s.th| && (s.th[k].b == x || s.th[k].o == x)
    ensures Within(Only(mine, At(s.pool, x)), t)
  {
    var w := s.th[k];
    assert Fits(c.roles[w.stage], w) && Tidy(w, s.pool);
    SourceBlank(c, w, s.pool);
    if k == r {
      FrontWithin(Only(mine, TuplesIn(s.pool, s.q[1])), Only(mine, Inside(w, s.pool)), t);
      HandsWithin(w, s.pool, x, mine, [], t);
    } else {
      assert Keeps(w, s.pool, mine, Stream(s, r, mine), t);
      HandsWithin(w, s.pool, x, mine, if w.stage == 1 then Stream(s, r, mine) else [], t);
    }
  }

  lemma SourceBlank(c: Config, w: Worker, pool: Pool)
    requires c.Valid() && w.stage == 0 ==> Fits(c.roles[0], w) && Tidy(w, pool)
    requires c.Valid()
    ensures w.stage == 0 ==> At(pool, w.o) == []
  {
  }

  lemma HandsWithin(w: Worker, pool: Pool, x: int, mine: Tuple -> bool, stream: seq<Tuple>, t: seq<Tuple>)
    requires x == w.b || (x == w.o && (w.stage > 0 || At(pool, w.o) == []))
    requires var held := Only(mine, Inside(w, pool)); if w.stage == 1 then Within(held + stream, t) else Within(held, t)
    ensures Within(Only(mine, At(pool, x)), t)
  {
    var held := Only(mine, Inside(w, pool));
    assert held + [] == held;
    HandsHave(w, pool, x, mine, if w.stage == 1 then stream else [], t);
  }

  lemma QueuedInOrder(c: Config, s: State, j: nat, x: int, r: nat, mine: Tuple -> bool, t: seq<Tuple>)
    requires c.Valid() && Inv(c, s) && InOrder(s, r, mine, t) && j < 4 && x in s.q[j]
    ensures Within(Only(mine, At(s.pool, x)), t)
  {
    if j == 0 {
      assert At(s.pool, x) == [];
    } else if j == 1 {
      QueueHas(s.pool, s.q[1], x, mine, Only(mine, Inside(s.th[r], s.pool)), t);
    }
  }

  /** Whatever the numbers of threads, a buffer has the tuples of a reader in the order in which the reader was given them,
      as far as it has them. */
  lemma BuffersInOrder(c: Config, input: seq<seq<Tuple>>, run: seq<Event>, r: nat, mine: Tuple -> bool, x: nat)
    requires c.Valid() && !c.roles[2].Repack? && r < c.n[0] && OnlyFrom(c, input, r, mine) && Exec(c, Init(c, input), run).Some?
    requires x < c.ids
    ensures Within(Only(mine, At(Exec(c, Init(c, input), run).value.pool, x)), Only(mine, Shares(c.n[0], input)[r]))
  {
    var s, t := Exec(c, Init(c, input), run).value, Only(mine, Shares(c.n[0], input)[r]);
    InvAlways(c, input, run);
    InOrderAlways(c, input, run, r, mine);
    BufferInOrder(c, s, x, r, mine, t);
  }

  lemma BufferInOrder(c: Config, s: State, x: nat, r: nat, mine: Tuple -> bool, t: seq<Tuple>)
    requires c.Valid() && Inv(c, s) && InOrder(s, r, mine, t) && x < c.ids
    ensures Within(Only(mine, At(s.pool, x)), t)
  {
    Somewhere(c, s, x);
    if k :| 0 <= k < |s.th| && (s.th[k].b == x || s.th[k].o == x) {
      HeldInOrder(c, s, k, x, r, mine, t);
    } else if j :| 0 <= j < 4 && x in s.q[j] {
      QueuedInOrder(c, s, j, x, r, mine, t);
    } else {
      assert At(s.pool, x) == [];
    }
  }

  lemma Somewhere(c: Config, s: State, x: nat)
    requires c.Valid() && Shaped(c, s) && Owned(c, s) && x < c.ids
    ensures || x in s.lost || (exists k :: 0 <= k < |s.th| && (s.th[k].b == x || s.th[k].o == x))
            || exists j :: 0 <= j < 4 && x in s.q[j]
  {
    assert Places(s, x) == 1;
    if Sum(s.lost, Is(x)) > 0 {
      CountIn(s.lost, x);
    } else if Sum(s.th, HeldWeight(Is(x))) > 0 {
      var k := SumWitness(s.th, HeldWeight(Is(x)));
    } else {
      var j := SumWitness(s.q, QueueWeight(Is(x)));
      CountIn(s.q[j], x);
    }
  }
}
