/** Whether every thread returns, so that the joins of the main thread come back.

    Each thread of a stage that sees the full count pushes a whole round of end markers, but the next
    stage pops only one round.  With spare room in the queues for the surplus all threads return;
    without it, the reader threads can block for ever on markers nobody will pop. */
module PipelineJoin {
  import opened Options
  import opened Sums
  import opened Pipeline
  import opened PipelineShape
  import opened PipelineOwnership
  import opened PipelineSentinels
  import opened PipelineProgress
  import opened PipelineDelivery

  /** Room for the surplus rounds of stage `l`. */
  ghost predicate Spare(c: Config, l: nat)
    requires c.Valid() && l < 3
  {
    c.cap[l + 1] == 0 || (c.n[l] - 1) * c.n[l + 1] <= c.cap[l + 1]
  }

  lemma {:induction false} DueAtMost(th: seq<Worker>, l: nat, d: nat)
    ensures Sum(th, DueAt(l, d)) == d * Sum(th, IssuedAt(l))
    ensures Sum(th, IssuedAt(l)) <= Sum(th, InStage(l))
  {
    if th != [] {
      var n := |th| - 1;
      DueAtMost(th[..n], l, d);
      assert d * (Sum(th[..n], IssuedAt(l)) + 1) == d * Sum(th[..n], IssuedAt(l)) + d;
    }
  }

  lemma OnlyMarkers(q: seq<int>)
    requires NoData(q)
    ensures Sum(q, Is(END)) == |q|
  {
    SumConst(q, Is(END), 1);
  }

  lemma AtMostAll(d: nat, k: nat, n: nat)
    requires k <= n && 1 <= n
    ensures d * k <= (n - 1) * d + d
  {
    assert d * k <= d * n;
  }

  /** In a stuck, drained state with spare room no worker of stage `l` still owes an end marker. */
  lemma SpareMeansReturned(c: Config, s: State, l: nat, i: nat)
    requires c.Valid() && Inv(c, s) && Stuck(c, s) && SinksDone(s) && Drained(s)
    requires l < 3 && Spare(c, l) && i < |s.th| && s.th[i].stage == l
    ensures s.th[i].pc.Done? || s.th[i].pc.DoneSent?
  {
    StuckMeansBlocked(c, s, i);
    if s.th[i].pc.Sent? {
      OwesSome(c, s, i);
      NextEnded(c, s, l);
      RoomForMarkers(c, s, l, i);
    }
  }

  lemma NextEnded(c: Config, s: State, l: nat)
    requires c.Valid() && Staffed(c, s) && Shaped(c, s) && SinksDone(s) && Drained(s) && l < 3
    requires forall k :: 0 <= k < |s.th| ==> s.th[k].stage < 4
    ensures Sum(s.th, EndedAt(l + 1)) == c.n[l + 1]
  {
    SumSame(s.th, EndedAt(l + 1), InStage(l + 1));
    assert Sum(s.th, InStage(l + 1)) == c.n[l + 1];
  }

  /** Only the markers of the surplus rounds are left, and one of them is not in the queue. */
  lemma RoomForMarkers(c: Config, s: State, l: nat, i: nat)
    requires c.Valid() && Shaped(c, s) && Staffed(c, s) && l < 3 && Spare(c, l) && Tally(c, s, l) && NoData(s.q[l + 1])
    requires Sum(s.th, EndedAt(l + 1)) == c.n[l + 1] && i < |s.th| && s.th[i].stage == l && s.th[i].pc.Sent? && s.th[i].k > 0
    ensures HasSpace(c, s, l + 1)
  {
    assert Sum(s.th, InStage(l)) == c.n[l];
    DueAtMost(s.th, l, c.n[l + 1]);
    AtMostAll(c.n[l + 1], Sum(s.th, IssuedAt(l)), c.n[l]);
    OnlyMarkers(s.q[l + 1]);
    SumPositive(s.th, OwedAt(l), i);
  }

  lemma OwesSome(c: Config, s: State, i: nat)
    requires c.Valid() && Inv(c, s) && Stuck(c, s) && i < |s.th| && s.th[i].pc.Sent?
    ensures s.th[i].k > 0
  {
    assert Step(c, s, i, A) == None;
  }

  lemma StuckMeansReturned(c: Config, s: State, i: nat)
    requires c.Valid() && Inv(c, s) && Stuck(c, s) && SinksDone(s) && Drained(s) && i < |s.th|
    requires Spare(c, 0) && Spare(c, 1) && Spare(c, 2)
    ensures s.th[i].pc.Done? || s.th[i].pc.DoneSent?
  {
    if s.th[i].stage < 3 {
      SpareMeansReturned(c, s, s.th[i].stage, i);
    }
  }

  /** With spare room for the surplus rounds of every stage, a run that cannot be continued has
      brought every thread to its end. */
  lemma AllThreadsReturn(c: Config, input: seq<seq<Tuple>>, run: seq<Event>, i: nat)
    requires c.Valid() && Exec(c, Init(c, input), run).Some?
    requires var s := Exec(c, Init(c, input), run).value;
             Stuck(c, s) && NoUndef(s) && Roomy(c, s) && i < |s.th|
    requires Spare(c, 0) && Spare(c, 1) && Spare(c, 2)
    ensures var pc := Exec(c, Init(c, input), run).value.th[i].pc;
            pc.Done? || pc.DoneSent?
  {
    InvAlways(c, input, run);
    StuckMeansDelivered(c, input, run);
    StuckMeansReturned(c, Exec(c, Init(c, input), run).value, i);
  }

  // ---- Without spare room ----

  function QuietAt(l: nat): Worker -> nat {
    (w: Worker) => if w.stage == l && w.pc.Done? then 1 else 0
  }

  /** Every worker of stage `l` has incremented the counter and none has seen it short: the last
      increment came before the first comparison. */
  ghost predicate Raced(c: Config, s: State, l: nat)
    requires c.Valid() && l < 3 && Shaped(c, s)
  {
    s.count[l] == c.n[l] && Sum(s.th, QuietAt(l)) == 0
  }

  lemma RacedStep(c: Config, s: State, i: nat, ch: Choice, l: nat)
    requires c.Valid() && Inv(c, s) && l < 3 && Raced(c, s, l) && i < |s.th| && Step(c, s, i, ch).Some?
    ensures Raced(c, Step(c, s, i, ch).value, l)
  {
    var w, p := s.th[i], PlanOf(c, s, s.th[i], ch);
    var s' := Step(c, s, i, ch).value;
    StepReady(c, s, i, ch);
    FitApply(c, s, i, p);
    AllCounted(c, s, l);
    SumUpdate(s.th, i, s'.th[i], QuietAt(l));
    if w.stage == l {
      assert Counted(w.pc);
      assert p == PlanEnd(c.n[l + 1], true, w, s.pool);
    }
  }

  lemma {:induction false} RacedAlong(c: Config, input: seq<seq<Tuple>>, run: seq<Event>, more: seq<Event>, l: nat)
    requires c.Valid() && l < 3 && Exec(c, Init(c, input), run + more).Some?
    requires Exec(c, Init(c, input), run).Some? && Raced(c, Exec(c, Init(c, input), run).value, l)
    ensures Raced(c, Exec(c, Init(c, input), run + more).value, l)
  {
    if more == [] {
      assert run + more == run;
    } else {
      var n := |more| - 1;
      assert (run + more)[..|run + more| - 1] == run + more[..n];
      RacedAlong(c, input, run, more[..n], l);
      InvAlways(c, input, run + more[..n]);
      RacedStep(c, Exec(c, Init(c, input), run + more[..n]).value, more[n].thread, more[n].ch, l);
    }
  }

  lemma RacedMeansAllIssued(c: Config, s: State, l: nat)
    requires c.Valid() && Inv(c, s) && l < 3 && Raced(c, s, l) && Stuck(c, s)
    ensures Sum(s.th, IssuedAt(l)) == c.n[l]
  {
    AllCounted(c, s, l);
    forall k | 0 <= k < |s.th|
      ensures IssuedAt(l)(s.th[k]) == InStage(l)(s.th[k])
    {
      if s.th[k].stage == l {
        SumPositive(s.th, QuietAt(l), k);
        PastTest(c, s, k);
      }
    }
    SumSame(s.th, IssuedAt(l), InStage(l));
    assert Sum(s.th, InStage(l)) == c.n[l];
  }

  lemma PastTest(c: Config, s: State, k: nat)
    requires c.Valid() && Inv(c, s) && Stuck(c, s) && k < |s.th| && Counted(s.th[k].pc)
    ensures !s.th[k].pc.Test?
  {
    StuckMeansBlocked(c, s, k);
  }

  /** A stuck state after a race without spare room: someone still owes end markers. */
  lemma SurplusBlocks(c: Config, s: State, l: nat)
    requires c.Valid() && Shaped(c, s) && l < 3 && Tally(c, s, l) && |s.q[l + 1]| <= c.cap[l + 1] && !Spare(c, l)
    requires Sum(s.th, IssuedAt(l)) == c.n[l] && Sum(s.th, InStage(l + 1)) == c.n[l + 1]
    ensures Sum(s.th, OwedAt(l)) > 0
  {
    DueAtMost(s.th, l, c.n[l + 1]);
    SumAtMost(s.th, EndedAt(l + 1), InStage(l + 1));
    MarkersWithin(s.q[l + 1]);
    AllRounds(c.n[l], c.n[l + 1]);
  }

  lemma AllRounds(n: nat, d: nat)
    ensures d * n == (n - 1) * d + d
  {
  }

  lemma RoomAhead(c: Config, s: State, l: nat)
    requires c.Valid() && Inv(c, s) && l < 3 && c.cap[l + 1] >= 1
    ensures Tally(c, s, l) && |s.q[l + 1]| <= c.cap[l + 1] && Sum(s.th, InStage(l + 1)) == c.n[l + 1]
  {
    assert Link(c, s, l);
  }

  /** Once all threads of a stage have incremented the counter before any of them compared it, and
      the surplus rounds do not fit the queue, no continuation lets all of them return. */
  lemma RaceHangs(c: Config, input: seq<seq<Tuple>>, run: seq<Event>, more: seq<Event>, l: nat) returns (i: nat)
    requires c.Valid() && l < 3 && !Spare(c, l)
    requires Exec(c, Init(c, input), run).Some? && Raced(c, Exec(c, Init(c, input), run).value, l)
    requires Exec(c, Init(c, input), run + more).Some? && Stuck(c, Exec(c, Init(c, input), run + more).value)
    ensures var s := Exec(c, Init(c, input), run + more).value;
            i < |s.th| && s.th[i].stage == l && s.th[i].pc.Sent?
  {
    var s := Exec(c, Init(c, input), run + more).value;
    RacedAlong(c, input, run, more, l);
    InvAlways(c, input, run + more);
    RacedMeansAllIssued(c, s, l);
    RoomAhead(c, s, l);
    SurplusBlocks(c, s, l);
    i := SumWitness(s.th, OwedAt(l));
  }

  lemma {:induction false} MarkersWithin(q: seq<int>)
    ensures Sum(q, Is(END)) <= |q|
  {
    if q != [] {
      MarkersWithin(q[..|q| - 1]);
    }
  }
}
