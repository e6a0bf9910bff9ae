/** The invariant of every run, and what it says about a state in which no thread can move. */
module PipelineProgress {
  import opened Options
  import opened Sums
  import opened Pipeline
  import opened PipelineShape
  import opened PipelineOwnership
  import opened PipelineSentinels
  import opened PipelineContents

  ghost predicate Bounded(c: Config, s: State)
    requires Shaped(c, s)
  {
    forall j :: 0 <= j < 4 && c.cap[j] != 0 ==> |s.q[j]| <= c.cap[j]
  }

  ghost predicate Inv(c: Config, s: State)
    requires c.Valid()
  {
    && Shaped(c, s) && |s.pool| == c.ids
    && AllFit(c, s) && FreeIds(s) && Owned(c, s)
    && Staffed(c, s) && Link(c, s, 0) && Link(c, s, 1) && Link(c, s, 2)
    && AllTidy(s) && Bounded(c, s)
  }

  lemma InvStart(c: Config, input: seq<seq<Tuple>>)
    requires c.Valid()
    ensures Inv(c, Init(c, input))
  {
    FitStart(c, input);
    OwnedStart(c, input);
    StaffedStart(c, input);
    LinkStart(c, input, 0);
    LinkStart(c, input, 1);
    LinkStart(c, input, 2);
    TidyStart(c, input);
  }

  lemma InvStep(c: Config, s: State, i: nat, ch: Choice)
    requires c.Valid() && Inv(c, s) && i < |s.th| && Step(c, s, i, ch).Some?
    ensures Inv(c, Step(c, s, i, ch).value)
    ensures Tuples(Step(c, s, i, ch).value) == Tuples(s)
  {
    var p := PlanOf(c, s, s.th[i], ch);
    StepReady(c, s, i, ch);
    HeldApart(c, s, i);
    PlanConserves(c, s, s.th[i], ch);
    FitApply(c, s, i, p);
    OwnedStep(c, s, i, p);
    StaffedStep(c, s, i, p);
    LinkStep(c, s, i, ch, 0);
    LinkStep(c, s, i, ch, 1);
    LinkStep(c, s, i, ch, 2);
    TidyStep(c, s, i, p);
    TuplesStep(c, s, i, p);
    BoundedStep(c, s, i, p);
  }

  lemma BoundedStep(c: Config, s: State, i: nat, p: Plan)
    requires c.Valid() && Ready(c, s, i, p) && Bounded(c, s)
    ensures Bounded(c, Apply(c, s, i, p).value)
  {
  }

  /** The invariant and the conservation of tuples, over every run. */
  lemma {:induction false} InvAlways(c: Config, input: seq<seq<Tuple>>, run: seq<Event>)
    requires c.Valid() && Exec(c, Init(c, input), run).Some?
    ensures Inv(c, Exec(c, Init(c, input), run).value)
    ensures Tuples(Exec(c, Init(c, input), run).value) == Tuples(Init(c, input))
  {
    if run == [] {
      InvStart(c, input);
    } else {
      var e := run[|run| - 1];
      InvAlways(c, input, run[..|run| - 1]);
      InvStep(c, Exec(c, Init(c, input), run[..|run| - 1]).value, e.thread, e.ch);
    }
  }

  // ---- Exclusive ownership and sentinels, as statements about runs ----

  /** In every reachable state the registers of different threads, and the queues, name different
      buffers. */
  lemma ExclusiveOwnership(c: Config, input: seq<seq<Tuple>>, run: seq<Event>, i: nat, x: int)
    requires c.Valid() && Exec(c, Init(c, input), run).Some?
    requires i < |Exec(c, Init(c, input), run).value.th| && x != END
    requires Holds(Exec(c, Init(c, input), run).value.th[i], x)
    ensures var s := Exec(c, Init(c, input), run).value;
            && 0 <= x < c.ids && s.th[i].b != s.th[i].o
            && (forall k :: 0 <= k < |s.th| && k != i ==> !Holds(s.th[k], x))
            && (forall j :: 0 <= j < 4 ==> x !in s.q[j])
  {
    InvAlways(c, input, run);
    NoSharing(c, Exec(c, Init(c, input), run).value, i, x);
  }

  /** A worker of stage `l + 1` that has popped an end marker finds its queue free of data, and every
      worker of stage `l` counted: nothing more will come. */
  lemma EndMeansDrained(c: Config, s: State, l: nat, i: nat)
    requires c.Valid() && Inv(c, s) && l < 3
    requires i < |s.th| && s.th[i].stage == l + 1 && Ended(s.th[i].pc)
    ensures NoData(s.q[l + 1])
    ensures s.count[l] == c.n[l]
    ensures forall k :: 0 <= k < |s.th| && s.th[k].stage == l ==> Counted(s.th[k].pc)
  {
    assert Link(c, s, l);
    EndedMeansFull(c, s, l, i);
    AllCounted(c, s, l);
  }

  lemma EndedMeansFull(c: Config, s: State, l: nat, i: nat)
    requires c.Valid() && Shaped(c, s) && l < 3 && Link(c, s, l) && i < |s.th| && s.th[i].stage == l + 1 && Ended(s.th[i].pc)
    ensures NoData(s.q[l + 1]) && s.count[l] == c.n[l]
  {
    SumPositive(s.th, EndedAt(l + 1), i);
    var k := SumWitness(s.th, DueAt(l, c.n[l + 1]));
    SumPositive(s.th, IssuedAt(l), k);
  }

  /** In every reachable state no data stands behind an end marker, and a worker that has popped one
      will never again find data. */
  lemma MarkersFollowData(c: Config, input: seq<seq<Tuple>>, run: seq<Event>, l: nat)
    requires c.Valid() && Exec(c, Init(c, input), run).Some? && l < 3
    ensures var s := Exec(c, Init(c, input), run).value;
            && Ordered(s.q[l + 1])
            && forall i :: 0 <= i < |s.th| && s.th[i].stage == l + 1 && Ended(s.th[i].pc) ==>
                 && NoData(s.q[l + 1])
                 && forall k :: 0 <= k < |s.th| && s.th[k].stage == l ==> Counted(s.th[k].pc)
  {
    InvAlways(c, input, run);
    MarkersInOrder(c, Exec(c, Init(c, input), run).value, l);
  }

  lemma MarkersInOrder(c: Config, s: State, l: nat)
    requires c.Valid() && Inv(c, s) && l < 3
    ensures Ordered(s.q[l + 1])
    ensures forall i :: 0 <= i < |s.th| && s.th[i].stage == l + 1 && Ended(s.th[i].pc) ==>
              && NoData(s.q[l + 1])
              && forall k :: 0 <= k < |s.th| && s.th[k].stage == l ==> Counted(s.th[k].pc)
  {
    assert Link(c, s, l);
    forall i | 0 <= i < |s.th| && s.th[i].stage == l + 1 && Ended(s.th[i].pc)
      ensures NoData(s.q[l + 1]) && forall k :: 0 <= k < |s.th| && s.th[k].stage == l ==> Counted(s.th[k].pc)
    {
      EndMeansDrained(c, s, l, i);
    }
  }

  /** When a whole stage has returned, at least one round of end markers was issued: one for each
      worker of the next stage is queued or has been popped. */
  lemma FullRoundIssued(c: Config, input: seq<seq<Tuple>>, run: seq<Event>, l: nat)
    requires c.Valid() && Exec(c, Init(c, input), run).Some? && l < 3
    requires Returned(Exec(c, Init(c, input), run).value, l)
    ensures var s := Exec(c, Init(c, input), run).value;
            Sum(s.q[l + 1], Is(END)) + Sum(s.th, EndedAt(l + 1)) >= c.n[l + 1]
  {
    InvAlways(c, input, run);
    RoundOf(c, Exec(c, Init(c, input), run).value, l);
  }

  lemma RoundOf(c: Config, s: State, l: nat)
    requires c.Valid() && Inv(c, s) && l < 3 && Returned(s, l)
    ensures Sum(s.q[l + 1], Is(END)) + Sum(s.th, EndedAt(l + 1)) >= c.n[l + 1]
  {
    assert Link(c, s, l);
    RoundIssued(c, s, l);
  }

  lemma RoundIssued(c: Config, s: State, l: nat)
    requires c.Valid() && Shaped(c, s) && Staffed(c, s) && l < 3 && Tally(c, s, l) && Returned(s, l)
    ensures Sum(s.q[l + 1], Is(END)) + Sum(s.th, EndedAt(l + 1)) >= c.n[l + 1]
  {
    SumSame(s.th, CountedAt(l), InStage(l));
    assert Sum(s.th, InStage(l)) == c.n[l];
    SumConst(s.th, TestingAt(l), 0);
    SumConst(s.th, OwedAt(l), 0);
    var k := SumWitness(s.th, IssuedAt(l));
    SumPositive(s.th, DueAt(l, c.n[l + 1]), k);
  }

  lemma AllCounted(c: Config, s: State, l: nat)
    requires c.Valid() && Inv(c, s) && l < 3 && s.count[l] == c.n[l]
    ensures forall k :: 0 <= k < |s.th| && s.th[k].stage == l ==> Counted(s.th[k].pc)
  {
    assert Link(c, s, l);
    SumAtMost(s.th, CountedAt(l), InStage(l));
    forall k | 0 <= k < |s.th| && s.th[k].stage == l
      ensures Counted(s.th[k].pc)
    {
      assert CountedAt(l)(s.th[k]) == InStage(l)(s.th[k]);
    }
  }

  // ---- Stuck states ----

  predicate Finished(pc: Pc) {
    pc.Done? || pc.DoneSent? || pc.Undef?
  }

  lemma SourceGoesOn(keepsLast: bool, w: Worker, pool: Pool)
    requires Legal(Source(keepsLast), w.pc) && !Ending(w.pc)
    ensures !PlanSource(keepsLast, w, A, pool).Halt?
  {
  }

  /** A thread that has not returned always has something to do next. */
  lemma PlansOn(c: Config, s: State, w: Worker)
    requires c.Valid() && |s.count| == 4 && w.stage < 4 && Fits(c.roles[w.stage], w) && !Finished(w.pc)
    ensures !PlanOf(c, s, w, A).Halt?
  {
    if w.stage == 0 && !Ending(w.pc) {
      SourceGoesOn(c.roles[0].keepsLast, w, s.pool);
    }
  }

  ghost predicate Blocked(c: Config, s: State, w: Worker)
    requires Shaped(c, s) && w.stage < 4
  {
    || (Receives(w.pc) && s.q[if Stops(w.pc) then w.stage else 0] == [])
    || ((GivesData(w.pc) || w.pc.Sent?) && w.stage < 3 && !HasSpace(c, s, w.stage + 1))
  }

  /** A thread that cannot move has returned or waits for a queue. */
  lemma HaltMeansBlocked(c: Config, s: State, i: nat)
    requires c.Valid() && Inv(c, s) && i < |s.th| && Step(c, s, i, A) == None
    ensures Finished(s.th[i].pc) || Blocked(c, s, s.th[i])
  {
    var w := s.th[i];
    if !Finished(w.pc) {
      PlansOn(c, s, w);
      PlanSound(c, s, w, A);
      SinkGives(c, w);
    }
  }

  lemma StuckMeansBlocked(c: Config, s: State, i: nat)
    requires c.Valid() && Inv(c, s) && Stuck(c, s) && i < |s.th|
    ensures Finished(s.th[i].pc) || Blocked(c, s, s.th[i])
  {
    assert Step(c, s, i, A) == None;
    HaltMeansBlocked(c, s, i);
  }

  lemma SinkGives(c: Config, w: Worker)
    requires c.Valid() && w.stage < 4 && Fits(c.roles[w.stage], w)
    ensures GivesData(w.pc) || w.pc.Sent? ==> w.stage < 3
  {
  }

  /** When a whole stage has returned and left no end marker unread, the next stage has ended. */
  lemma DownstreamEnds(c: Config, s: State, l: nat, i: nat)
    requires c.Valid() && Inv(c, s) && l < 3 && s.q[l + 1] == [] && Returned(s, l)
    requires i < |s.th| && s.th[i].stage == l + 1
    ensures Ended(s.th[i].pc)
  {
    RoundOf(c, s, l);
    SumAtMost(s.th, EndedAt(l + 1), InStage(l + 1));
    assert Sum(s.th, InStage(l + 1)) == c.n[l + 1];
    assert EndedAt(l + 1)(s.th[i]) == InStage(l + 1)(s.th[i]);
  }

  /** A thread that waits for a queue, has returned, or is held back at a point where it holds no more
      buffers than it does when it waits. */
  ghost predicate Still(c: Config, s: State, w: Worker)
    requires Shaped(c, s) && w.stage < 4
  {
    Blocked(c, s, w) || Finished(w.pc) || w.pc.Test? || w.pc.SrcFill? || w.pc.RpNext?
  }

  /** How many buffers a thread of the second stage may hold while the last queue is empty and it cannot
      move: one when its own output queue is empty, too. */
  function SecondBound(c: Config): nat
    requires |c.roles| == 4
  {
    if c.roles[1].Forward? || c.roles[2].Forward? then 1 else 2
  }

  /** The queues that are empty when the last stage waits: its own, and those of the stages before it that
      only forward and wait as well. */
  ghost predicate Emptied(c: Config, s: State)
    requires Shaped(c, s)
  {
    s.q[3] == [] && (c.roles[2].Forward? ==> s.q[2] == [] && (c.roles[1].Forward? ==> s.q[1] == []))
  }

  function Bound(m: nat): Worker -> nat {
    (w: Worker) => if w.stage == 0 then 1 else if w.stage == 1 then m else if w.stage == 2 then 1 else 0
  }

  lemma {:induction false} BoundTotal(th: seq<Worker>, m: nat)
    requires m == 1 || m == 2
    ensures Sum(th, Bound(m)) == Sum(th, InStage(0)) + m * Sum(th, InStage(1)) + Sum(th, InStage(2))
  {
    if th != [] {
      BoundTotal(th[..|th| - 1], m);
    }
  }

  lemma OneRegister(c: Config, w: Worker)
    requires c.Valid() && w.stage < 4 && Fits(c.roles[w.stage], w)
    requires Receives(w.pc) || w.pc.SrcFill? || c.roles[w.stage].Source? || c.roles[w.stage].Forward? || Ending(w.pc)
    ensures w.b == END || w.o == END
  {
  }

  lemma HeldWithin(c: Config, s: State, w: Worker)
    requires c.Valid() && Shaped(c, s) && w.stage < 4 && Fits(c.roles[w.stage], w) && Still(c, s, w)
    requires Emptied(c, s)
    ensures HeldWeight(One())(w) <= Bound(SecondBound(c))(w)
  {
    if w.stage == 3 {
      assert w.b == END && w.o == END;
    } else if w.stage != 1 || SecondBound(c) == 1 {
      OneRegister(c, w);
    }
  }

  lemma SumFour<T>(s: seq<T>, f: T -> nat)
    requires |s| == 4
    ensures Sum(s, f) == f(s[0]) + f(s[1]) + f(s[2]) + f(s[3])
  {
    var s3, s2, s1 := s[..3], s[..2], s[..1];
    assert s3[..2] == s2 && s2[..1] == s1 && s1[..0] == [];
    assert Sum(s1, f) == f(s[0]);
    assert Sum(s2, f) == Sum(s1, f) + f(s[1]);
    assert Sum(s3, f) == Sum(s2, f) + f(s[2]);
  }

  lemma QueuesWithin(c: Config, s: State)
    requires c.Valid() && Shaped(c, s) && Bounded(c, s) && Emptied(c, s) && Bounding(c)
    ensures Sum(s.q, QueueWeight(One())) <= |s.q[0]| + Queued(c)
  {
    SumFour(s.q, QueueWeight(One()));
    Short(s.q[0]);
    Short(s.q[1]);
    Short(s.q[2]);
  }

  lemma {:induction false} Short(q: seq<int>)
    ensures Sum(q, One()) <= |q|
  {
    if q != [] {
      Short(q[..|q| - 1]);
    }
  }

  /** How many buffers the threads may hold then. */
  function Hands(c: Config): nat
    requires c.Valid()
  {
    c.n[0] + (if SecondBound(c) == 1 then c.n[1] else 2 * c.n[1]) + c.n[2]
  }

  /** How many ids can be in the first two data queues then. */
  function Queued(c: Config): nat
    requires c.Valid()
  {
    if !c.roles[2].Forward? then c.cap[1] + c.cap[2]
    else if !c.roles[1].Forward? then c.cap[1]
    else 0
  }

  /** Those queues are bounded; capacity 0 means that they are not. */
  predicate Bounding(c: Config)
    requires |c.roles| == |c.cap| == 4
  {
    if c.roles[2].Forward? then c.roles[1].Forward? || c.cap[1] >= 1 else c.cap[1] >= 1 && c.cap[2] >= 1
  }

  /** How many ids can be stuck in the first two data queues and with the threads of the first three stages.
      A stage that only forwards takes no free buffers: when the queue behind it is empty and it waits, its
      input queue is empty, too. */
  function Holdable(c: Config): nat
    requires c.Valid()
  {
    Queued(c) + Hands(c)
  }

  /** Enough ids for the pipeline never to run dry: more than can be stuck or lost. */
  ghost predicate Roomy(c: Config, s: State)
    requires c.Valid()
  {
    Bounding(c) && Holdable(c) + |s.lost| < c.ids
  }

  /** The counting argument: with the last queue empty and no thread moving, an empty free queue
      would mean that more buffers are held and queued than can be. */
  lemma FreeNotEmpty(c: Config, s: State)
    requires c.Valid() && Inv(c, s) && Roomy(c, s) && Emptied(c, s)
    requires forall k :: 0 <= k < |s.th| ==> Still(c, s, s.th[k])
    ensures s.q[0] != []
  {
    HandsWithin(c, s);
    IdsRemain(c, s);
  }

  lemma IdsRemain(c: Config, s: State)
    requires c.Valid() && Shaped(c, s) && Bounded(c, s) && Roomy(c, s) && Emptied(c, s)
    requires Weigh(s, One()) == c.ids && Sum(s.th, HeldWeight(One())) <= Hands(c)
    ensures s.q[0] != []
  {
    QueuesWithin(c, s);
    Short(s.lost);
  }

  lemma HandsWithin(c: Config, s: State)
    requires c.Valid() && Inv(c, s) && Roomy(c, s) && Emptied(c, s)
    requires forall k :: 0 <= k < |s.th| ==> Still(c, s, s.th[k])
    ensures Sum(s.th, HeldWeight(One())) <= Hands(c)
  {
    var m := SecondBound(c);
    forall k | 0 <= k < |s.th|
      ensures HeldWeight(One())(s.th[k]) <= Bound(m)(s.th[k])
    {
      HeldWithin(c, s, s.th[k]);
    }
    SumAtMost(s.th, HeldWeight(One()), Bound(m));
    BoundTotal(s.th, m);
    assert Sum(s.th, InStage(0)) == c.n[0] && Sum(s.th, InStage(1)) == c.n[1] && Sum(s.th, InStage(2)) == c.n[2];
  }

  ghost predicate NoUndef(s: State) {
    forall k :: 0 <= k < |s.th| ==> !s.th[k].pc.Undef?
  }

  ghost predicate Returned(s: State, l: nat) {
    forall k :: 0 <= k < |s.th| && s.th[k].stage == l ==> s.th[k].pc.Done? || s.th[k].pc.DoneSent?
  }

  /** The threads up to stage `l` have returned or wait. */
  ghost predicate Halted(c: Config, s: State, l: nat)
    requires Shaped(c, s)
  {
    forall k :: 0 <= k < |s.th| && s.th[k].stage <= l < 4 ==> Finished(s.th[k].pc) || Blocked(c, s, s.th[k])
  }

  /** With free buffers left, or threads that do not want any, and the queue out of stage `l` empty while its
      reader waits, stage `l` cannot have returned, so one of its threads waits in turn at an empty queue. */
  lemma WaitsUpstream(c: Config, s: State, l: nat, i: nat) returns (k: nat)
    requires c.Valid() && Inv(c, s) && l < 3 && Halted(c, s, l) && NoUndef(s) && Roomy(c, s)
    requires (s.q[0] != [] || c.roles[l].Forward?) && s.q[l + 1] == []
    requires i < |s.th| && s.th[i].stage == l + 1 && Stops(s.th[i].pc)
    ensures k < |s.th| && s.th[k].stage == l && Stops(s.th[k].pc) && l > 0 && s.q[l] == []
  {
    k := SomeoneOut(c, s, l, i);
    assert Blocked(c, s, s.th[k]);
    WaitsForInput(c, s, s.th[k], l);
  }

  lemma SomeoneOut(c: Config, s: State, l: nat, i: nat) returns (k: nat)
    requires c.Valid() && Inv(c, s) && l < 3 && s.q[l + 1] == [] && i < |s.th| && s.th[i].stage == l + 1 && Stops(s.th[i].pc)
    ensures k < |s.th| && s.th[k].stage == l && !s.th[k].pc.Done? && !s.th[k].pc.DoneSent?
  {
    if Returned(s, l) {
      DownstreamEnds(c, s, l, i);
      assert false;
    }
    k :| 0 <= k < |s.th| && s.th[k].stage == l && !s.th[k].pc.Done? && !s.th[k].pc.DoneSent?;
  }

  /** A thread that waits with room ahead, and wants no free buffer or could have one, waits for input. */
  lemma WaitsForInput(c: Config, s: State, w: Worker, l: nat)
    requires c.Valid() && Shaped(c, s) && w.stage == l < 4 && Fits(c.roles[l], w) && Blocked(c, s, w)
    requires l < 3 ==> s.q[l + 1] == []
    requires s.q[0] != [] || c.roles[l].Forward? || l == 3
    ensures Stops(w.pc) && l > 0 && s.q[l] == []
  {
  }

  lemma SinkBlocked(c: Config, s: State, i: nat)
    requires c.Valid() && Inv(c, s) && Stuck(c, s) && i < |s.th| && s.th[i].stage == 3
    ensures s.th[i].pc.Done? || (s.th[i].pc.Idle? && s.q[3] == [])
  {
    StuckMeansBlocked(c, s, i);
  }

  lemma AllHalted(c: Config, s: State)
    requires c.Valid() && Inv(c, s) && Stuck(c, s)
    ensures Halted(c, s, 2) && forall k :: 0 <= k < |s.th| ==> Still(c, s, s.th[k])
  {
    forall k | 0 <= k < |s.th|
      ensures Finished(s.th[k].pc) || Blocked(c, s, s.th[k])
    {
      StuckMeansBlocked(c, s, k);
    }
  }

  /** Deadlock-freedom: in a stuck state every thread of the last stage has returned. */
  lemma StuckMeansSinksDone(c: Config, s: State, i: nat)
    requires c.Valid() && Inv(c, s) && Stuck(c, s) && NoUndef(s) && Roomy(c, s)
    requires i < |s.th| && s.th[i].stage == 3
    ensures s.th[i].pc.Done?
  {
    SinkBlocked(c, s, i);
    if !s.th[i].pc.Done? {
      AllHalted(c, s);
      NoneWaits(c, s, i);
    }
  }

  lemma NoneWaits(c: Config, s: State, i: nat)
    requires c.Valid() && Inv(c, s) && NoUndef(s) && Roomy(c, s) && Halted(c, s, 2) && s.q[3] == []
    requires forall k :: 0 <= k < |s.th| ==> Still(c, s, s.th[k])
    requires i < |s.th| && s.th[i].stage == 3 && s.th[i].pc.Idle?
    ensures false
  {
    ForwardersWait(c, s, i);
    FreeNotEmpty(c, s);
    var k2 := WaitsUpstream(c, s, 2, i);
    NoneWaitsBefore(c, s, 2, k2);
  }

  lemma ForwardersWait(c: Config, s: State, i: nat)
    requires c.Valid() && Inv(c, s) && NoUndef(s) && Roomy(c, s) && Halted(c, s, 2) && s.q[3] == []
    requires i < |s.th| && s.th[i].stage == 3 && Stops(s.th[i].pc)
    ensures Emptied(c, s)
  {
    if c.roles[2].Forward? {
      var k := WaitsUpstream(c, s, 2, i);
      if c.roles[1].Forward? {
        var k' := WaitsUpstream(c, s, 1, k);
      }
    }
  }

  lemma {:induction false} NoneWaitsBefore(c: Config, s: State, l: nat, k: nat)
    requires c.Valid() && Inv(c, s) && NoUndef(s) && Roomy(c, s) && 1 <= l < 4 && Halted(c, s, l - 1) && s.q[0] != [] && s.q[l] == []
    requires k < |s.th| && s.th[k].stage == l && Stops(s.th[k].pc)
    ensures false
  {
    var k' := WaitsUpstream(c, s, l - 1, k);
    NoneWaitsBefore(c, s, l - 1, k');
  }
}
