/** When exactly every thread returns: spare room for the surplus end markers of every stage is not only
    sufficient but necessary.

    For a stage without it a run is found in which all its threads increment the counter before any of them
    compares it.  Again the run is not written down.  Any schedule will do that holds the threads of the stage
    back at the comparison; where it ends, all of them stand there.  Before that, every deserializer is
    brought past its first pop, so that none of them uses an end marker as a buffer. */
module PipelineHang {
  import opened Options
  import opened Sums
  import opened Pipeline
  import opened PipelineShape
  import opened PipelineSentinels
  import opened PipelineProgress
  import opened PipelineDelivery
  import opened PipelineTermination
  import opened PipelineFilled
  import opened PipelineJoin
  import opened PipelineRuns

  /** The pipelines of server and client: enough ids, room in the queues, and no way to lose a buffer. */
  ghost predicate Sturdy(c: Config) {
    && c.Valid() && Bounding(c) && Holdable(c) < c.ids
    && (Unexpanding(c) || Receiving(c)) && !c.roles[2].Repack? && (c.roles[1].Repack? ==> c.roles[0] == Source(false))
  }

  lemma SturdyIsRoomy(c: Config, input: seq<seq<Tuple>>, run: seq<Event>)
    requires Sturdy(c) && Exec(c, Init(c, input), run).Some?
    ensures Roomy(c, Exec(c, Init(c, input), run).value)
  {
    if Receiving(c) {
      NothingLost(c, input, run);
    } else {
      NothingDropped(c, input, run);
    }
  }

  // ---- Past the first pop ----

  predicate Fresh(w: Worker) {
    w.pc.RpInit? || w.pc.RpFirst? || w.pc.Undef?
  }

  /** No deserializer is before or at its first pop, or has gone wrong there. */
  ghost predicate Begun(s: State) {
    forall k :: 0 <= k < |s.th| ==> !Fresh(s.th[k])
  }

  lemma ReceiveNotFresh(role: Role, w: Worker, x: int, pool: Pool)
    requires !Fresh(w)
    ensures !Fresh(Receive(role, w, x, pool))
  {
  }

  lemma RepackNotFresh(tpb: nat, w: Worker, pool: Pool)
    requires !Fresh(w)
    ensures var p := PlanRepack(tpb, w, pool);
            p.Give? || p.Local? ==> !Fresh(p.w)
  {
  }

  lemma PlanNotFresh(c: Config, s: State, w: Worker, ch: Choice)
    requires c.Valid() && |s.count| == 4 && w.stage < 4 && !Fresh(w)
    ensures var p := PlanOf(c, s, w, ch);
            p.Give? || p.Bump? || p.Local? ==> !Fresh(p.w)
  {
    if c.roles[w.stage].Repack? && !Ending(w.pc) {
      RepackNotFresh(c.tpb, w, s.pool);
    }
  }

  lemma BegunStep(c: Config, s: State, i: nat, ch: Choice)
    requires c.Valid() && Inv(c, s) && Begun(s) && i < |s.th| && Step(c, s, i, ch).Some?
    ensures Begun(Step(c, s, i, ch).value)
  {
    var p := PlanOf(c, s, s.th[i], ch);
    PlanNotFresh(c, s, s.th[i], ch);
    if p.Take? {
      ReceiveNotFresh(c.roles[s.th[i].stage], s.th[i], s.q[p.j][0], s.pool);
    }
  }

  lemma {:induction false} BegunAlong(c: Config, s: State, run: seq<Event>)
    requires c.Valid() && Inv(c, s) && Begun(s) && Exec(c, s, run).Some?
    ensures Begun(Exec(c, s, run).value)
  {
    if run != [] {
      var e := run[|run| - 1];
      BegunAlong(c, s, run[..|run| - 1]);
      InvFrom(c, s, run[..|run| - 1]);
      BegunStep(c, Exec(c, s, run[..|run| - 1]).value, e.thread, e.ch);
    }
  }

  // ---- Nothing downstream has ended ----

  lemma NoneEndedNext(c: Config, s: State, l: nat)
    requires c.Valid() && Shaped(c, s) && l < 3 && Link(c, s, l) && Sum(s.th, IssuedAt(l)) == 0
    ensures forall k :: 0 <= k < |s.th| && s.th[k].stage == l + 1 ==> !Ended(s.th[k].pc)
  {
    DueAtMost(s.th, l, c.n[l + 1]);
    forall k | 0 <= k < |s.th| && s.th[k].stage == l + 1
      ensures !Ended(s.th[k].pc)
    {
      SumPositive(s.th, EndedAt(l + 1), k);
    }
  }

  lemma NoneIssued(s: State, l: nat)
    requires forall k :: 0 <= k < |s.th| && s.th[k].stage == l ==> !Ended(s.th[k].pc)
    ensures Sum(s.th, IssuedAt(l)) == 0
  {
    SumConst(s.th, IssuedAt(l), 0);
  }

  lemma {:induction false} NoneEndedBeyond(c: Config, s: State, l: nat)
    requires c.Valid() && Inv(c, s) && l < 3 && Sum(s.th, IssuedAt(l)) == 0
    ensures forall k :: 0 <= k < |s.th| && s.th[k].stage > l ==> !Ended(s.th[k].pc)
    decreases 3 - l
  {
    assert Link(c, s, l);
    NoneEndedNext(c, s, l);
    if l < 2 {
      NoneIssued(s, l + 1);
      NoneEndedBeyond(c, s, l + 1);
    }
  }

  /** The threads behind stage `l` wait, and none of them has ended. */
  ghost predicate Waiting(c: Config, s: State, l: nat)
    requires c.Valid() && Shaped(c, s)
  {
    forall k :: 0 <= k < |s.th| && l < s.th[k].stage < 4 ==> Blocked(c, s, s.th[k]) && !Ended(s.th[k].pc)
  }

  lemma LastQueueEmpty(c: Config, s: State)
    requires c.Valid() && Inv(c, s) && Waiting(c, s, 2)
    ensures s.q[3] == []
  {
    var k := SomeoneIn(c, s, 3);
    WaitsForInput(c, s, s.th[k], 3);
  }

  lemma {:induction false} QueuesEmpty(c: Config, s: State, l: nat)
    requires c.Valid() && Inv(c, s) && Roomy(c, s) && l < 3 && Waiting(c, s, l) && s.q[0] != []
    ensures s.q[l + 1] == []
    decreases 3 - l
  {
    if l < 2 {
      QueuesEmpty(c, s, l + 1);
    }
    var k := SomeoneIn(c, s, l + 1);
    WaitsForInput(c, s, s.th[k], l + 1);
  }

  // ---- Held back at the comparison ----

  /** Past the comparison. */
  predicate Passed(w: Worker) {
    w.pc.Sent? || w.pc.Done? || w.pc.DoneSent?
  }

  /** No thread of stage `l` has passed the comparison. */
  ghost predicate Unpassed(s: State, l: nat) {
    forall k :: 0 <= k < |s.th| && s.th[k].stage == l ==> !Passed(s.th[k])
  }

  predicate HeldBack(w: Worker, l: nat) {
    w.stage == l && w.pc.Test?
  }

  /** No thread can move but those that are held back. */
  ghost predicate Jammed(c: Config, s: State, l: nat)
    requires Shaped(c, s)
  {
    forall i, ch :: 0 <= i < |s.th| && !HeldBack(s.th[i], l) ==> Step(c, s, i, ch) == None
  }

  lemma UnpassedStep(c: Config, s: State, i: nat, ch: Choice, l: nat)
    requires c.Valid() && Inv(c, s) && l < 3 && Unpassed(s, l) && i < |s.th| && !HeldBack(s.th[i], l) && Step(c, s, i, ch).Some?
    ensures Unpassed(Step(c, s, i, ch).value, l)
  {
    var p := PlanOf(c, s, s.th[i], ch);
    StepReady(c, s, i, ch);
    FitApply(c, s, i, p);
    if s.th[i].stage == l {
      UnpassedPlan(c, s, s.th[i], ch);
      if p.Take? {
        UnpassedReceive(c.roles[l], s.th[i], s.q[p.j][0], s.pool);
      }
    }
    UnpassedElse(s, Step(c, s, i, ch).value, i, l);
  }

  lemma UnpassedElse(s: State, s': State, i: nat, l: nat)
    requires Unpassed(s, l) && i < |s.th| && |s'.th| == |s.th| && s'.th == s.th[i := s'.th[i]]
    requires s'.th[i].stage == l ==> !Passed(s'.th[i])
    ensures Unpassed(s', l)
  {
  }

  lemma UnpassedReceive(role: Role, w: Worker, x: int, pool: Pool)
    requires !Passed(w) && !role.Sink?
    ensures !Passed(Receive(role, w, x, pool))
  {
  }

  lemma UnpassedPlan(c: Config, s: State, w: Worker, ch: Choice)
    requires c.Valid() && |s.count| == 4 && w.stage < 3 && Fits(c.roles[w.stage], w) && !Passed(w) && !w.pc.Test?
    ensures var p := PlanOf(c, s, w, ch);
            p.Give? || p.Bump? || p.Local? ==> !Passed(p.w)
  {
  }

  /** The schedule leads into a jam. */
  lemma {:induction false} RunIntoJam(c: Config, s: State, l: nat) returns (run: seq<Event>, s': State)
    requires c.Valid() && l < 3 && Inv(c, s) && Unpassed(s, l)
    ensures Exec(c, s, run) == Some(s') && Inv(c, s') && Unpassed(s', l) && Jammed(c, s', l)
    decreases Measure(c, s)
  {
    if Jammed(c, s, l) {
      run, s' := [], s;
    } else {
      var i, ch :| 0 <= i < |s.th| && !HeldBack(s.th[i], l) && Step(c, s, i, ch) != None;
      UnpassedStep(c, s, i, ch, l);
      InvStep(c, s, i, ch);
      StepShrinks(c, s, i, ch);
      var e, s1 := StepAsRun(c, s, i, ch);
      run, s' := RunIntoJam(c, s1, l);
      ExecConcat(c, s, [e], run);
      run := [e] + run;
    }
  }

  lemma JamMeansStill(c: Config, s: State, l: nat)
    requires c.Valid() && l < 3 && Inv(c, s) && NoUndef(s) && Unpassed(s, l) && Jammed(c, s, l)
    ensures Waiting(c, s, l) && forall k :: 0 <= k < |s.th| && !HeldBack(s.th[k], l) ==> Finished(s.th[k].pc) || Blocked(c, s, s.th[k])
  {
    NoneIssuedBy(s, l);
    NoneEndedBeyond(c, s, l);
    forall k | 0 <= k < |s.th| && !HeldBack(s.th[k], l)
      ensures Finished(s.th[k].pc) || Blocked(c, s, s.th[k])
    {
      assert Step(c, s, k, A) == None;
      HaltMeansBlocked(c, s, k);
    }
  }

  lemma NoneIssuedBy(s: State, l: nat)
    requires Unpassed(s, l)
    ensures Sum(s.th, IssuedAt(l)) == 0
  {
    SumConst(s.th, IssuedAt(l), 0);
  }

  /** In the jam all threads of the stage stand at the comparison. */
  lemma JamMeansTesting(c: Config, s: State, l: nat, k: nat)
    requires c.Valid() && l < 3 && Inv(c, s) && NoUndef(s) && Roomy(c, s) && Unpassed(s, l) && Jammed(c, s, l)
    requires k < |s.th| && s.th[k].stage == l
    ensures s.th[k].pc.Test?
  {
    JamMeansStill(c, s, l);
    if !s.th[k].pc.Test? {
      assert Blocked(c, s, s.th[k]) && !Ending(s.th[k].pc);
      SomeFreeInJam(c, s, l, k);
      QueuesEmpty(c, s, l);
      JamIsOver(c, s, l, k);
    }
  }

  lemma SomeFreeInJam(c: Config, s: State, l: nat, k: nat)
    requires c.Valid() && l < 3 && Inv(c, s) && NoUndef(s) && Roomy(c, s) && Waiting(c, s, l)
    requires forall i :: 0 <= i < |s.th| ==> Still(c, s, s.th[i])
    requires forall i :: 0 <= i < |s.th| && !HeldBack(s.th[i], l) ==> Finished(s.th[i].pc) || Blocked(c, s, s.th[i])
    requires k < |s.th| && s.th[k].stage == l && Blocked(c, s, s.th[k]) && !Ending(s.th[k].pc)
    ensures s.q[0] != []
  {
    LastQueueEmpty(c, s);
    if c.roles[2].Forward? {
      if l == 2 {
        EmptyBefore(c, s, k);
      } else {
        EmptyBehind(c, s, l, k);
      }
    }
    FreeNotEmpty(c, s);
  }

  /** The thread waits in the third stage, which forwards. */
  lemma EmptyBefore(c: Config, s: State, k: nat)
    requires c.Valid() && Inv(c, s) && NoUndef(s) && Roomy(c, s) && Halted(c, s, 1) && c.roles[2].Forward? && s.q[3] == []
    requires k < |s.th| && s.th[k].stage == 2 && Blocked(c, s, s.th[k])
    ensures Emptied(c, s)
  {
    WaitsForInput(c, s, s.th[k], 2);
    if c.roles[1].Forward? {
      var k' := WaitsUpstream(c, s, 1, k);
    }
  }

  /** It waits before it. */
  lemma EmptyBehind(c: Config, s: State, l: nat, k: nat)
    requires c.Valid() && l < 2 && Inv(c, s) && Roomy(c, s) && Waiting(c, s, l) && c.roles[2].Forward? && s.q[3] == []
    requires k < |s.th| && s.th[k].stage == l && Blocked(c, s, s.th[k])
    ensures Emptied(c, s)
  {
    WaitingEmpty(c, s, 2);
    if c.roles[1].Forward? {
      if l == 1 {
        WaitsForInput(c, s, s.th[k], 1);
      } else {
        WaitingEmpty(c, s, 1);
      }
    }
  }

  /** A forwarding stage that waits has emptied its queue. */
  lemma WaitingEmpty(c: Config, s: State, l: nat)
    requires c.Valid() && Inv(c, s) && 1 <= l <= 2 && Waiting(c, s, l - 1) && c.roles[l].Forward? && s.q[l + 1] == []
    ensures s.q[l] == []
  {
    var k := SomeoneIn(c, s, l);
    WaitsForInput(c, s, s.th[k], l);
  }

  /** A thread of the stage that is not there would wait for input that is sure to come. */
  lemma JamIsOver(c: Config, s: State, l: nat, k: nat)
    requires c.Valid() && l < 3 && Inv(c, s) && NoUndef(s) && Roomy(c, s) && s.q[0] != [] && s.q[l + 1] == []
    requires forall i :: 0 <= i < |s.th| && !HeldBack(s.th[i], l) ==> Finished(s.th[i].pc) || Blocked(c, s, s.th[i])
    requires k < |s.th| && s.th[k].stage == l && Blocked(c, s, s.th[k]) && !Ending(s.th[k].pc)
    ensures false
  {
    WaitsForInput(c, s, s.th[k], l);
    NoneWaitsBefore(c, s, l, k);
  }

  lemma TestingMeansRaced(c: Config, s: State, l: nat)
    requires c.Valid() && Shaped(c, s) && Staffed(c, s) && l < 3 && Tally(c, s, l)
    requires forall k :: 0 <= k < |s.th| && s.th[k].stage == l ==> s.th[k].pc.Test?
    ensures Raced(c, s, l)
  {
    SumSame(s.th, CountedAt(l), InStage(l));
    assert Sum(s.th, InStage(l)) == c.n[l];
    SumConst(s.th, QuietAt(l), 0);
  }

  /** From every state in which no deserializer is fresh and no thread of the stage has compared the counter,
      some run leads into the race. */
  lemma RaceFrom(c: Config, input: seq<seq<Tuple>>, run: seq<Event>, l: nat) returns (run': seq<Event>)
    requires Sturdy(c) && l < 3 && Exec(c, Init(c, input), run).Some?
    requires Begun(Exec(c, Init(c, input), run).value) && Unpassed(Exec(c, Init(c, input), run).value, l)
    ensures Exec(c, Init(c, input), run').Some?
    ensures Begun(Exec(c, Init(c, input), run').value) && Raced(c, Exec(c, Init(c, input), run').value, l)
  {
    var s := Exec(c, Init(c, input), run).value;
    InvAlways(c, input, run);
    var more, s' := RunIntoJam(c, s, l);
    BegunAlong(c, s, more);
    ExecConcat(c, Init(c, input), run, more);
    run' := run + more;
    SturdyIsRoomy(c, input, run');
    JamMeansRaced(c, s', l);
  }

  lemma JamMeansRaced(c: Config, s: State, l: nat)
    requires c.Valid() && l < 3 && Inv(c, s) && Begun(s) && Roomy(c, s) && Unpassed(s, l) && Jammed(c, s, l)
    ensures Raced(c, s, l)
  {
    forall k | 0 <= k < |s.th| && s.th[k].stage == l
      ensures s.th[k].pc.Test?
    {
      JamMeansTesting(c, s, l, k);
    }
    LinkOf(c, s, l);
    TestingMeansRaced(c, s, l);
  }

  lemma LinkOf(c: Config, s: State, l: nat)
    requires c.Valid() && Inv(c, s) && l < 3
    ensures Tally(c, s, l)
  {
    assert Link(c, s, l);
  }

  // ---- Every deserializer gets a buffer first ----

  /** Readers read, deserializers deserialize. */
  predicate Opening(w: Worker) {
    if w.stage == 0 then w.pc.SrcTake? || w.pc.SrcFill? || w.pc.SrcPush?
    else w.stage == 1 ==> !Ended(w.pc)
  }

  /** The schedule: a reader pushes its buffer for every line and stops when it has none left; a deserializer
      stops after its first input buffer. */
  predicate Opens(w: Worker, ch: Choice) {
    && !(w.stage == 0 && w.pc.SrcFill? && w.line == [] && (w.todo == [] || !ch.B?))
    && !(w.stage == 1 && w.pc.RpNext?)
  }

  /** The buffers a reader will still push, and the one a deserializer has got. */
  function Offer(): Worker -> nat {
    (w: Worker) =>
      if w.stage == 0 then |w.todo| + (if w.pc.SrcPush? then 1 else 0)
      else if w.stage == 1 && !Fresh(w) then 1
      else 0
  }

  /** As many buffers are to come, queued and received as there are deserializers. */
  ghost predicate Early(c: Config, s: State)
    requires c.Valid()
  {
    && Inv(c, s) && (forall k :: 0 <= k < |s.th| ==> Opening(s.th[k]))
    && Sum(s.th, Offer()) + |s.q[1]| == c.n[1]
  }

  ghost predicate Deserializing(c: Config) {
    Sturdy(c) && c.roles[1].Repack?
  }

  /** What a plan does to the count. */
  ghost predicate Balanced(w: Worker, p: Plan) {
    match p
    case Take(j) => j == 1 <==> w.stage == 1 && w.pc.RpFirst?
    case Give(j, _, w') => Opening(w') && Offer()(w') + (if j == 1 then 1 else 0) == Offer()(w)
    case Bump(w') => Opening(w') && Offer()(w') == Offer()(w)
    case Local(w', _, _, _, _) => Opening(w') && Offer()(w') == Offer()(w)
    case Halt => true
  }

  lemma ReaderBalanced(w: Worker, ch: Choice, pool: Pool)
    requires Fits(Source(false), w) && w.stage == 0 && Opening(w) && Opens(w, ch)
    ensures Balanced(w, PlanSource(false, w, ch, pool))
  {
  }

  lemma DeserializerBalanced(tpb: nat, w: Worker, pool: Pool)
    requires Fits(Repack, w) && w.stage == 1 && Opening(w) && !w.pc.RpNext?
    ensures Balanced(w, PlanRepack(tpb, w, pool))
  {
  }

  lemma BeyondBalanced(c: Config, s: State, w: Worker, p: Plan)
    requires c.Valid() && 2 <= w.stage < 4 && Fits(c.roles[w.stage], w) && Sound(c.roles[w.stage], w, p)
    ensures Balanced(w, p)
  {
  }

  lemma PlanBalanced(c: Config, s: State, w: Worker, ch: Choice)
    requires Deserializing(c) && |s.count| == 4 && w.stage < 4 && Fits(c.roles[w.stage], w) && Opening(w) && Opens(w, ch)
    requires Sound(c.roles[w.stage], w, PlanOf(c, s, w, ch))
    ensures Balanced(w, PlanOf(c, s, w, ch))
  {
    if w.stage == 0 {
      ReaderBalanced(w, ch, s.pool);
    } else if w.stage == 1 {
      DeserializerBalanced(c.tpb, w, s.pool);
    } else {
      BeyondBalanced(c, s, w, PlanOf(c, s, w, ch));
    }
  }

  lemma ReceiveBalanced(c: Config, w: Worker, x: int, pool: Pool)
    requires Deserializing(c) && w.stage < 4 && Fits(c.roles[w.stage], w) && Opening(w) && Receives(w.pc)
    requires w.stage <= 1 ==> x != END
    ensures var w' := Receive(c.roles[w.stage], w, x, pool);
            Opening(w') && Offer()(w') == Offer()(w) + (if w.stage == 1 && w.pc.RpFirst? then 1 else 0)
  {
  }

  lemma NoMarkersYet(c: Config, s: State)
    requires Deserializing(c) && Early(c, s)
    ensures END !in s.q[1]
  {
    var k := SomeoneIn(c, s, 0);
    NotYet(c, s, k, 0);
  }

  lemma EarlyTake(c: Config, s: State, i: nat, p: Plan)
    requires Deserializing(c) && Early(c, s) && Ready(c, s, i, p) && p.Take? && Balanced(s.th[i], p) && !(s.th[i].stage == 1 && s.th[i].pc.RpNext?)
    ensures var s' := Apply(c, s, i, p).value;
            Opening(s'.th[i]) && Sum(s'.th, Offer()) + |s'.q[1]| == c.n[1]
  {
    var w, x := s.th[i], s.q[p.j][0];
    NoMarkersYet(c, s);
    FitApply(c, s, i, p);
    ReceiveBalanced(c, w, x, s.pool);
    SumUpdate(s.th, i, Receive(c.roles[w.stage], w, x, s.pool), Offer());
  }

  lemma EarlyGive(c: Config, s: State, i: nat, p: Plan)
    requires c.Valid() && Shaped(c, s) && Sum(s.th, Offer()) + |s.q[1]| == c.n[1] && i < |s.th|
    requires (p.Give? || p.Bump? || p.Local?) && Balanced(s.th[i], p) && Apply(c, s, i, p).Some?
    ensures var s' := Apply(c, s, i, p).value;
            Opening(s'.th[i]) && Sum(s'.th, Offer()) + |s'.q[1]| == c.n[1]
  {
    SumUpdate(s.th, i, p.w, Offer());
  }

  lemma EarlyApply(c: Config, s: State, i: nat, ch: Choice)
    requires Deserializing(c) && Early(c, s) && i < |s.th| && Opens(s.th[i], ch) && Step(c, s, i, ch).Some?
    ensures var s' := Step(c, s, i, ch).value;
            Opening(s'.th[i]) && Sum(s'.th, Offer()) + |s'.q[1]| == c.n[1] && s'.th == s.th[i := s'.th[i]]
  {
    var p := PlanOf(c, s, s.th[i], ch);
    StepReady(c, s, i, ch);
    PlanBalanced(c, s, s.th[i], ch);
    FitApply(c, s, i, p);
    if p.Take? {
      EarlyTake(c, s, i, p);
    } else {
      EarlyGive(c, s, i, p);
    }
  }

  lemma EarlyStep(c: Config, s: State, i: nat, ch: Choice)
    requires Deserializing(c) && Early(c, s) && i < |s.th| && Opens(s.th[i], ch) && Step(c, s, i, ch).Some?
    ensures Early(c, Step(c, s, i, ch).value)
  {
    EarlyApply(c, s, i, ch);
    InvStep(c, s, i, ch);
  }

  ghost predicate Opened(c: Config, s: State)
    requires Shaped(c, s)
  {
    forall i, ch :: 0 <= i < |s.th| && Opens(s.th[i], ch) ==> Step(c, s, i, ch) == None
  }

  lemma {:induction false} RunToOpened(c: Config, s: State) returns (run: seq<Event>, s': State)
    requires Deserializing(c) && Early(c, s)
    ensures Exec(c, s, run) == Some(s') && Early(c, s') && Opened(c, s')
    decreases Measure(c, s)
  {
    if Opened(c, s) {
      run, s' := [], s;
    } else {
      var i, ch :| 0 <= i < |s.th| && Opens(s.th[i], ch) && Step(c, s, i, ch) != None;
      EarlyStep(c, s, i, ch);
      StepShrinks(c, s, i, ch);
      var e, s1 := StepAsRun(c, s, i, ch);
      run, s' := RunToOpened(c, s1);
      ExecConcat(c, s, [e], run);
      run := [e] + run;
    }
  }

  lemma ReaderStill(c: Config, s: State, i: nat)
    requires Deserializing(c) && Early(c, s) && Opened(c, s) && i < |s.th| && s.th[i].stage == 0
    ensures (s.th[i].pc.SrcFill? && s.th[i].todo == []) || Blocked(c, s, s.th[i])
  {
    var w := s.th[i];
    assert Opening(w);
    if w.pc.SrcFill? {
      assert w.todo != [] ==> Opens(w, B) && Step(c, s, i, B) == None;
    } else {
      assert Opens(w, A) && Step(c, s, i, A) == None;
      HaltMeansBlocked(c, s, i);
    }
  }

  lemma OthersStill(c: Config, s: State, i: nat)
    requires Deserializing(c) && Early(c, s) && Opened(c, s) && i < |s.th| && 1 <= s.th[i].stage < 4
    requires !Ended(s.th[i].pc)
    ensures (s.th[i].stage == 1 && s.th[i].pc.RpNext?) || Blocked(c, s, s.th[i])
  {
    if !(s.th[i].stage == 1 && s.th[i].pc.RpNext?) {
      assert Opens(s.th[i], A) && Step(c, s, i, A) == None;
      HaltMeansBlocked(c, s, i);
    }
  }

  lemma OpenedMeansStill(c: Config, s: State)
    requires Deserializing(c) && Early(c, s) && Opened(c, s)
    ensures Waiting(c, s, 1) && forall k :: 0 <= k < |s.th| ==> Still(c, s, s.th[k])
  {
    EarlyNoneEnded(c, s);
    forall k | 0 <= k < |s.th|
      ensures Still(c, s, s.th[k]) && (s.th[k].stage > 1 ==> Blocked(c, s, s.th[k]))
    {
      if s.th[k].stage == 0 {
        ReaderStill(c, s, k);
      } else {
        OthersStill(c, s, k);
      }
    }
  }

  lemma EarlyNoneEnded(c: Config, s: State)
    requires Deserializing(c) && Early(c, s)
    ensures forall k :: 0 <= k < |s.th| && s.th[k].stage >= 1 ==> !Ended(s.th[k].pc)
  {
    forall k | 0 <= k < |s.th| && s.th[k].stage == 1
      ensures !Ended(s.th[k].pc)
    {
      assert Opening(s.th[k]);
    }
    NoneIssued(s, 1);
    NoneEndedBeyond(c, s, 1);
  }

  lemma SomeFreeOpened(c: Config, s: State)
    requires Deserializing(c) && Early(c, s) && Opened(c, s) && Roomy(c, s)
    ensures s.q[0] != []
  {
    OpenedMeansStill(c, s);
    LastQueueEmpty(c, s);
    if c.roles[2].Forward? {
      WaitingEmpty(c, s, 2);
    }
    FreeNotEmpty(c, s);
  }

  /** Where the schedule ends, no deserializer is fresh. */
  lemma OpenedMeansBegun(c: Config, s: State)
    requires Deserializing(c) && Early(c, s) && Opened(c, s) && Roomy(c, s)
    ensures Begun(s)
  {
    SomeFreeOpened(c, s);
    EarlyNoneEnded(c, s);
    forall d | 0 <= d < |s.th|
      ensures !Fresh(s.th[d])
    {
      if Fresh(s.th[d]) {
        FreshWaits(c, s, d);
        NotFresh(c, s, d);
      }
    }
  }

  lemma FreshWaits(c: Config, s: State, d: nat)
    requires Deserializing(c) && Early(c, s) && Opened(c, s) && s.q[0] != [] && d < |s.th| && Fresh(s.th[d])
    requires forall k :: 0 <= k < |s.th| && s.th[k].stage >= 1 ==> !Ended(s.th[k].pc)
    ensures s.th[d].stage == 1 && s.q[1] == []
  {
    assert Fits(c.roles[s.th[d].stage], s.th[d]);
    OthersStill(c, s, d);
  }

  lemma NotFresh(c: Config, s: State, d: nat)
    requires Deserializing(c) && Early(c, s) && Opened(c, s) && s.q[0] != [] && s.q[1] == []
    requires d < |s.th| && s.th[d].stage == 1
    ensures !Fresh(s.th[d])
  {
    forall k | 0 <= k < |s.th|
      ensures Offer()(s.th[k]) <= InStage(1)(s.th[k])
    {
      if s.th[k].stage == 0 {
        ReaderStill(c, s, k);
        assert Opening(s.th[k]);
      }
    }
    SumAtMost(s.th, Offer(), InStage(1));
    assert Sum(s.th, InStage(1)) == c.n[1];
    assert Offer()(s.th[d]) == InStage(1)(s.th[d]);
  }

  /** A line for every deserializer. */
  function Lines(c: Config): seq<seq<Tuple>>
    requires |c.n| == 4
  {
    [seq(c.n[1], i => "")]
  }

  lemma SumOfFirst<T>(s: seq<T>, f: T -> nat)
    requires s != [] && forall i :: 1 <= i < |s| ==> f(s[i]) == 0
    ensures Sum(s, f) == f(s[0])
  {
    assert s == [s[0]] + s[1..];
    SumConcat([s[0]], s[1..], f);
    SumConst(s[1..], f, 0);
    assert [s[0]][..0] == [];
  }

  lemma EarlyStart(c: Config)
    requires Deserializing(c)
    ensures Early(c, Init(c, Lines(c)))
  {
    InvStart(c, Lines(c));
    SumOfFirst(Init(c, Lines(c)).th, Offer());
  }

  // ---- The race ----

  lemma EarlyUnpassed(c: Config, s: State, l: nat)
    requires Deserializing(c) && Early(c, s) && l < 3
    ensures Unpassed(s, l)
  {
    EarlyNoneEnded(c, s);
    forall k | 0 <= k < |s.th| && s.th[k].stage == l
      ensures !Passed(s.th[k])
    {
      assert Opening(s.th[k]);
    }
  }

  /** A run after which no deserializer is fresh and no thread of stage `l` has compared the counter. */
  lemma BeforeRace(c: Config, l: nat) returns (input: seq<seq<Tuple>>, run: seq<Event>)
    requires Sturdy(c) && l < 3
    ensures Exec(c, Init(c, input), run).Some?
    ensures Begun(Exec(c, Init(c, input), run).value) && Unpassed(Exec(c, Init(c, input), run).value, l)
  {
    if c.roles[1].Repack? {
      input := Lines(c);
      EarlyStart(c);
      var s';
      run, s' := RunToOpened(c, Init(c, input));
      SturdyIsRoomy(c, input, run);
      OpenedMeansBegun(c, s');
      EarlyUnpassed(c, s', l);
    } else {
      input, run := [], [];
    }
  }

  /** Without spare room for stage `l`, some run leads to where no continuation goes wrong at a first pop, but
      every one that ends leaves a thread of the stage waiting with end markers in hand. */
  lemma HangReachable(c: Config, l: nat) returns (input: seq<seq<Tuple>>, run: seq<Event>)
    requires Sturdy(c) && l < 3 && !Spare(c, l)
    ensures Exec(c, Init(c, input), run).Some?
    ensures forall more :: Exec(c, Init(c, input), run + more).Some? ==> Hangs(c, Exec(c, Init(c, input), run + more).value, l)
  {
    input, run := BeforeRace(c, l);
    run := RaceFrom(c, input, run, l);
    forall more | Exec(c, Init(c, input), run + more).Some?
      ensures Hangs(c, Exec(c, Init(c, input), run + more).value, l)
    {
      HangsAlong(c, input, run, more, l);
    }
  }

  ghost predicate Hangs(c: Config, s: State, l: nat)
    requires Shaped(c, s)
  {
    NoUndef(s) && (Stuck(c, s) ==> exists i :: 0 <= i < |s.th| && s.th[i].stage == l && s.th[i].pc.Sent?)
  }

  lemma HangsAlong(c: Config, input: seq<seq<Tuple>>, run: seq<Event>, more: seq<Event>, l: nat)
    requires Sturdy(c) && l < 3 && !Spare(c, l)
    requires Exec(c, Init(c, input), run).Some? && Exec(c, Init(c, input), run + more).Some?
    requires Begun(Exec(c, Init(c, input), run).value) && Raced(c, Exec(c, Init(c, input), run).value, l)
    ensures Hangs(c, Exec(c, Init(c, input), run + more).value, l)
  {
    StaysDefined(c, input, run, more);
    if Stuck(c, Exec(c, Init(c, input), run + more).value) {
      var i := RaceHangs(c, input, run, more, l);
    }
  }

  lemma StaysDefined(c: Config, input: seq<seq<Tuple>>, run: seq<Event>, more: seq<Event>)
    requires c.Valid() && Exec(c, Init(c, input), run).Some? && Exec(c, Init(c, input), run + more).Some?
    requires Begun(Exec(c, Init(c, input), run).value)
    ensures NoUndef(Exec(c, Init(c, input), run + more).value)
  {
    InvAlways(c, input, run);
    ExecConcat(c, Init(c, input), run, more);
    BegunAlong(c, Exec(c, Init(c, input), run).value, more);
  }

  // ---- The exact condition ----

  ghost predicate AllReturned(s: State) {
    forall i :: 0 <= i < |s.th| ==> s.th[i].pc.Done? || s.th[i].pc.DoneSent?
  }

  ghost predicate Joins(c: Config, s: State)
    requires Shaped(c, s)
  {
    Stuck(c, s) && NoUndef(s) ==> AllReturned(s)
  }

  /** Every run that cannot go on has brought all threads to their end. */
  ghost predicate AlwaysJoins(c: Config)
    requires c.Valid()
  {
    forall input, run {:trigger Exec(c, Init(c, input), run)} :: Exec(c, Init(c, input), run).Some? ==> Joins(c, Exec(c, Init(c, input), run).value)
  }

  ghost predicate SpareEverywhere(c: Config)
    requires c.Valid()
  {
    Spare(c, 0) && Spare(c, 1) && Spare(c, 2)
  }

  lemma SpareMeansJoins(c: Config)
    requires Sturdy(c) && SpareEverywhere(c)
    ensures AlwaysJoins(c)
  {
    forall input, run | Exec(c, Init(c, input), run).Some?
      ensures Joins(c, Exec(c, Init(c, input), run).value)
    {
      var s := Exec(c, Init(c, input), run).value;
      SturdyIsRoomy(c, input, run);
      if Stuck(c, s) && NoUndef(s) {
        forall i | 0 <= i < |s.th|
          ensures s.th[i].pc.Done? || s.th[i].pc.DoneSent?
        {
          AllThreadsReturn(c, input, run, i);
        }
      }
    }
  }

  lemma CrampedMeansHangs(c: Config, l: nat)
    requires Sturdy(c) && l < 3 && !Spare(c, l)
    ensures !AlwaysJoins(c)
  {
    var input, run := HangReachable(c, l);
    var more := Completion(c, input, run);
    assert Hangs(c, Exec(c, Init(c, input), run + more).value, l);
    assert !Joins(c, Exec(c, Init(c, input), run + more).value);
  }

  /** All threads return, on every input and schedule, if and only if every queue has spare room for the
      surplus end markers of the stage before it. */
  lemma JoinIsExact(c: Config)
    requires Sturdy(c)
    ensures AlwaysJoins(c) <==> SpareEverywhere(c)
  {
    if SpareEverywhere(c) {
      SpareMeansJoins(c);
    } else {
      CrampedMeansHangs(c, if !Spare(c, 0) then 0 else if !Spare(c, 1) then 1 else 2);
    }
  }
}
