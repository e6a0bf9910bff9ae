/** The receiving side loses no buffer as long as every received buffer holds a tuple: the serializer
    drops the output buffer it has taken if and only if its input buffer is empty. */
module PipelineFilled {
  import opened Options
  import opened Pipeline
  import opened PipelineShape
  import opened PipelineContents
  import opened PipelineProgress
  import opened PipelineTermination
  import opened PipelineRuns

  ghost predicate Receiving(c: Config) {
    c.Valid() && c.roles[0] == Source(true) && !c.roles[1].Repack? && !c.roles[1].Expand? && !c.roles[2].Repack?
  }

  predicate Filled(w: Worker, pool: Pool) {
    && !w.pc.SrcLast? && (w.pc.SrcPush? ==> At(pool, w.b) != [])
    && (w.stage < 3 && (w.pc.Got? || w.pc.Fwd? || w.pc.Need? || w.pc.Both?) ==> At(pool, w.b) != [])
    && (w.stage == 1 && w.pc.PushOut? ==> At(pool, w.b) != [])
    && (w.pc.ExWork? ==> At(pool, w.b) != [] || At(pool, w.o) != [])
  }

  ghost predicate AllFilled(s: State)
    requires |s.q| == 4
  {
    && (forall i :: 0 <= i < |s.th| ==> Filled(s.th[i], s.pool))
    && (forall l, k :: 1 <= l <= 2 && 0 <= k < |s.q[l]| && s.q[l][k] != END ==> At(s.pool, s.q[l][k]) != [])
  }

  ghost predicate Fills(w: Worker, pool: Pool, p: Plan) {
    match p
    case Take(_) => true
    case Give(j, x, w') => Filled(w', pool) && (1 <= j <= 2 ==> x == END || At(pool, x) != [])
    case Bump(w') => Filled(w', pool)
    case Local(w', pool', _, _, lost) => Filled(w', pool') && lost == []
    case Halt => true
  }

  lemma SourceFills(w: Worker, ch: Choice, pool: Pool)
    requires Fits(Source(true), w) && Apart(w, pool) && Filled(w, pool) && w.stage == 0
    ensures Fills(w, pool, PlanSource(true, w, ch, pool)) || Ending(w.pc)
  {
  }

  lemma ForwardFills(w: Worker, pool: Pool)
    requires Fits(Forward, w) && Filled(w, pool) && 1 <= w.stage <= 2
    ensures Fills(w, pool, PlanForward(w, pool)) || Ending(w.pc)
  {
  }

  lemma SwapFills(decoding: bool, w: Worker, ch: Choice, pool: Pool)
    requires Fits(Swap(decoding), w) && Apart(w, pool) && Filled(w, pool) && 1 <= w.stage <= 2
    ensures Fills(w, pool, PlanSwap(decoding, w, ch, pool)) || Ending(w.pc)
  {
  }

  lemma ExpandFills(w: Worker, ch: Choice, pool: Pool)
    requires Fits(Expand, w) && Apart(w, pool) && Filled(w, pool) && w.stage == 2
    ensures Fills(w, pool, PlanExpand(w, ch, pool)) || Ending(w.pc)
  {
    if w.pc.ExWork? && At(pool, w.b) != [] && ch.A? {
      TupleMoves(pool, w.b, w.o);
    } else if w.pc.ExFill? {
      TupleArrives(pool, w.o, w.line);
    }
  }

  lemma SinkFills(w: Worker, pool: Pool)
    requires Fits(Sink, w) && w.stage == 3
    ensures Fills(w, pool, PlanSink(w, pool)) || Ending(w.pc)
  {
  }

  lemma EndFills(downstream: nat, last: bool, w: Worker, pool: Pool)
    requires Ending(w.pc)
    ensures Fills(w, pool, PlanEnd(downstream, last, w, pool))
  {
  }

  lemma PlanFills(c: Config, s: State, w: Worker, ch: Choice)
    requires Receiving(c) && |s.count| == 4 && w.stage < 4
    requires Fits(c.roles[w.stage], w) && Apart(w, s.pool) && Filled(w, s.pool)
    ensures Fills(w, s.pool, PlanOf(c, s, w, ch))
  {
    if Ending(w.pc) {
      if w.stage < 3 {
        EndFills(c.n[w.stage + 1], s.count[w.stage] == c.n[w.stage], w, s.pool);
      }
    } else {
      match c.roles[w.stage]
      case Source(keepsLast) => SourceFills(w, ch, s.pool);
      case Forward => ForwardFills(w, s.pool);
      case Swap(decoding) => SwapFills(decoding, w, ch, s.pool);
      case Repack => assert false;
      case Expand => ExpandFills(w, ch, s.pool);
      case Sink => SinkFills(w, s.pool);
    }
  }

  lemma ReceiveFilled(c: Config, w: Worker, x: int, pool: Pool)
    requires Receiving(c) && w.stage < 4 && Fits(c.roles[w.stage], w) && Receives(w.pc) && Filled(w, pool)
    requires Stops(w.pc) && 1 <= w.stage <= 2 ==> x == END || At(pool, x) != []
    ensures Filled(Receive(c.roles[w.stage], w, x, pool), pool)
  {
  }

  /** Changing the buffers one worker holds empties no queued buffer and no other worker's. */
  lemma FilledLocal(c: Config, s: State, i: nat, p: Plan)
    requires Receiving(c) && Inv(c, s) && AllFilled(s) && Ready(c, s, i, p) && p.Local?
    requires Fills(s.th[i], s.pool, p) && Frame(s.th[i], s.pool, p.pool)
    ensures AllFilled(Apply(c, s, i, p).value)
  {
    Untouched(c, s, i, p.pool);
    forall k | 0 <= k < |s.th| && k != i
      ensures Filled(s.th[k], p.pool)
    {
      FilledAlike(s.th[k], s.pool, p.pool);
    }
  }

  lemma FilledAlike(w: Worker, pool: Pool, pool': Pool)
    requires Filled(w, pool) && At(pool', w.b) == At(pool, w.b) && At(pool', w.o) == At(pool, w.o)
    ensures Filled(w, pool')
  {
  }

  lemma FilledQueue(c: Config, s: State, i: nat, p: Plan)
    requires Receiving(c) && Ready(c, s, i, p) && AllFilled(s) && (p.Give? || p.Bump?)
    requires Fills(s.th[i], s.pool, p)
    ensures AllFilled(Apply(c, s, i, p).value)
  {
  }

  lemma FilledTake(c: Config, s: State, i: nat, p: Plan)
    requires Receiving(c) && Ready(c, s, i, p) && AllFilled(s) && p.Take?
    ensures AllFilled(Apply(c, s, i, p).value)
  {
    var w := s.th[i];
    FitApply(c, s, i, p);
    ReceiveFilled(c, w, s.q[p.j][0], s.pool);
  }

  lemma FilledApply(c: Config, s: State, i: nat, p: Plan)
    requires Receiving(c) && Inv(c, s) && AllFilled(s) && Ready(c, s, i, p)
    requires Fills(s.th[i], s.pool, p) && Conserves(s.th[i], s.pool, p)
    ensures AllFilled(Apply(c, s, i, p).value)
    ensures Apply(c, s, i, p).value.lost == s.lost
  {
    match p
    case Take(_) => FilledTake(c, s, i, p);
    case Give(_, _, _) => FilledQueue(c, s, i, p);
    case Bump(_) => FilledQueue(c, s, i, p);
    case Local(_, _, _, _, lost) => FilledLocal(c, s, i, p);
  }

  lemma FilledStep(c: Config, s: State, i: nat, ch: Choice)
    requires Receiving(c) && Inv(c, s) && AllFilled(s) && i < |s.th| && Step(c, s, i, ch).Some?
    ensures AllFilled(Step(c, s, i, ch).value)
    ensures Step(c, s, i, ch).value.lost == s.lost
  {
    var w, p := s.th[i], PlanOf(c, s, s.th[i], ch);
    StepReady(c, s, i, ch);
    HeldApart(c, s, i);
    PlanConserves(c, s, w, ch);
    PlanFills(c, s, w, ch);
    FilledApply(c, s, i, p);
  }

  /** The receiving side never loses a buffer. */
  lemma {:induction false} NothingLost(c: Config, input: seq<seq<Tuple>>, run: seq<Event>)
    requires Receiving(c) && Exec(c, Init(c, input), run).Some?
    ensures AllFilled(Exec(c, Init(c, input), run).value)
    ensures Exec(c, Init(c, input), run).value.lost == []
  {
    if run != [] {
      var e := run[|run| - 1];
      NothingLost(c, input, run[..|run| - 1]);
      InvAlways(c, input, run[..|run| - 1]);
      FilledStep(c, Exec(c, Init(c, input), run[..|run| - 1]).value, e.thread, e.ch);
    }
  }

  // ---- An empty buffer ----

  /** A serializer that waits for its next buffer, with one there and a free one, too. */
  ghost predicate Served(c: Config, s: State, i: nat)
    requires c.Valid()
  {
    && Inv(c, s) && i < |s.th| && 1 <= s.th[i].stage < 4 && c.roles[s.th[i].stage].Expand? && s.th[i].pc.Idle?
    && s.q[s.th[i].stage] != [] && s.q[s.th[i].stage][0] != END && s.q[0] != []
  }

  lemma PopsInput(c: Config, s: State, i: nat)
    requires Shaped(c, s) && i < |s.th| && 1 <= s.th[i].stage < 4 && c.roles[s.th[i].stage].Expand? && s.th[i].pc.Idle?
    requires s.q[s.th[i].stage] != [] && s.q[s.th[i].stage][0] != END
    ensures var w := s.th[i];
            Step(c, s, i, A) == Some(s.(q := s.q[w.stage := s.q[w.stage][1..]], th := s.th[i := w.(pc := Got, b := s.q[w.stage][0])]))
  {
  }

  lemma WantsOutput(c: Config, s: State, i: nat)
    requires Shaped(c, s) && i < |s.th| && 1 <= s.th[i].stage < 4 && c.roles[s.th[i].stage].Expand? && s.th[i].pc.Got?
    ensures Step(c, s, i, A) == Some(s.(th := s.th[i := s.th[i].(pc := Need)]))
  {
    assert s.sent + [] == s.sent && s.dropped + [] == s.dropped && s.lost + [] == s.lost;
  }

  lemma TakesOutput(c: Config, s: State, i: nat)
    requires Shaped(c, s) && i < |s.th| && 1 <= s.th[i].stage < 4 && c.roles[s.th[i].stage].Expand? && s.th[i].pc.Need? && s.q[0] != []
    ensures Step(c, s, i, A) == Some(s.(q := s.q[0 := s.q[0][1..]], th := s.th[i := s.th[i].(pc := ExWork, o := s.q[0][0])]))
  {
  }

  /** It pops the id and takes an output buffer, which is empty. */
  lemma Starts(c: Config, s: State, i: nat) returns (run: seq<Event>, s': State)
    requires c.Valid() && Served(c, s, i)
    ensures Exec(c, s, run) == Some(s') && |s'.th| == |s.th| && s'.pool == s.pool && s'.lost == s.lost
    ensures s'.th[i] == s.th[i].(pc := ExWork, b := s.q[s.th[i].stage][0], o := s.q[0][0])
  {
    PopsInput(c, s, i);
    var e, s1 := StepAsRun(c, s, i, A);
    WantsOutput(c, s1, i);
    var e1, s2 := StepAsRun(c, s1, i, A);
    TakesOutput(c, s2, i);
    var e2;
    e2, s' := StepAsRun(c, s2, i, A);
    ExecConcat(c, s, [e], [e1]);
    ExecConcat(c, s, [e] + [e1], [e2]);
    run := [e] + [e1] + [e2];
  }

  lemma Loses(c: Config, s: State, i: nat, ch: Choice)
    requires Shaped(c, s) && i < |s.th| && 1 <= s.th[i].stage < 4 && c.roles[s.th[i].stage].Expand? && s.th[i].pc.ExWork?
    requires At(s.pool, s.th[i].o) == []
    ensures var next := Step(c, s, i, ch);
            next.Some? && next.value.lost == if At(s.pool, s.th[i].b) == [] then s.lost + [s.th[i].o] else s.lost
  {
  }

  /** Its next step loses the output buffer if and only if the other one is empty. */
  lemma LosesIfEmpty(c: Config, s: State, i: nat, ch: Choice) returns (run: seq<Event>, s': State)
    requires c.Valid() && Served(c, s, i)
    ensures Exec(c, s, run) == Some(s') && i < |s'.th| && s'.th[i].pc.ExWork?
    ensures var next := Step(c, s', i, ch);
            next.Some? && next.value.lost == if At(s.pool, s.q[s.th[i].stage][0]) == [] then s.lost + [s.q[0][0]] else s.lost
  {
    assert At(s.pool, s.q[0][0]) == [];
    run, s' := Starts(c, s, i);
    Loses(c, s', i, ch);
  }
}
