/** Without enough buffers server and client can get stuck with data pending: the condition for the absence of
    deadlocks is exact.

    The run is not written down.  Any schedule will do that never lets a thread of the last stage that wants
    free buffers take one: it comes to an end, and there the ids run out just where the counting argument says. */
module PipelineDeadlock {
  import opened Options
  import opened Sums
  import opened Pipeline
  import opened PipelineShape
  import opened PipelineOwnership
  import opened PipelineSentinels
  import opened PipelineContents
  import opened PipelineProgress
  import opened PipelineDelivery
  import opened PipelineTermination
  import opened PipelineRuns

  /** The last stage that takes free buffers to write to: its threads are held back. */
  function Last(c: Config): nat
    requires |c.roles| == 4
  {
    if c.roles[2].Forward? then 1 else 2
  }

  /** The ids can all be queued before that stage or held by the threads up to it: a queue is unbounded, or there
      are no more ids than that. */
  ghost predicate Crowded(c: Config) {
    && c.Valid() && !c.roles[1].Expand? && !c.roles[2].Repack?
    && (if c.roles[2].Forward? then !c.roles[1].Forward? && c.cap[1] == 0
        else c.cap[1] == 0 || c.cap[2] == 0 || c.ids <= Holdable(c))
  }

  /** More lines for every reader than all buffers together can hold. */
  function Plenty(c: Config): nat
    requires |c.n| == 4
  {
    c.ids * c.tpb + c.n[0] + 1
  }

  // ---- Threads on the way into the jam ----

  predicate Calm(c: Config, w: Worker, pool: Pool)
    requires |c.n| == |c.roles| == 4
  {
    if w.stage == 0 then
      && (w.pc.SrcTake? || w.pc.SrcFill? || w.pc.SrcPush?) && |w.todo| <= Plenty(c)
      && (w.pc.SrcFill? && w.line != [] ==> At(pool, w.b) == [])
    else if w.stage > Last(c) then w.pc.Idle?
    else if w.stage == Last(c) then w.pc.Idle? || w.pc.Got? || w.pc.Need? || (w.stage == 1 && w.pc.RpInit?)
    else
      && (|| w.pc.RpInit? || w.pc.RpFirst? || w.pc.RpWork? || w.pc.RpFull? || w.pc.RpRefill? || w.pc.RpRel? || w.pc.RpNext?
          || w.pc.Idle? || w.pc.Got? || (w.pc.Fwd? && c.roles[1].Forward?) || w.pc.Need? || w.pc.Both? || w.pc.PushOut? || w.pc.Rel?)
      && (w.pc.RpWork? || w.pc.RpRel? || w.pc.RpNext? ==> |At(pool, w.o)| < c.tpb)
  }

  /** No buffer holds more tuples than an output buffer may. */
  ghost predicate Small(c: Config, pool: Pool) {
    forall x :: |At(pool, x)| <= c.tpb
  }

  ghost predicate AllCalm(c: Config, s: State)
    requires |c.n| == |c.roles| == 4
  {
    && |s.q| == 4 && (forall i :: 0 <= i < |s.th| ==> Calm(c, s.th[i], s.pool))
    && Small(c, s.pool) && s.q[3] == [] && (Last(c) == 1 ==> s.q[2] == []) && s.sent == [] && s.dropped == [] && s.lost == []
  }

  /** Every reader has a line left. */
  ghost predicate Rich(s: State) {
    forall i :: 0 <= i < |s.th| && s.th[i].stage == 0 ==> s.th[i].todo != []
  }

  /** A thread that is about to take a free buffer where it must not. */
  predicate HeldBack(c: Config, w: Worker)
    requires |c.roles| == 4
  {
    w.stage == Last(c) && (w.pc.Need? || w.pc.RpInit?)
  }

  /** The events of the schedule: sources fill buffers up, codecs succeed, and the threads behind are not needed. */
  predicate Allowed(c: Config, w: Worker, ch: Choice, pool: Pool)
    requires |c.roles| == 4
  {
    && w.stage <= Last(c) && !HeldBack(c, w)
    && (w.pc.SrcFill? ==> ch == if |At(pool, w.b)| < c.tpb then A else B)
    && (w.pc.Got? ==> ch.B?) && (w.pc.Both? ==> ch.A?)
  }

  ghost predicate Calms(c: Config, w: Worker, pool: Pool, p: Plan)
    requires |c.n| == |c.roles| == 4
  {
    match p
    case Take(_) => true
    case Give(j, _, w') => Calm(c, w', pool) && j <= Last(c)
    case Bump(_) => false
    case Local(w', pool', sent, dropped, lost) => Calm(c, w', pool') && Small(c, pool') && sent == [] && dropped == [] && lost == []
    case Halt => true
  }

  lemma SourceCalms(c: Config, keepsLast: bool, w: Worker, ch: Choice, pool: Pool)
    requires c.Valid() && Fits(Source(keepsLast), w) && w.stage == 0 && Calm(c, w, pool) && Small(c, pool) && Apart(w, pool)
    requires Allowed(c, w, ch, pool) && w.todo != []
    ensures Calms(c, w, pool, PlanSource(keepsLast, w, ch, pool))
  {
    if w.pc.SrcFill? && w.line != [] {
      PutSmall(c, pool, w.b, At(pool, w.b) + w.line);
    } else if w.pc.SrcFill? && ch.A? {
      PutSmall(c, pool, w.b, At(pool, w.b) + [w.todo[0]]);
    }
  }

  lemma PutSmall(c: Config, pool: Pool, b: int, ts: seq<Tuple>)
    requires Small(c, pool) && |ts| <= c.tpb
    ensures Small(c, Put(pool, b, ts))
  {
    forall x
      ensures |At(Put(pool, b, ts), x)| <= c.tpb
    {
      assert |At(pool, x)| <= c.tpb;
    }
  }

  lemma RepackCalms(c: Config, w: Worker, pool: Pool)
    requires c.Valid() && Fits(Repack, w) && w.stage == 1 == Last(c) - 1 && Calm(c, w, pool) && Small(c, pool) && Apart(w, pool)
    ensures Calms(c, w, pool, PlanRepack(c.tpb, w, pool))
  {
    if w.pc.RpWork? && At(pool, w.b) != [] {
      TupleMoves(pool, w.b, w.o);
    }
  }

  /** A codec in the second stage. */
  lemma CodecCalms(c: Config, decoding: bool, w: Worker, ch: Choice, pool: Pool)
    requires c.Valid() && Fits(Swap(decoding), w) && w.stage == 1 == Last(c) - 1 && Calm(c, w, pool) && Small(c, pool) && Allowed(c, w, ch, pool)
    ensures Calms(c, w, pool, PlanSwap(decoding, w, ch, pool))
  {
    if w.pc.Both? {
      assert |At(pool, w.b)| <= c.tpb;
      PutSmall(c, pool, w.o, At(pool, w.b));
      PutSmall(c, Put(pool, w.o, At(pool, w.b)), w.b, []);
    }
  }

  lemma ForwardCalms(c: Config, w: Worker, pool: Pool)
    requires c.Valid() && Fits(Forward, w) && w.stage == 1 == Last(c) - 1 && c.roles[1].Forward? && Calm(c, w, pool) && Small(c, pool)
    ensures Calms(c, w, pool, PlanForward(w, pool))
  {
  }

  /** A thread of the stage that is held back: it only gets as far as wanting a free buffer. */
  lemma LastCalms(c: Config, s: State, w: Worker, ch: Choice)
    requires Crowded(c) && |s.count| == 4 && w.stage == Last(c) && Fits(c.roles[w.stage], w)
    requires Calm(c, w, s.pool) && Small(c, s.pool) && Allowed(c, w, ch, s.pool)
    ensures Calms(c, w, s.pool, PlanOf(c, s, w, ch))
  {
  }

  lemma PlanCalms(c: Config, s: State, w: Worker, ch: Choice)
    requires Crowded(c) && |s.count| == 4 && Allowed(c, w, ch, s.pool) && Fits(c.roles[w.stage], w)
    requires Calm(c, w, s.pool) && Small(c, s.pool) && Apart(w, s.pool) && (w.stage == 0 ==> w.todo != [])
    ensures Calms(c, w, s.pool, PlanOf(c, s, w, ch))
  {
    if w.stage == 0 {
      SourceCalms(c, c.roles[0].keepsLast, w, ch, s.pool);
    } else if w.stage == Last(c) {
      LastCalms(c, s, w, ch);
    } else {
      match c.roles[1]
      case Repack => RepackCalms(c, w, s.pool);
      case Swap(decoding) => CodecCalms(c, decoding, w, ch, s.pool);
      case Forward => ForwardCalms(c, w, s.pool);
    }
  }

  // ---- The schedule keeps them calm ----

  /** No end marker has been pushed. */
  lemma NoMarkers(c: Config, s: State, l: nat)
    requires Crowded(c) && Inv(c, s) && AllCalm(c, s) && l < 2
    ensures END !in s.q[l + 1]
  {
    var k := SomeoneIn(c, s, l);
    assert Calm(c, s.th[k], s.pool);
    NotYet(c, s, k, l);
  }

  lemma ReceiveCalm(c: Config, w: Worker, x: int, pool: Pool)
    requires Crowded(c) && w.stage <= Last(c) && Fits(c.roles[w.stage], w) && Calm(c, w, pool) && Tidy(w, pool) && !HeldBack(c, w)
    requires Stops(w.pc) ==> x != END
    requires Receives(w.pc) && !Stops(w.pc) ==> At(pool, x) == []
    ensures Receives(w.pc) ==> Calm(c, Receive(c.roles[w.stage], w, x, pool), pool)
  {
  }

  lemma CalmTake(c: Config, s: State, i: nat, p: Plan)
    requires Crowded(c) && Inv(c, s) && AllCalm(c, s) && Ready(c, s, i, p) && p.Take? && p.j < 3
    requires s.th[i].stage <= Last(c) && !HeldBack(c, s.th[i])
    requires Stops(s.th[i].pc) ==> s.q[p.j][0] != END
    ensures AllCalm(c, Apply(c, s, i, p).value)
  {
    var w := s.th[i];
    FitApply(c, s, i, p);
    if !Stops(w.pc) {
      assert At(s.pool, s.q[0][0]) == [];
    }
    ReceiveCalm(c, w, s.q[p.j][0], s.pool);
  }

  lemma CalmGive(c: Config, s: State, i: nat, p: Plan)
    requires Crowded(c) && AllCalm(c, s) && Ready(c, s, i, p) && p.Give? && Calms(c, s.th[i], s.pool, p)
    ensures AllCalm(c, Apply(c, s, i, p).value)
  {
  }

  /** Changing the buffers one worker holds leaves the others calm. */
  lemma CalmLocal(c: Config, s: State, i: nat, p: Plan)
    requires Crowded(c) && Inv(c, s) && AllCalm(c, s) && Ready(c, s, i, p) && p.Local?
    requires Calms(c, s.th[i], s.pool, p) && Frame(s.th[i], s.pool, p.pool)
    ensures AllCalm(c, Apply(c, s, i, p).value)
  {
    Untouched(c, s, i, p.pool);
    CalmElsewhere(c, s.th, i, p.w, s.pool, p.pool);
  }

  lemma CalmElsewhere(c: Config, th: seq<Worker>, i: nat, w': Worker, pool: Pool, pool': Pool)
    requires c.Valid() && i < |th| && Calm(c, w', pool') && forall k :: 0 <= k < |th| ==> Calm(c, th[k], pool)
    requires forall k :: 0 <= k < |th| && k != i ==>
               At(pool', th[k].b) == At(pool, th[k].b) && At(pool', th[k].o) == At(pool, th[k].o)
    ensures var th' := th[i := w'];
            forall k :: 0 <= k < |th'| ==> Calm(c, th'[k], pool')
  {
    forall k | 0 <= k < |th| && k != i
      ensures Calm(c, th[k], pool')
    {
      CalmAlike(c, th[k], pool, pool');
    }
  }

  lemma CalmAlike(c: Config, w: Worker, pool: Pool, pool': Pool)
    requires c.Valid() && Calm(c, w, pool) && At(pool', w.b) == At(pool, w.b) && At(pool', w.o) == At(pool, w.o)
    ensures Calm(c, w, pool')
  {
  }

  lemma CalmStep(c: Config, s: State, i: nat, ch: Choice)
    requires Crowded(c) && Inv(c, s) && AllCalm(c, s) && Rich(s) && i < |s.th|
    requires Allowed(c, s.th[i], ch, s.pool) && Step(c, s, i, ch).Some?
    ensures AllCalm(c, Step(c, s, i, ch).value)
  {
    var w, p := s.th[i], PlanOf(c, s, s.th[i], ch);
    StepReady(c, s, i, ch);
    HeldApart(c, s, i);
    PlanConserves(c, s, w, ch);
    PlanCalms(c, s, w, ch);
    CalmApply(c, s, i, p);
  }

  lemma CalmApply(c: Config, s: State, i: nat, p: Plan)
    requires Crowded(c) && Inv(c, s) && AllCalm(c, s) && Ready(c, s, i, p) && Calms(c, s.th[i], s.pool, p)
    requires s.th[i].stage <= Last(c) && !HeldBack(c, s.th[i])
    requires p.Local? ==> Frame(s.th[i], s.pool, p.pool)
    ensures !p.Halt? ==> AllCalm(c, Apply(c, s, i, p).value)
  {
    match p
    case Take(j) =>
      if j > 0 {
        NoMarkers(c, s, j - 1);
      }
      CalmTake(c, s, i, p);
    case Give(_, _, _) => CalmGive(c, s, i, p);
    case Local(_, _, _, _, _) => CalmLocal(c, s, i, p);
    case Halt =>
  }

  // ---- The lines do not run out ----

  function Lots(c: Config): seq<seq<Tuple>>
    requires |c.n| == 4
  {
    seq(c.n[0], i => seq(Plenty(c), k => ""))
  }

  function Length(): seq<Tuple> -> nat {
    (ts: seq<Tuple>) => |ts|
  }

  function Load(): Worker -> nat {
    (w: Worker) => |w.todo| + |w.line|
  }

  /** What a thread can carry at most. */
  function MaxLoad(m: nat): Worker -> nat {
    (w: Worker) => if w.stage == 0 then m + 1 else 0
  }

  lemma {:induction false} MaxLoadTotal(th: seq<Worker>, m: nat)
    ensures Sum(th, MaxLoad(m)) == (m + 1) * Sum(th, InStage(0))
  {
    if th != [] {
      var n := |th| - 1;
      MaxLoadTotal(th[..n], m);
      assert (m + 1) * (Sum(th[..n], InStage(0)) + 1) == (m + 1) * Sum(th[..n], InStage(0)) + (m + 1);
    }
  }

  lemma LoadWithin(c: Config, s: State, i: nat)
    requires Crowded(c) && AllFit(c, s) && AllCalm(c, s) && i < |s.th|
    ensures Load()(s.th[i]) <= MaxLoad(Plenty(c))(s.th[i])
  {
    assert Calm(c, s.th[i], s.pool);
    assert Fits(c.roles[s.th[i].stage], s.th[i]);
  }

  lemma {:induction false} PoolWithin(c: Config, pool: Pool)
    requires forall i :: 0 <= i < |pool| ==> |pool[i]| <= c.tpb
    ensures Sum(pool, Length()) <= |pool| * c.tpb
  {
    if pool != [] {
      PoolWithin(c, pool[..|pool| - 1]);
      assert (|pool| - 1) * c.tpb + c.tpb == |pool| * c.tpb;
    }
  }

  /** The number of tuples, by where they are. */
  lemma TupleCount(s: State)
    requires s.sent == [] && s.dropped == []
    ensures |Tuples(s)| == Sum(s.pool, Length()) + Sum(s.th, Load())
  {
    BagSize(s.pool, Contents, Length());
    BagSize(s.th, Carried, Load());
  }

  lemma StartCount(c: Config)
    requires c.Valid()
    ensures |Tuples(Init(c, Lots(c)))| == Plenty(c) * c.n[0]
  {
    var crew := Crew(0, c.roles[0], c.n[0], Lots(c));
    TuplesStart(c, Lots(c));
    forall i | 0 <= i < |crew|
      ensures Load()(crew[i]) == Plenty(c)
    {
      assert crew[i].todo == Lots(c)[i];
    }
    SumConst(crew, Load(), Plenty(c));
    BagSize(crew, Carried, Load());
  }

  lemma PoolHolds(c: Config, s: State)
    requires Crowded(c) && AllCalm(c, s) && |s.pool| == c.ids
    ensures Sum(s.pool, Length()) <= c.ids * c.tpb
  {
    forall i | 0 <= i < |s.pool|
      ensures |s.pool[i]| <= c.tpb
    {
      assert |At(s.pool, i)| <= c.tpb;
    }
    PoolWithin(c, s.pool);
  }

  lemma LoadOf(c: Config, s: State, k: nat)
    requires Crowded(c) && AllFit(c, s) && Staffed(c, s) && AllCalm(c, s) && k < |s.th| && s.th[k].stage == 0
    ensures Sum(s.th, Load()) + (Plenty(c) + 1) <= (Plenty(c) + 1) * c.n[0] + |s.th[k].todo| + 1
  {
    forall i | 0 <= i < |s.th|
      ensures Load()(s.th[i]) <= MaxLoad(Plenty(c))(s.th[i])
    {
      LoadWithin(c, s, i);
    }
    MaxLoadTotal(s.th, Plenty(c));
    assert Sum(s.th, InStage(0)) == c.n[0];
    SumAllBut(s.th, Load(), MaxLoad(Plenty(c)), k);
    assert Fits(c.roles[0], s.th[k]);
  }

  /** No line has disappeared: it is with its reader or in a buffer. */
  ghost predicate LinesThere(c: Config, s: State)
    requires |c.n| == 4
  {
    Sum(s.pool, Length()) + Sum(s.th, Load()) == Plenty(c) * c.n[0]
  }

  lemma LinesAtStart(c: Config)
    requires c.Valid()
    ensures LinesThere(c, Init(c, Lots(c)))
  {
    StartCount(c);
    TupleCount(Init(c, Lots(c)));
  }

  lemma LinesStay(c: Config, s: State, s': State)
    requires c.Valid() && LinesThere(c, s) && Tuples(s') == Tuples(s)
    requires s.sent == [] && s.dropped == [] && s'.sent == [] && s'.dropped == []
    ensures LinesThere(c, s')
  {
    TupleCount(s);
    TupleCount(s');
  }

  lemma StaysRich(c: Config, s: State)
    requires Crowded(c) && Inv(c, s) && AllCalm(c, s) && LinesThere(c, s)
    ensures Rich(s)
  {
    PoolHolds(c, s);
    forall k | 0 <= k < |s.th| && s.th[k].stage == 0
      ensures s.th[k].todo != []
    {
      RichOne(c, s, k, Plenty(c), c.ids * c.tpb);
    }
  }

  lemma RichOne(c: Config, s: State, k: nat, m: nat, room: nat)
    requires Crowded(c) && AllFit(c, s) && Staffed(c, s) && AllCalm(c, s) && k < |s.th| && s.th[k].stage == 0
    requires m == Plenty(c) == room + c.n[0] + 1 && Sum(s.th, Load()) + room >= m * c.n[0]
    ensures s.th[k].todo != []
  {
    LoadOf(c, s, k);
    LeftOver(m, c.n[0], room, Sum(s.th, Load()), |s.th[k].todo|);
  }

  lemma LeftOver(m: nat, n: nat, room: nat, carried: nat, todo: nat)
    requires m == room + n + 1 && carried + room >= m * n && carried + (m + 1) <= (m + 1) * n + todo + 1
    ensures todo >= 1
  {
    assert (m + 1) * n == m * n + n;
  }

  // ---- Into the jam ----

  /** No event of the schedule is possible any more. */
  ghost predicate Jammed(c: Config, s: State)
    requires Shaped(c, s)
  {
    forall i, ch :: 0 <= i < |s.th| && Allowed(c, s.th[i], ch, s.pool) ==> Step(c, s, i, ch) == None
  }

  /** On the way: the invariants, and all lines still there. */
  ghost predicate OnTheWay(c: Config, s: State)
    requires Crowded(c)
  {
    Inv(c, s) && AllCalm(c, s) && LinesThere(c, s)
  }

  lemma StartsCalm(c: Config)
    requires Crowded(c)
    ensures OnTheWay(c, Init(c, Lots(c)))
  {
    var s := Init(c, Lots(c));
    InvStart(c, Lots(c));
    LinesAtStart(c);
    forall i | 0 <= i < |s.th|
      ensures Calm(c, s.th[i], s.pool)
    {
      StartCalm(c, i);
    }
    forall x
      ensures |At(s.pool, x)| <= c.tpb
    {
      assert At(s.pool, x) == [];
    }
  }

  lemma StartCalm(c: Config, i: nat)
    requires Crowded(c) && i < |Init(c, Lots(c)).th|
    ensures Calm(c, Init(c, Lots(c)).th[i], Init(c, Lots(c)).pool)
  {
  }

  lemma StaysOnTheWay(c: Config, s: State, i: nat, ch: Choice)
    requires Crowded(c) && OnTheWay(c, s) && i < |s.th| && Allowed(c, s.th[i], ch, s.pool) && Step(c, s, i, ch).Some?
    ensures OnTheWay(c, Step(c, s, i, ch).value)
  {
    StaysRich(c, s);
    CalmStep(c, s, i, ch);
    InvStep(c, s, i, ch);
    LinesStay(c, s, Step(c, s, i, ch).value);
  }

  lemma OneOnTheWay(c: Config, s: State) returns (e: Event, s': State)
    requires Crowded(c) && OnTheWay(c, s) && !Jammed(c, s)
    ensures Exec(c, s, [e]) == Some(s') && OnTheWay(c, s') && Measure(c, s') < Measure(c, s)
  {
    var i, ch :| 0 <= i < |s.th| && Allowed(c, s.th[i], ch, s.pool) && Step(c, s, i, ch) != None;
    StaysOnTheWay(c, s, i, ch);
    StepShrinks(c, s, i, ch);
    e, s' := StepAsRun(c, s, i, ch);
  }

  lemma {:induction false} RunIntoJam(c: Config, s: State) returns (run: seq<Event>, s': State)
    requires Crowded(c) && OnTheWay(c, s)
    ensures Exec(c, s, run) == Some(s') && OnTheWay(c, s') && Jammed(c, s')
    decreases Measure(c, s)
  {
    if Jammed(c, s) {
      run, s' := [], s;
    } else {
      var e, s1 := OneOnTheWay(c, s);
      run, s' := RunIntoJam(c, s1);
      ExecConcat(c, s, [e], run);
      run := [e] + run;
    }
  }

  // ---- The jam ----

  /** What a thread up to the last waits for. */
  ghost predicate Waits(c: Config, s: State, w: Worker)
    requires Shaped(c, s)
  {
    if w.stage == 0 then (w.pc.SrcTake? && s.q[0] == []) || (w.pc.SrcPush? && !HasSpace(c, s, 1))
    else if w.stage == Last(c) then HeldBack(c, w) || (w.pc.Idle? && s.q[w.stage] == [])
    else
      || ((w.pc.RpInit? || w.pc.RpRefill? || w.pc.Need?) && s.q[0] == [])
      || ((w.pc.RpFirst? || w.pc.RpNext? || w.pc.Idle?) && s.q[1] == [])
      || ((w.pc.RpFull? || w.pc.PushOut? || w.pc.Fwd?) && !HasSpace(c, s, 2))
  }

  lemma ReaderWaits(c: Config, s: State, i: nat, ch: Choice)
    requires Crowded(c) && Shaped(c, s) && i < |s.th| && s.th[i].stage == 0 && s.th[i].todo != [] && Calm(c, s.th[i], s.pool)
    requires Allowed(c, s.th[i], ch, s.pool) && Step(c, s, i, ch) == None
    ensures Waits(c, s, s.th[i])
  {
  }

  lemma SecondWaits(c: Config, s: State, i: nat, ch: Choice)
    requires Crowded(c) && Shaped(c, s) && i < |s.th| && s.th[i].stage == 1 == Last(c) - 1
    requires Calm(c, s.th[i], s.pool) && Fits(c.roles[1], s.th[i]) && Step(c, s, i, ch) == None
    ensures Waits(c, s, s.th[i])
  {
  }

  lemma LastWaits(c: Config, s: State, i: nat, ch: Choice)
    requires Crowded(c) && Shaped(c, s) && i < |s.th| && s.th[i].stage == Last(c)
    requires Calm(c, s.th[i], s.pool) && Fits(c.roles[Last(c)], s.th[i]) && (HeldBack(c, s.th[i]) || Step(c, s, i, ch) == None)
    ensures Waits(c, s, s.th[i])
  {
  }

  lemma JammedMeansBlocked(c: Config, s: State, i: nat)
    requires Crowded(c) && Inv(c, s) && AllCalm(c, s) && Rich(s) && Jammed(c, s) && i < |s.th| && s.th[i].stage <= Last(c)
    ensures Waits(c, s, s.th[i])
  {
    var w := s.th[i];
    assert Calm(c, w, s.pool) && Fits(c.roles[w.stage], w);
    var ch := if w.pc.Got? || (w.pc.SrcFill? && |At(s.pool, w.b)| >= c.tpb) then B else A;
    assert !HeldBack(c, w) ==> Allowed(c, w, ch, s.pool);
    if w.stage == 0 {
      ReaderWaits(c, s, i, ch);
    } else if w.stage == Last(c) {
      LastWaits(c, s, i, ch);
    } else {
      SecondWaits(c, s, i, ch);
    }
  }

  /** All queues up to the stage that is held back are bounded. */
  ghost predicate Tight(c: Config)
    requires Crowded(c)
  {
    Last(c) == 2 && c.cap[1] >= 1 && c.cap[2] >= 1
  }

  /** What a thread holds that waits behind nonempty queues. */
  lemma WaitingHolds(c: Config, s: State, w: Worker)
    requires Crowded(c) && Tight(c) && Shaped(c, s) && s.q[0] != [] && w.stage < 4
    requires Calm(c, w, s.pool) && Fits(c.roles[w.stage], w) && (w.stage < 3 ==> Waits(c, s, w))
    requires (w.stage >= 1 ==> s.q[1] != []) && (w.stage >= 2 ==> s.q[2] != [])
    ensures HeldWeight(One())(w) == Bound(SecondBound(c))(w)
  {
  }

  lemma WaitingFills(c: Config, s: State, w: Worker)
    requires Crowded(c) && Tight(c) && Shaped(c, s) && s.q[0] != [] && w.stage < 2 && Waits(c, s, w)
    requires |s.q[1]| <= c.cap[1] && |s.q[2]| <= c.cap[2] && (w.stage == 1 ==> s.q[1] != [])
    ensures |s.q[w.stage + 1]| == c.cap[w.stage + 1]
  {
  }

  lemma JamHolds(c: Config, s: State, i: nat)
    requires Crowded(c) && Tight(c) && Inv(c, s) && AllCalm(c, s) && Rich(s) && Jammed(c, s) && i < |s.th|
    requires s.q[0] != [] && (s.th[i].stage >= 1 ==> s.q[1] != []) && (s.th[i].stage >= 2 ==> s.q[2] != [])
    ensures HeldWeight(One())(s.th[i]) == Bound(SecondBound(c))(s.th[i])
    ensures s.th[i].stage == 0 ==> |s.q[1]| == c.cap[1]
    ensures s.th[i].stage == 1 ==> |s.q[2]| == c.cap[2]
  {
    var w := s.th[i];
    assert Calm(c, w, s.pool) && Fits(c.roles[w.stage], w);
    if w.stage < 3 {
      JammedMeansBlocked(c, s, i);
    }
    WaitingHolds(c, s, w);
    if w.stage < 2 {
      WaitingFills(c, s, w);
    }
  }

  lemma FullQueues(c: Config, s: State)
    requires Crowded(c) && Tight(c) && Inv(c, s) && AllCalm(c, s) && Rich(s) && Jammed(c, s) && s.q[0] != []
    ensures |s.q[1]| == c.cap[1] && |s.q[2]| == c.cap[2]
  {
    var k0 := SomeoneIn(c, s, 0);
    JamHolds(c, s, k0);
    var k1 := SomeoneIn(c, s, 1);
    JamHolds(c, s, k1);
  }

  /** Where a queue is unbounded, its writers only stop for want of a free buffer, or behind a full queue. */
  lemma LooseTakesAll(c: Config, s: State)
    requires Crowded(c) && !Tight(c) && Inv(c, s) && AllCalm(c, s) && Rich(s) && Jammed(c, s)
    ensures s.q[0] == []
  {
    var k0 := SomeoneIn(c, s, 0);
    JammedMeansBlocked(c, s, k0);
    if c.cap[1] != 0 {
      var k1 := SomeoneIn(c, s, 1);
      JammedMeansBlocked(c, s, k1);
    }
  }

  lemma {:induction false} AllOnes(q: seq<int>)
    requires END !in q
    ensures Sum(q, One()) == |q|
  {
    if q != [] {
      AllOnes(q[..|q| - 1]);
    }
  }

  /** The counting argument, backwards: in the jam no id is free. */
  lemma JamTakesAll(c: Config, s: State)
    requires Crowded(c) && Inv(c, s) && AllCalm(c, s) && Rich(s) && Jammed(c, s)
    ensures s.q[0] == []
  {
    if !Tight(c) {
      LooseTakesAll(c, s);
    } else if s.q[0] != [] {
      FullQueues(c, s);
      JamHoldsAll(c, s);
      HandsFull(c, s);
      QueuesWeigh(c, s);
    }
  }

  /** Every thread holds what it can. */
  ghost predicate HandsHeld(c: Config, s: State)
    requires |c.roles| == 4
  {
    forall i :: 0 <= i < |s.th| ==> HeldWeight(One())(s.th[i]) == Bound(SecondBound(c))(s.th[i])
  }

  lemma JamHoldsAll(c: Config, s: State)
    requires Crowded(c) && Tight(c) && Inv(c, s) && AllCalm(c, s) && Rich(s) && Jammed(c, s)
    requires s.q[0] != [] && s.q[1] != [] && s.q[2] != []
    ensures HandsHeld(c, s)
  {
    forall i | 0 <= i < |s.th|
      ensures HeldWeight(One())(s.th[i]) == Bound(SecondBound(c))(s.th[i])
    {
      JamHolds(c, s, i);
    }
  }

  lemma HandsFull(c: Config, s: State)
    requires c.Valid() && Staffed(c, s) && HandsHeld(c, s)
    ensures Sum(s.th, HeldWeight(One())) == Hands(c)
  {
    SumSame(s.th, HeldWeight(One()), Bound(SecondBound(c)));
    BoundTotal(s.th, SecondBound(c));
    assert Sum(s.th, InStage(0)) == c.n[0] && Sum(s.th, InStage(1)) == c.n[1] && Sum(s.th, InStage(2)) == c.n[2];
  }

  lemma QueuesWeigh(c: Config, s: State)
    requires Crowded(c) && Inv(c, s) && AllCalm(c, s)
    ensures Sum(s.q, QueueWeight(One())) == |s.q[0]| + |s.q[1]| + |s.q[2]|
  {
    NoMarkers(c, s, 0);
    NoMarkers(c, s, 1);
    AllOnes(s.q[0]);
    AllOnes(s.q[1]);
    AllOnes(s.q[2]);
    SumFour(s.q, QueueWeight(One()));
  }

  lemma JamIsStuck(c: Config, s: State)
    requires Crowded(c) && Inv(c, s) && AllCalm(c, s) && Rich(s) && Jammed(c, s) && s.q[0] == []
    ensures Stuck(c, s)
  {
    forall i, ch | 0 <= i < |s.th|
      ensures Step(c, s, i, ch) == None
    {
      assert Calm(c, s.th[i], s.pool) && Fits(c.roles[s.th[i].stage], s.th[i]);
      if s.th[i].stage <= Last(c) {
        JammedMeansBlocked(c, s, i);
      }
      ThreadStuck(c, s, i, ch);
    }
  }

  lemma ThreadStuck(c: Config, s: State, i: nat, ch: Choice)
    requires Crowded(c) && Shaped(c, s) && s.q[0] == [] && s.q[3] == [] && (Last(c) == 1 ==> s.q[2] == []) && i < |s.th|
    requires s.th[i].stage < 4 && Calm(c, s.th[i], s.pool) && Fits(c.roles[s.th[i].stage], s.th[i])
    requires s.th[i].stage <= Last(c) ==> Waits(c, s, s.th[i])
    ensures Step(c, s, i, ch) == None
  {
  }

  lemma JamEnds(c: Config, s: State)
    requires Crowded(c) && OnTheWay(c, s) && Jammed(c, s)
    ensures Stuck(c, s) && NoUndef(s) && !SinksDone(s) && s.sent == []
  {
    StaysRich(c, s);
    JamTakesAll(c, s);
    JamIsStuck(c, s);
    var k := SomeoneIn(c, s, 3);
    assert Calm(c, s.th[k], s.pool);
    forall i | 0 <= i < |s.th|
      ensures !s.th[i].pc.Undef?
    {
      assert Calm(c, s.th[i], s.pool);
    }
  }

  /** A crowded pipeline can get stuck with its input undelivered. */
  lemma DeadlockReachable(c: Config) returns (run: seq<Event>)
    requires Crowded(c)
    ensures Exec(c, Init(c, Lots(c)), run).Some?
    ensures var s := Exec(c, Init(c, Lots(c)), run).value;
            Stuck(c, s) && NoUndef(s) && !SinksDone(s) && s.sent == []
  {
    StartsCalm(c);
    var s;
    run, s := RunIntoJam(c, Init(c, Lots(c)));
    JamEnds(c, s);
  }
}
