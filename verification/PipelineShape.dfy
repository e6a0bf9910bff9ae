/** What is true of one worker by itself: it stands at a point of its role's program, and its
    registers are full exactly where that program says so. */
module PipelineShape {
  import opened Pipeline

  predicate HasB(pc: Pc) {
    pc.SrcFill? || pc.SrcPush? || pc.SrcLast? || pc.Got? || pc.Fwd? || pc.Need? || pc.Both? || pc.PushOut?
    || pc.Drop? || pc.RpWork? || pc.RpFull? || pc.RpRefill? || pc.RpRel?
    || pc.ExWork? || pc.ExSpill? || pc.ExRefill? || pc.ExFill?
  }

  predicate HasO(pc: Pc) {
    pc.Both? || pc.PushOut? || pc.Rel? || pc.Drop? || pc.RpFirst? || pc.RpWork? || pc.RpFull? || pc.RpRel?
    || pc.RpNext? || pc.RpLast? || pc.ExWork? || pc.ExSpill? || pc.ExFill? || pc.Undef?
  }

  predicate HasLine(pc: Pc) {
    pc.SrcTake? || pc.SrcFill? || pc.SrcPush? || pc.ExSpill? || pc.ExRefill? || pc.ExFill?
  }

  predicate Reading(pc: Pc) {
    pc.SrcTake? || pc.SrcFill? || pc.SrcPush?
  }

  /** The worker has passed its `fetch_add`. */
  predicate Counted(pc: Pc) {
    pc.Test? || pc.Sent? || pc.Done? || pc.DoneSent?
  }

  /** The worker has popped an end marker. */
  predicate Ended(pc: Pc) {
    pc.RpLast? || Ending(pc)
  }

  predicate Legal(role: Role, pc: Pc) {
    match role
    case Source(_) => pc.SrcTake? || pc.SrcFill? || pc.SrcPush? || pc.SrcLast? || pc.Inc? || Counted(pc)
    case Forward => pc.Idle? || pc.Got? || pc.Fwd? || pc.Inc? || Counted(pc)
    case Swap(decoding) => pc.Idle? || pc.Got? || pc.Need? || pc.Both? || pc.PushOut? || pc.Rel?
                           || (decoding && (pc.Fwd? || pc.Drop?)) || pc.Inc? || Counted(pc)
    case Repack => pc.RpInit? || pc.RpFirst? || pc.RpWork? || pc.RpFull? || pc.RpRefill? || pc.RpRel?
                   || pc.RpNext? || pc.RpLast? || pc.Undef? || pc.Inc? || Counted(pc)
    case Expand => pc.Idle? || pc.Got? || pc.Need? || pc.PushOut? || pc.Rel?
                   || pc.ExWork? || pc.ExSpill? || pc.ExRefill? || pc.ExFill? || pc.Inc? || Counted(pc)
    case Sink => pc.Idle? || pc.Got? || pc.Rel? || pc.Done?
  }

  predicate Fits(role: Role, w: Worker) {
    && Legal(role, w.pc)
    && (w.b != END <==> HasB(w.pc))
    && (w.pc.Inc? || Counted(w.pc) || (w.o != END <==> HasO(w.pc)))
    && (HasLine(w.pc) || w.line == [])
    && (Reading(w.pc) || w.todo == [])
    && |w.line| <= 1
    && (w.pc.ExSpill? || w.pc.ExRefill? || w.pc.ExFill? ==> |w.line| == 1)
    && (w.pc.Sent? || w.k == 0)
    && (role.Sink? || role.Forward? || role.Swap? || role.Expand? ==> (Ending(w.pc) ==> w.o == END))
  }

  predicate Stops(pc: Pc) {
    pc.Idle? || pc.RpFirst? || pc.RpNext?
  }

  predicate Receives(pc: Pc) {
    pc.SrcTake? || pc.Need? || pc.RpInit? || pc.RpRefill? || pc.ExRefill? || Stops(pc)
  }

  predicate GivesData(pc: Pc) {
    pc.SrcPush? || pc.SrcLast? || pc.Fwd? || pc.PushOut? || pc.RpFull? || pc.RpLast? || pc.ExSpill?
  }

  predicate Frees(pc: Pc) {
    pc.Rel? || pc.Drop? || pc.RpRel?
  }

  /** What the rest of the development needs to know about a plan, besides its effect on tuples. */
  predicate Sound(role: Role, w: Worker, p: Plan) {
    match p
    case Take(j) => Receives(w.pc) && j == (if Stops(w.pc) then w.stage else 0)
    case Give(j, x, w') =>
      && Fits(role, w') && w'.stage == w.stage
      && (if w.pc.Sent? then j == w.stage + 1 && x == END && w.k > 0 && w' == w.(k := w.k - 1)
          else
            && x != END && w'.k == w.k && w'.todo == w.todo && w'.line == w.line && !Ending(w.pc)
            && (w'.pc.Inc? || !Ended(w'.pc)) && !w'.pc.RpInit? && !w'.pc.RpFirst? && (w'.pc.Inc? <==> w.pc.SrcLast? || w.pc.RpLast?)
            && (Frees(w.pc) || GivesData(w.pc))
            && j == (if Frees(w.pc) then 0 else w.stage + 1)
            && ((x == w.b && w'.b == END && w'.o == w.o) || (x == w.o && w'.o == END && w'.b == w.b)))
    case Bump(w') => w.pc.Inc? && w' == w.(pc := Test)
    case Local(w', _, _, _, lost) =>
      && Fits(role, w') && w'.stage == w.stage
      && ((w'.b == w.b && w'.o == w.o && lost == [])
          || (w'.b == w.o && w'.o == w.b && lost == [])
          || (w'.b == END && w'.o == w.b && lost == [w.o]))
    case Halt => true
  }

  lemma FillSound(keepsLast: bool, w: Worker, ch: Choice, pool: Pool)
    requires Fits(Source(keepsLast), w) && w.stage == 0 && w.pc.SrcFill?
    ensures Sound(Source(keepsLast), w, PlanSource(keepsLast, w, ch, pool))
  {
  }

  lemma SourceSound(keepsLast: bool, w: Worker, ch: Choice, pool: Pool)
    requires Fits(Source(keepsLast), w) && w.stage == 0
    ensures Sound(Source(keepsLast), w, PlanSource(keepsLast, w, ch, pool))
  {
    if w.pc.SrcFill? {
      FillSound(keepsLast, w, ch, pool);
    }
  }

  lemma ForwardSound(w: Worker, pool: Pool)
    requires Fits(Forward, w)
    ensures Sound(Forward, w, PlanForward(w, pool))
  {
  }

  lemma BothSound(decoding: bool, w: Worker, ch: Choice, pool: Pool)
    requires Fits(Swap(decoding), w) && w.pc.Both?
    ensures Sound(Swap(decoding), w, PlanSwap(decoding, w, ch, pool))
  {
  }

  lemma SwapGives(decoding: bool, w: Worker, ch: Choice, pool: Pool)
    requires Fits(Swap(decoding), w) && (w.pc.Fwd? || w.pc.PushOut? || w.pc.Drop? || w.pc.Rel?)
    ensures Sound(Swap(decoding), w, PlanSwap(decoding, w, ch, pool))
  {
  }

  lemma SwapSound(decoding: bool, w: Worker, ch: Choice, pool: Pool)
    requires Fits(Swap(decoding), w)
    ensures Sound(Swap(decoding), w, PlanSwap(decoding, w, ch, pool))
  {
    if w.pc.Both? {
      BothSound(decoding, w, ch, pool);
    } else if w.pc.Fwd? || w.pc.PushOut? || w.pc.Drop? || w.pc.Rel? {
      SwapGives(decoding, w, ch, pool);
    }
  }

  lemma RepackGives(tpb: nat, w: Worker, pool: Pool)
    requires Fits(Repack, w) && (w.pc.RpFull? || w.pc.RpRel? || w.pc.RpLast?)
    ensures Sound(Repack, w, PlanRepack(tpb, w, pool))
  {
  }

  lemma RepackSound(tpb: nat, w: Worker, pool: Pool)
    requires Fits(Repack, w)
    ensures Sound(Repack, w, PlanRepack(tpb, w, pool))
  {
    if w.pc.RpFull? || w.pc.RpRel? || w.pc.RpLast? {
      RepackGives(tpb, w, pool);
    }
  }

  lemma ExWorkSound(w: Worker, ch: Choice, pool: Pool)
    requires Fits(Expand, w) && (w.pc.ExWork? || w.pc.ExFill?)
    ensures Sound(Expand, w, PlanExpand(w, ch, pool))
  {
  }

  lemma ExpandSound(w: Worker, ch: Choice, pool: Pool)
    requires Fits(Expand, w)
    ensures Sound(Expand, w, PlanExpand(w, ch, pool))
  {
    if w.pc.ExWork? || w.pc.ExFill? {
      ExWorkSound(w, ch, pool);
    }
  }

  lemma SinkSound(w: Worker, pool: Pool)
    requires Fits(Sink, w)
    ensures Sound(Sink, w, PlanSink(w, pool))
  {
  }

  lemma EndSound(role: Role, downstream: nat, last: bool, w: Worker, pool: Pool)
    requires Fits(role, w) && !role.Sink?
    ensures Sound(role, w, PlanEnd(downstream, last, w, pool))
  {
  }

  /** Every plan of a fitting worker is sound. */
  lemma PlanSound(c: Config, s: State, w: Worker, ch: Choice)
    requires c.Valid() && |s.count| == 4 && w.stage < 4 && Fits(c.roles[w.stage], w)
    ensures Sound(c.roles[w.stage], w, PlanOf(c, s, w, ch))
  {
    if Ending(w.pc) {
      if w.stage < 3 {
        EndSound(c.roles[w.stage], c.n[w.stage + 1], s.count[w.stage] == c.n[w.stage], w, s.pool);
      }
    } else {
      match c.roles[w.stage]
      case Source(keepsLast) => SourceSound(keepsLast, w, ch, s.pool);
      case Forward => ForwardSound(w, s.pool);
      case Swap(decoding) => SwapSound(decoding, w, ch, s.pool);
      case Repack => RepackSound(c.tpb, w, s.pool);
      case Expand => ExpandSound(w, ch, s.pool);
      case Sink => SinkSound(w, s.pool);
    }
  }

  /** What popping `x` makes of a worker. */
  predicate Received(role: Role, w: Worker, x: int, w': Worker) {
    && Fits(role, w') && w'.stage == w.stage && w'.k == 0
    && w'.todo == w.todo && w'.line == w.line
    && (Ended(w'.pc) <==> x == END) && !Ended(w.pc)
    && (if x == END then w'.b == w.b && w'.o == w.o && (w'.pc.Inc? || w'.pc.RpLast? || w'.pc.Undef? || role.Sink?)
        else (w'.b == x && w.b == END && w'.o == w.o) || (w'.o == x && w.o == END && w'.b == w.b))
  }

  lemma MarkerFits(role: Role, w: Worker, pool: Pool)
    requires Fits(role, w) && Stops(w.pc)
    ensures Received(role, w, END, Receive(role, w, END, pool))
  {
  }

  lemma InputFits(role: Role, w: Worker, x: int, pool: Pool)
    requires Fits(role, w) && Stops(w.pc) && x != END
    ensures Received(role, w, x, Receive(role, w, x, pool))
  {
  }

  lemma FreeFits(role: Role, w: Worker, x: int, pool: Pool)
    requires Fits(role, w) && Receives(w.pc) && !Stops(w.pc) && x != END
    ensures Received(role, w, x, Receive(role, w, x, pool))
  {
  }

  lemma ReceiveFits(role: Role, w: Worker, x: int, pool: Pool)
    requires Fits(role, w) && Receives(w.pc) && (x == END ==> Stops(w.pc))
    ensures Received(role, w, x, Receive(role, w, x, pool))
  {
    if x == END {
      MarkerFits(role, w, pool);
    } else if Stops(w.pc) {
      InputFits(role, w, x, pool);
    } else {
      FreeFits(role, w, x, pool);
    }
  }

  // ---- Every worker of a reachable state fits ----

  ghost predicate AllFit(c: Config, s: State)
    requires c.Valid()
  {
    forall i :: 0 <= i < |s.th| ==> s.th[i].stage < 4 && Fits(c.roles[s.th[i].stage], s.th[i])
  }

  /** The queues that feed a stage, and the free queue, hold what they should: only ids are free. */
  ghost predicate FreeIds(s: State) {
    |s.q| == 4 && END !in s.q[0]
  }

  lemma FitStart(c: Config, input: seq<seq<Tuple>>)
    requires c.Valid()
    ensures AllFit(c, Init(c, input)) && FreeIds(Init(c, input))
  {
  }

  /** Thread `i` of a state whose workers all fit carries out a sound plan. */
  ghost predicate Ready(c: Config, s: State, i: nat, p: Plan)
    requires c.Valid()
  {
    && Shaped(c, s) && AllFit(c, s) && FreeIds(s) && i < |s.th|
    && Sound(c.roles[s.th[i].stage], s.th[i], p)
    && Apply(c, s, i, p).Some?
  }

  lemma FitApply(c: Config, s: State, i: nat, p: Plan)
    requires c.Valid() && Ready(c, s, i, p)
    ensures var s', w := Apply(c, s, i, p).value, s.th[i];
            && AllFit(c, s') && FreeIds(s') && s'.th == s.th[i := s'.th[i]]
            && s'.th[i].stage == w.stage
            && (p.Take? ==> s'.th[i] == Receive(c.roles[w.stage], w, s.q[p.j][0], s.pool)
                            && (s.q[p.j][0] == END ==> Stops(w.pc)))
  {
    if p.Take? {
      var w := s.th[i];
      ReceiveFits(c.roles[w.stage], w, s.q[p.j][0], s.pool);
    }
  }

  lemma StepReady(c: Config, s: State, i: nat, ch: Choice)
    requires c.Valid() && Shaped(c, s) && AllFit(c, s) && FreeIds(s) && i < |s.th| && Step(c, s, i, ch).Some?
    ensures Ready(c, s, i, PlanOf(c, s, s.th[i], ch))
  {
    PlanSound(c, s, s.th[i], ch);
  }
}
