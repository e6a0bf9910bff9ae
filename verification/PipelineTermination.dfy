/** Every run is finite: each step makes the pipeline lighter.  The weight of a tuple, a buffer or a
    worker is the number of steps it can still cause. */
module PipelineTermination {
  import opened Sums
  import opened Pipeline
  import opened PipelineShape
  import opened PipelineOwnership
  import opened PipelineContents
  import opened PipelineProgress

  function Times(k: nat, d: nat): nat {
    if k == 0 then 0 else Times(k - 1, d) + d
  }

  lemma {:induction false} TimesGap(k: nat, d: nat, e: nat)
    requires k >= 1
    ensures Times(k, d + e) >= Times(k, d) + e
  {
    if k > 1 {
      TimesGap(k - 1, d, e);
    }
  }

  /** A buffer of `k` tuples in the queue of stage `l` weighs `Fix(c, l) + Times(k, Per(c, l))`. */
  function Fix(c: Config, l: nat): nat
    decreases 4 - l
  {
    if l >= 4 || l >= |c.roles| then 0
    else match c.roles[l]
      case Repack => 4
      case Expand => Fix(c, l + 1) + 9
      case _ => Fix(c, l + 1) + 8
  }

  function Per(c: Config, l: nat): nat
    decreases 4 - l
  {
    if l >= 4 || l >= |c.roles| then 0
    else match c.roles[l]
      case Repack => Fix(c, l + 1) + Per(c, l + 1) + 9
      case Expand => Fix(c, l + 1) + Per(c, l + 1) + 8
      case _ => Per(c, l + 1)
  }

  function SlotLoad(c: Config, l: nat, pool: Pool): int -> nat {
    (x: int) => if x == END then 1 else Fix(c, l) + Times(|At(pool, x)|, Per(c, l))
  }

  /** What a worker may still do after its last buffer. */
  function EndLoad(downstream: nat, sink: bool, w: Worker): nat {
    if w.pc.Inc? then 2 * downstream + 4
    else if w.pc.Test? then 2 * downstream + 3
    else if w.pc.Sent? then 2 * w.k + 1
    else if w.pc.Done? || w.pc.DoneSent? || w.pc.Undef? then 0
    else if sink then 1
    else 2 * downstream + 5
  }

  /** What the buffers and tuples in a worker's hands may still cause; `f` and `d` are the fixed and
      per-tuple weights of the queue it feeds, `k` and `m` the numbers of tuples in `b` and `o`. */
  function HandLoad(f: nat, d: nat, expand: bool, w: Worker, k: nat, m: nat): nat {
    var full := f + d + 8;
    match w.pc
    case SrcTake => Times(|w.todo|, full + f + 8) + Times(|w.line|, full + 1) + f + 6
    case SrcFill => Times(|w.todo|, full + f + 8) + Times(|w.line|, full + 1) + Times(k, full) + f + 4
    case SrcPush => Times(|w.todo|, full + f + 8) + Times(|w.line|, full + 1) + Times(k, d) + f + f + 7
    case SrcLast => Times(k, d) + f + 1
    case Got => if expand then f + Times(k, full) + 8 else f + Times(k, d) + 7
    case Need => if expand then f + Times(k, full) + 7 else f + Times(k, d) + 6
    case Fwd => f + Times(k, d) + 1
    case Both => f + Times(k, d) + 5
    case PushOut => f + Times(k, d) + 3
    case Rel => 1
    case Drop => 2
    case RpInit => 3
    case RpFirst => Times(m, full) + 2
    case RpWork => Times(k, full + 1) + Times(m, full) + 5
    case RpFull => Times(k, full + 1) + Times(m, full) + 4
    case RpRefill => Times(k, full + 1) + 6
    case RpRel => Times(m, full) + 4
    case RpNext => Times(m, full) + 2
    case RpLast => Times(m, full) + 1
    case ExWork => Times(k, full) + Times(m, d) + f + 5
    case ExSpill => Times(k, full) + Times(m, d) + f + d + f + 8
    case ExRefill => Times(k, full) + d + f + 7
    case ExFill => Times(k, full) + Times(m, d) + d + f + 6
    case _ => 0
  }

  function WorkerLoad(f: nat, d: nat, expand: bool, downstream: nat, sink: bool, w: Worker, pool: Pool): nat {
    EndLoad(downstream, sink, w) + HandLoad(f, d, expand, w, |At(pool, w.b)|, |At(pool, w.o)|)
  }

  function Load(c: Config, pool: Pool): Worker -> nat
    requires |c.n| == |c.roles| == 4
  {
    (w: Worker) =>
      WorkerLoad(Fix(c, w.stage + 1), Per(c, w.stage + 1), w.stage < 4 && c.roles[w.stage].Expand?,
                 if w.stage < 3 then c.n[w.stage + 1] else 0, w.stage >= 3, w, pool)
  }

  ghost function QueueLoad(c: Config, s: State, l: nat): nat
    requires |s.q| == 4 && l < 4
  {
    if l == 0 then 0 else Sum(s.q[l], SlotLoad(c, l, s.pool))
  }

  ghost function Measure(c: Config, s: State): nat
    requires c.Valid() && |s.q| == 4
  {
    QueueLoad(c, s, 1) + QueueLoad(c, s, 2) + QueueLoad(c, s, 3) + Sum(s.th, Load(c, s.pool))
  }

  // ---- One worker ----

  ghost predicate Lightens(f: nat, d: nat, expand: bool, downstream: nat, sink: bool, w: Worker, pool: Pool, p: Plan) {
    var before := WorkerLoad(f, d, expand, downstream, sink, w, pool);
    match p
    case Take(_) => true
    case Give(j, x, w') =>
      WorkerLoad(f, d, expand, downstream, sink, w', pool)
      + (if j == 0 then 0 else if x == END then 1 else f + Times(|At(pool, x)|, d)) < before
    case Bump(w') => WorkerLoad(f, d, expand, downstream, sink, w', pool) < before
    case Local(w', pool', _, _, _) => WorkerLoad(f, d, expand, downstream, sink, w', pool') < before
    case Halt => true
  }

  lemma LineWrittenLightens(f: nat, d: nat, n: nat, w: Worker, pool: Pool, w': Worker, ts: seq<Tuple>)
    requires Apart(w, pool) && w.pc.SrcFill? && w.b != END && |ts| == 1 && w'.pc.SrcFill? && w'.b == w.b && w'.o == w.o
    requires (w'.todo == w.todo && |w.line| == 1 && w'.line == []) || (w.todo != [] && w'.todo == w.todo[1..] && w'.line == w.line)
    ensures Lightens(f, d, false, n, false, w, pool, Become(w', Put(pool, w.b, At(pool, w.b) + ts)))
  {
    var k := |At(pool, w.b)|;
    assert Times(k + 1, f + d + 8) == Times(k, f + d + 8) + f + d + 8;
    assert Times(1, f + d + 9) == Times(0, f + d + 9) + f + d + 9;
    TupleArrives(pool, w.b, ts);
  }

  lemma SourceFillLightens(keepsLast: bool, f: nat, d: nat, n: nat, w: Worker, ch: Choice, pool: Pool)
    requires Fits(Source(keepsLast), w) && Apart(w, pool) && w.pc.SrcFill?
    ensures Lightens(f, d, false, n, false, w, pool, PlanSource(keepsLast, w, ch, pool))
  {
    var k := |At(pool, w.b)|;
    if k >= 1 {
      TimesGap(k, d, f + 8);
      assert d + (f + 8) == f + d + 8;
    }
    if w.line != [] {
      LineWrittenLightens(f, d, n, w, pool, w.(line := []), w.line);
    } else if w.todo != [] {
      if ch.A? {
        LineWrittenLightens(f, d, n, w, pool, w.(todo := w.todo[1..]), [w.todo[0]]);
      } else {
        assert Times(1, f + d + 9) == Times(0, f + d + 9) + f + d + 9;
      }
    }
  }

  lemma SourceLightens(keepsLast: bool, f: nat, d: nat, n: nat, w: Worker, ch: Choice, pool: Pool)
    requires Fits(Source(keepsLast), w) && Apart(w, pool)
    ensures Lightens(f, d, false, n, false, w, pool, PlanSource(keepsLast, w, ch, pool)) || Ending(w.pc)
  {
    if w.pc.SrcFill? {
      SourceFillLightens(keepsLast, f, d, n, w, ch, pool);
    }
  }

  lemma ForwardLightens(f: nat, d: nat, n: nat, w: Worker, pool: Pool)
    requires Fits(Forward, w)
    ensures Lightens(f, d, false, n, false, w, pool, PlanForward(w, pool)) || Ending(w.pc)
  {
  }

  lemma SwapLightens(decoding: bool, f: nat, d: nat, n: nat, w: Worker, ch: Choice, pool: Pool)
    requires Fits(Swap(decoding), w) && Apart(w, pool)
    ensures Lightens(f, d, false, n, false, w, pool, PlanSwap(decoding, w, ch, pool)) || Ending(w.pc)
  {
    if w.pc.Both? {
      BothLightens(decoding, f, d, n, w, ch, pool);
    }
  }

  lemma BothLightens(decoding: bool, f: nat, d: nat, n: nat, w: Worker, ch: Choice, pool: Pool)
    requires Fits(Swap(decoding), w) && Apart(w, pool) && w.pc.Both?
    ensures Lightens(f, d, false, n, false, w, pool, PlanSwap(decoding, w, ch, pool))
  {
  }

  lemma RpWorkLightens(f: nat, d: nat, n: nat, tpb: nat, w: Worker, pool: Pool)
    requires Fits(Repack, w) && Apart(w, pool) && w.pc.RpWork?
    ensures Lightens(f, d, false, n, false, w, pool, PlanRepack(tpb, w, pool))
  {
    if At(pool, w.b) != [] {
      var m := |At(pool, w.o)|;
      TupleMoves(pool, w.b, w.o);
      assert Times(m + 1, f + d + 8) == Times(m, f + d + 8) + f + d + 8;
    }
  }

  lemma RepackLightens(f: nat, d: nat, n: nat, tpb: nat, w: Worker, pool: Pool)
    requires Fits(Repack, w) && Apart(w, pool) && Tidy(w, pool)
    ensures Lightens(f, d, false, n, false, w, pool, PlanRepack(tpb, w, pool)) || Ending(w.pc)
  {
    if w.pc.RpWork? {
      RpWorkLightens(f, d, n, tpb, w, pool);
    } else if w.pc.RpFull? || w.pc.RpLast? {
      TimesGap(|At(pool, w.o)|, d, f + 8);
      assert d + (f + 8) == f + d + 8;
    }
  }

  lemma ExWorkLightens(f: nat, d: nat, n: nat, w: Worker, ch: Choice, pool: Pool)
    requires Fits(Expand, w) && Apart(w, pool) && w.pc.ExWork?
    ensures Lightens(f, d, true, n, false, w, pool, PlanExpand(w, ch, pool))
  {
    if At(pool, w.b) != [] {
      if ch.A? {
        ExMoveLightens(f, d, n, w, pool);
      } else {
        ExTakeLightens(f, d, n, w, pool);
      }
    }
  }

  lemma ExTakeLightens(f: nat, d: nat, n: nat, w: Worker, pool: Pool)
    requires Apart(w, pool) && w.pc.ExWork? && w.b != END && w.o != END && At(pool, w.b) != []
    ensures Lightens(f, d, true, n, false, w, pool,
                     Become(w.(pc := ExSpill, line := [At(pool, w.b)[0]]), Put(pool, w.b, At(pool, w.b)[1..])))
  {
    TupleLeaves(pool, w.b);
  }

  lemma ExMoveLightens(f: nat, d: nat, n: nat, w: Worker, pool: Pool)
    requires Apart(w, pool) && w.pc.ExWork? && w.b != END && w.o != END && At(pool, w.b) != []
    ensures Lightens(f, d, true, n, false, w, pool,
                     Become(w, Put(Put(pool, w.b, At(pool, w.b)[1..]), w.o, At(pool, w.o) + [At(pool, w.b)[0]])))
  {
    var m := |At(pool, w.o)|;
    assert Times(m + 1, d) == Times(m, d) + d;
    TupleMoves(pool, w.b, w.o);
  }

  lemma ExFillLightens(f: nat, d: nat, n: nat, w: Worker, pool: Pool)
    requires Apart(w, pool) && w.pc.ExFill? && w.b != END && w.o != END && |w.line| == 1
    ensures Lightens(f, d, true, n, false, w, pool, Become(w.(pc := ExWork, line := []), Put(pool, w.o, At(pool, w.o) + w.line)))
  {
    var m := |At(pool, w.o)|;
    assert Times(m + 1, d) == Times(m, d) + d;
    TupleArrives(pool, w.o, w.line);
  }

  lemma ExpandLightens(f: nat, d: nat, n: nat, w: Worker, ch: Choice, pool: Pool)
    requires Fits(Expand, w) && Apart(w, pool)
    ensures Lightens(f, d, true, n, false, w, pool, PlanExpand(w, ch, pool)) || Ending(w.pc)
  {
    if w.pc.ExWork? {
      ExWorkLightens(f, d, n, w, ch, pool);
    } else if w.pc.ExFill? {
      ExFillLightens(f, d, n, w, pool);
    }
  }

  lemma SinkLightens(w: Worker, pool: Pool)
    requires Fits(Sink, w) && Apart(w, pool)
    ensures Lightens(0, 0, false, 0, true, w, pool, PlanSink(w, pool)) || Ending(w.pc)
  {
  }

  lemma EndLightens(f: nat, d: nat, expand: bool, n: nat, last: bool, w: Worker, pool: Pool)
    requires Ending(w.pc)
    ensures Lightens(f, d, expand, n, false, w, pool, PlanEnd(n, last, w, pool))
  {
  }

  ghost predicate PlanLight(c: Config, w: Worker, pool: Pool, p: Plan)
    requires c.Valid() && w.stage < 4
  {
    Lightens(Fix(c, w.stage + 1), Per(c, w.stage + 1), c.roles[w.stage].Expand?,
             if w.stage < 3 then c.n[w.stage + 1] else 0, w.stage >= 3, w, pool, p)
  }

  lemma SourcePlanLight(c: Config, w: Worker, ch: Choice, pool: Pool)
    requires c.Valid() && w.stage < 4 && !Ending(w.pc) && c.roles[w.stage].Source? && Fits(c.roles[w.stage], w) && Apart(w, pool)
    ensures PlanLight(c, w, pool, PlanSource(c.roles[w.stage].keepsLast, w, ch, pool))
  {
    SourceLightens(c.roles[w.stage].keepsLast, Fix(c, w.stage + 1), Per(c, w.stage + 1), c.n[w.stage + 1], w, ch, pool);
  }

  lemma ForwardPlanLight(c: Config, w: Worker, pool: Pool)
    requires c.Valid() && w.stage < 4 && !Ending(w.pc) && c.roles[w.stage].Forward? && Fits(c.roles[w.stage], w)
    ensures PlanLight(c, w, pool, PlanForward(w, pool))
  {
    ForwardLightens(Fix(c, w.stage + 1), Per(c, w.stage + 1), c.n[w.stage + 1], w, pool);
  }

  lemma SwapPlanLight(c: Config, w: Worker, ch: Choice, pool: Pool)
    requires c.Valid() && w.stage < 4 && !Ending(w.pc) && c.roles[w.stage].Swap? && Fits(c.roles[w.stage], w) && Apart(w, pool)
    ensures PlanLight(c, w, pool, PlanSwap(c.roles[w.stage].decoding, w, ch, pool))
  {
    SwapLightens(c.roles[w.stage].decoding, Fix(c, w.stage + 1), Per(c, w.stage + 1), c.n[w.stage + 1], w, ch, pool);
  }

  lemma RepackPlanLight(c: Config, w: Worker, pool: Pool)
    requires c.Valid() && w.stage < 4 && !Ending(w.pc) && c.roles[w.stage].Repack? && Fits(c.roles[w.stage], w)
    requires Tidy(w, pool) && Apart(w, pool)
    ensures PlanLight(c, w, pool, PlanRepack(c.tpb, w, pool))
  {
    RepackLightens(Fix(c, w.stage + 1), Per(c, w.stage + 1), c.n[w.stage + 1], c.tpb, w, pool);
  }

  lemma ExpandPlanLight(c: Config, w: Worker, ch: Choice, pool: Pool)
    requires c.Valid() && w.stage < 4 && !Ending(w.pc) && c.roles[w.stage].Expand? && Fits(c.roles[w.stage], w) && Apart(w, pool)
    ensures PlanLight(c, w, pool, PlanExpand(w, ch, pool))
  {
    ExpandLightens(Fix(c, w.stage + 1), Per(c, w.stage + 1), c.n[w.stage + 1], w, ch, pool);
  }

  lemma SinkPlanLight(c: Config, w: Worker, pool: Pool)
    requires c.Valid() && w.stage < 4 && !Ending(w.pc) && c.roles[w.stage].Sink? && Fits(c.roles[w.stage], w) && Apart(w, pool)
    ensures PlanLight(c, w, pool, PlanSink(w, pool))
  {
    SinkLightens(w, pool);
  }

  lemma PlanLightens(c: Config, s: State, w: Worker, ch: Choice)
    requires c.Valid() && |s.count| == 4 && w.stage < 4
    requires Fits(c.roles[w.stage], w) && Tidy(w, s.pool) && Apart(w, s.pool)
    ensures PlanLight(c, w, s.pool, PlanOf(c, s, w, ch))
  {
    if Ending(w.pc) {
      if w.stage < 3 {
        EndLightens(Fix(c, w.stage + 1), Per(c, w.stage + 1), c.roles[w.stage].Expand?, c.n[w.stage + 1],
                    s.count[w.stage] == c.n[w.stage], w, s.pool);
      }
    } else {
      match c.roles[w.stage]
      case Source(_) => SourcePlanLight(c, w, ch, s.pool);
      case Forward => ForwardPlanLight(c, w, s.pool);
      case Swap(_) => SwapPlanLight(c, w, ch, s.pool);
      case Repack => RepackPlanLight(c, w, s.pool);
      case Expand => ExpandPlanLight(c, w, ch, s.pool);
      case Sink => SinkPlanLight(c, w, s.pool);
    }
  }

  /** Popping a free buffer: its weight is zero, and the worker gets on. */
  lemma FreeLightens(f: nat, d: nat, role: Role, n: nat, w: Worker, x: int, pool: Pool)
    requires Fits(role, w) && Receives(w.pc) && !Stops(w.pc) && x != END && At(pool, x) == []
    ensures var w' := Receive(role, w, x, pool);
            WorkerLoad(f, d, role.Expand?, n, false, w', pool)
            < WorkerLoad(f, d, role.Expand?, n, false, w, pool)
  {
    if role.Repack? {
      RepackFreeLightens(f, d, n, w, x, pool);
    }
  }

  lemma RepackFreeLightens(f: nat, d: nat, n: nat, w: Worker, x: int, pool: Pool)
    requires Fits(Repack, w) && Receives(w.pc) && !Stops(w.pc) && x != END && At(pool, x) == []
    ensures WorkerLoad(f, d, false, n, false, Receive(Repack, w, x, pool), pool) < WorkerLoad(f, d, false, n, false, w, pool)
  {
  }

  /** The weight of a queued item in terms of the weights one stage further on. */
  function ItemLoad(f: nat, d: nat, role: Role, x: int, pool: Pool): nat {
    var k := |At(pool, x)|;
    if x == END then 1
    else if role.Repack? then 4 + Times(k, f + d + 9)
    else if role.Expand? then f + 9 + Times(k, f + d + 8)
    else f + 8 + Times(k, d)
  }

  lemma SlotIsItem(c: Config, l: nat, x: int, pool: Pool)
    requires c.Valid() && l < 4
    ensures SlotLoad(c, l, pool)(x) == ItemLoad(Fix(c, l + 1), Per(c, l + 1), c.roles[l], x, pool)
  {
  }

  /** Popping an input buffer or an end marker: the worker gains less than the queue loses. */
  lemma InputLightens(f: nat, d: nat, role: Role, n: nat, w: Worker, x: int, pool: Pool)
    requires Fits(role, w) && Stops(w.pc)
    ensures var w' := Receive(role, w, x, pool);
            WorkerLoad(f, d, role.Expand?, n, role.Sink?, w', pool)
            < WorkerLoad(f, d, role.Expand?, n, role.Sink?, w, pool) + ItemLoad(f, d, role, x, pool)
  {
  }

  lemma ReceiveLightens(c: Config, w: Worker, x: int, pool: Pool)
    requires c.Valid() && w.stage < 4 && Fits(c.roles[w.stage], w) && Receives(w.pc)
    requires x == END ==> Stops(w.pc)
    requires !Stops(w.pc) ==> At(pool, x) == []
    ensures Load(c, pool)(Receive(c.roles[w.stage], w, x, pool))
            < Load(c, pool)(w) + (if Stops(w.pc) then SlotLoad(c, w.stage, pool)(x) else 0)
  {
    var role, n := c.roles[w.stage], if w.stage < 3 then c.n[w.stage + 1] else 0;
    ReceiveFits(role, w, x, pool);
    assert w.stage >= 3 <==> role.Sink?;
    if Stops(w.pc) {
      SlotIsItem(c, w.stage, x, pool);
      InputLightens(Fix(c, w.stage + 1), Per(c, w.stage + 1), role, n, w, x, pool);
    } else {
      assert !role.Sink?;
      FreeLightens(Fix(c, w.stage + 1), Per(c, w.stage + 1), role, n, w, x, pool);
    }
  }

  // ---- The whole state ----

  /** The buffers that neither `b` nor `o` of worker `i` names are as before, wherever they are. */
  lemma Untouched(c: Config, s: State, i: nat, pool': Pool)
    requires c.Valid() && Inv(c, s) && i < |s.th| && Frame(s.th[i], s.pool, pool')
    ensures forall k :: 0 <= k < |s.th| && k != i ==>
              At(pool', s.th[k].b) == At(s.pool, s.th[k].b) && At(pool', s.th[k].o) == At(s.pool, s.th[k].o)
    ensures forall l, k :: 0 <= l < 4 && 0 <= k < |s.q[l]| ==> At(pool', s.q[l][k]) == At(s.pool, s.q[l][k])
  {
    var w := s.th[i];
    if w.b != END {
      NoSharing(c, s, i, w.b);
    }
    if w.o != END {
      NoSharing(c, s, i, w.o);
    }
    assert At(pool', END) == [] == At(s.pool, END);
    forall l, k | 0 <= l < 4 && 0 <= k < |s.q[l]|
      ensures At(pool', s.q[l][k]) == At(s.pool, s.q[l][k])
    {
      assert s.q[l][k] in s.q[l];
    }
  }

  lemma SlotsSame(c: Config, l: nat, q: seq<int>, pool: Pool, pool': Pool)
    requires forall k :: 0 <= k < |q| ==> At(pool', q[k]) == At(pool, q[k])
    ensures Sum(q, SlotLoad(c, l, pool')) == Sum(q, SlotLoad(c, l, pool))
  {
    SumSame(q, SlotLoad(c, l, pool'), SlotLoad(c, l, pool));
  }

  lemma LoadSame(c: Config, w: Worker, pool: Pool, pool': Pool)
    requires c.Valid() && At(pool', w.b) == At(pool, w.b) && At(pool', w.o) == At(pool, w.o)
    ensures Load(c, pool')(w) == Load(c, pool)(w)
  {
  }

  /** Changing the buffers one worker holds changes no other worker's weight. */
  lemma LoadElsewhere(c: Config, th: seq<Worker>, i: nat, w': Worker, pool: Pool, pool': Pool)
    requires c.Valid() && i < |th|
    requires forall k :: 0 <= k < |th| && k != i ==>
               At(pool', th[k].b) == At(pool, th[k].b) && At(pool', th[k].o) == At(pool, th[k].o)
    ensures Sum(th[i := w'], Load(c, pool')) + Load(c, pool)(th[i]) == Sum(th, Load(c, pool)) + Load(c, pool')(w')
  {
    var rest := Worker(0, Done, END, END, [], [], 0);
    var others := th[i := rest];
    forall k | 0 <= k < |others|
      ensures Load(c, pool')(others[k]) == Load(c, pool)(others[k])
    {
      LoadSame(c, others[k], pool, pool');
    }
    SumSame(others, Load(c, pool'), Load(c, pool));
    SumUpdate(th, i, rest, Load(c, pool));
    SumUpdate(others, i, w', Load(c, pool'));
    assert others[i := w'] == th[i := w'];
    LoadSame(c, rest, pool, pool');
  }

  lemma TakeLighter(c: Config, s: State, i: nat, p: Plan)
    requires c.Valid() && Ready(c, s, i, p) && p.Take? && AllTidy(s)
    ensures Load(c, s.pool)(Receive(c.roles[s.th[i].stage], s.th[i], s.q[p.j][0], s.pool))
            < Load(c, s.pool)(s.th[i]) + if p.j == 0 then 0 else SlotLoad(c, p.j, s.pool)(s.q[p.j][0])
  {
    var w := s.th[i];
    FitApply(c, s, i, p);
    if !Stops(w.pc) {
      assert At(s.pool, s.q[0][0]) == [];
    } else {
      assert p.j == w.stage > 0;
    }
    ReceiveLightens(c, w, s.q[p.j][0], s.pool);
  }

  lemma TakeShrinks(c: Config, s: State, i: nat, p: Plan)
    requires c.Valid() && Ready(c, s, i, p) && p.Take? && AllTidy(s)
    ensures Measure(c, Apply(c, s, i, p).value) < Measure(c, s)
  {
    TakeLighter(c, s, i, p);
    SumUpdate(s.th, i, Receive(c.roles[s.th[i].stage], s.th[i], s.q[p.j][0], s.pool), Load(c, s.pool));
    if p.j > 0 {
      Popped(s.q[p.j], SlotLoad(c, p.j, s.pool));
    }
  }

  /** The same, in terms of the weights of whole workers. */
  ghost predicate Lighter(c: Config, w: Worker, pool: Pool, p: Plan)
    requires c.Valid()
  {
    var before := Load(c, pool)(w);
    match p
    case Take(_) => true
    case Give(j, x, w') => Load(c, pool)(w') + (if j == 0 then 0 else SlotLoad(c, j, pool)(x)) < before
    case Bump(w') => Load(c, pool)(w') < before
    case Local(w', pool', _, _, _) => Load(c, pool')(w') < before
    case Halt => true
  }

  lemma LoadIs(c: Config, w: Worker, pool: Pool)
    requires c.Valid() && w.stage < 4
    ensures Load(c, pool)(w)
            == WorkerLoad(Fix(c, w.stage + 1), Per(c, w.stage + 1), c.roles[w.stage].Expand?,
                          if w.stage < 3 then c.n[w.stage + 1] else 0, w.stage >= 3, w, pool)
  {
  }

  lemma LightMeansLighter(c: Config, w: Worker, pool: Pool, p: Plan)
    requires c.Valid() && w.stage < 4 && PlanLight(c, w, pool, p) && Sound(c.roles[w.stage], w, p)
    ensures Lighter(c, w, pool, p)
  {
    match p
    case Take(_) =>
    case Give(j, x, w') =>
      GivenSlot(c, w, j, x, pool, p);
      LoadMoves(c, w, w', pool, pool, if j == 0 then 0 else SlotLoad(c, j, pool)(x));
    case Bump(w') => LoadMoves(c, w, w', pool, pool, 0);
    case Local(w', pool', _, _, _) => LoadMoves(c, w, w', pool, pool', 0);
    case Halt =>
  }

  lemma LoadMoves(c: Config, w: Worker, w': Worker, pool: Pool, pool': Pool, out: nat)
    requires c.Valid() && w.stage < 4 && w'.stage == w.stage
    requires var f, d, n := Fix(c, w.stage + 1), Per(c, w.stage + 1), if w.stage < 3 then c.n[w.stage + 1] else 0;
             WorkerLoad(f, d, c.roles[w.stage].Expand?, n, w.stage >= 3, w', pool') + out
             < WorkerLoad(f, d, c.roles[w.stage].Expand?, n, w.stage >= 3, w, pool)
    ensures Load(c, pool')(w') + out < Load(c, pool)(w)
  {
    LoadIs(c, w, pool);
    LoadIs(c, w', pool');
  }

  lemma GivenSlot(c: Config, w: Worker, j: nat, x: int, pool: Pool, p: Plan)
    requires c.Valid() && w.stage < 4 && Sound(c.roles[w.stage], w, p) && p.Give? && p.j == j && p.x == x
    ensures p.w.stage == w.stage
    ensures j == 0 || SlotLoad(c, j, pool)(x) == if x == END then 1 else Fix(c, w.stage + 1) + Times(|At(pool, x)|, Per(c, w.stage + 1))
  {
  }

  lemma GiveShrinks(c: Config, s: State, i: nat, p: Plan)
    requires c.Valid() && Shaped(c, s) && i < |s.th| && Apply(c, s, i, p).Some? && (p.Give? || p.Bump?) && Lighter(c, s.th[i], s.pool, p)
    ensures Measure(c, Apply(c, s, i, p).value) < Measure(c, s)
  {
    SumUpdate(s.th, i, p.w, Load(c, s.pool));
    if p.Give? && p.j > 0 {
      Pushed(s.q[p.j], p.x, SlotLoad(c, p.j, s.pool));
    }
  }

  lemma LocalShrinks(c: Config, s: State, i: nat, p: Plan)
    requires c.Valid() && Inv(c, s) && Ready(c, s, i, p) && p.Local? && Lighter(c, s.th[i], s.pool, p)
    requires Frame(s.th[i], s.pool, p.pool)
    ensures Measure(c, Apply(c, s, i, p).value) < Measure(c, s)
  {
    Untouched(c, s, i, p.pool);
    SlotsSame(c, 1, s.q[1], s.pool, p.pool);
    SlotsSame(c, 2, s.q[2], s.pool, p.pool);
    SlotsSame(c, 3, s.q[3], s.pool, p.pool);
    LoadElsewhere(c, s.th, i, p.w, s.pool, p.pool);
  }

  lemma StepShrinks(c: Config, s: State, i: nat, ch: Choice)
    requires c.Valid() && Inv(c, s) && i < |s.th| && Step(c, s, i, ch).Some?
    ensures Measure(c, Step(c, s, i, ch).value) < Measure(c, s)
  {
    var p := PlanOf(c, s, s.th[i], ch);
    StepReady(c, s, i, ch);
    HeldApart(c, s, i);
    PlanConserves(c, s, s.th[i], ch);
    PlanLightens(c, s, s.th[i], ch);
    LightMeansLighter(c, s.th[i], s.pool, p);
    match p
    case Take(_) => TakeShrinks(c, s, i, p);
    case Give(_, _, _) => GiveShrinks(c, s, i, p);
    case Bump(_) => GiveShrinks(c, s, i, p);
    case Local(_, _, _, _, _) => LocalShrinks(c, s, i, p);
  }

  /** Every run is finite, and no longer than the weight of its first state. */
  lemma {:induction false} RunsAreFinite(c: Config, input: seq<seq<Tuple>>, run: seq<Event>)
    requires c.Valid() && Exec(c, Init(c, input), run).Some?
    ensures |run| + Measure(c, Exec(c, Init(c, input), run).value) <= Measure(c, Init(c, input))
  {
    if run != [] {
      var e := run[|run| - 1];
      RunsAreFinite(c, input, run[..|run| - 1]);
      InvAlways(c, input, run[..|run| - 1]);
      StepShrinks(c, Exec(c, Init(c, input), run[..|run| - 1]).value, e.thread, e.ch);
    }
  }
}
