/** Tuples are conserved: each one is waiting to be read, in a buffer, in a worker's hands, delivered,
    or discarded by a failed decompression. */
module PipelineContents {
  import opened Sums
  import opened Pipeline
  import opened PipelineShape
  import opened PipelineOwnership

  function Contents(ts: seq<Tuple>): multiset<Tuple> {
    multiset(ts)
  }

  /** The tuples a worker carries outside of any buffer. */
  function Carried(w: Worker): multiset<Tuple> {
    multiset(w.todo) + multiset(w.line)
  }

  ghost function Tuples(s: State): multiset<Tuple> {
    Bag(s.pool, Contents) + Bag(s.th, Carried) + multiset(s.sent) + multiset(s.dropped)
  }

  // ---- Which buffers are blank ----

  predicate BlankO(pc: Pc) {
    pc.Both? || pc.PushOut? || pc.Rel? || pc.Drop? || pc.RpFirst? || pc.Inc? || Counted(pc) || pc.Undef?
  }

  predicate BlankB(pc: Pc) {
    pc.Drop? || pc.RpRel?
  }

  predicate Tidy(w: Worker, pool: Pool) {
    && (BlankO(w.pc) ==> At(pool, w.o) == [])
    && (BlankB(w.pc) ==> At(pool, w.b) == [])
    && (w.pc.RpFull? || w.pc.RpLast? ==> At(pool, w.o) != [])
  }

  ghost predicate AllTidy(s: State)
    requires |s.q| == 4
  {
    && (forall i :: 0 <= i < |s.th| ==> Tidy(s.th[i], s.pool))
    && (forall k :: 0 <= k < |s.q[0]| ==> At(s.pool, s.q[0][k]) == [])
    && (forall k :: 0 <= k < |s.lost| ==> At(s.pool, s.lost[k]) == [])
  }

  /** Only the buffers a worker holds may differ. */
  ghost predicate Frame(w: Worker, pool: Pool, pool': Pool) {
    |pool'| == |pool| && forall x :: x != w.b && x != w.o ==> At(pool', x) == At(pool, x)
  }

  predicate InPool(pool: Pool, x: int) {
    x == END || 0 <= x < |pool|
  }

  /** The registers name different buffers of the pool. */
  predicate Apart(w: Worker, pool: Pool) {
    InPool(pool, w.b) && InPool(pool, w.o) && (w.b == w.o ==> w.b == END)
  }

  /** What a plan does to the tuples: it touches only held buffers, moves tuples without losing any,
      and frees only blank buffers. */
  ghost predicate Conserves(w: Worker, pool: Pool, p: Plan) {
    match p
    case Take(_) => true
    case Give(j, x, w') => Tidy(w', pool) && Carried(w') == Carried(w) && (j == 0 ==> At(pool, x) == [])
    case Bump(w') => Tidy(w', pool) && Carried(w') == Carried(w)
    case Local(w', pool', sent, dropped, lost) =>
      && Frame(w, pool, pool') && Tidy(w', pool')
      && multiset(At(pool, w.b)) + multiset(At(pool, w.o)) + Carried(w)
         == multiset(At(pool', w.b)) + multiset(At(pool', w.o)) + Carried(w') + multiset(sent) + multiset(dropped)
      && (forall k :: 0 <= k < |lost| ==> At(pool', lost[k]) == [])
    case Halt => true
  }

  lemma HeadTail(ts: seq<Tuple>)
    requires ts != []
    ensures multiset(ts) == multiset{ts[0]} + multiset(ts[1..])
  {
    assert ts == [ts[0]] + ts[1..];
  }

  /** Moving the first tuple of `b` to the end of `o`. */
  lemma TupleMoves(pool: Pool, b: int, o: int)
    requires 0 <= b < |pool| && 0 <= o < |pool| && b != o && pool[b] != []
    ensures var pool' := Put(Put(pool, b, pool[b][1..]), o, pool[o] + [pool[b][0]]);
            && At(pool', b) == pool[b][1..] && At(pool', o) == pool[o] + [pool[b][0]]
            && (forall x :: x != b && x != o ==> At(pool', x) == At(pool, x))
            && |pool'| == |pool|
            && multiset(At(pool, b)) + multiset(At(pool, o)) == multiset(At(pool', b)) + multiset(At(pool', o))
  {
    HeadTail(pool[b]);
  }

  /** Taking the first tuple out of `b`. */
  lemma TupleLeaves(pool: Pool, b: int)
    requires 0 <= b < |pool| && pool[b] != []
    ensures var pool' := Put(pool, b, pool[b][1..]);
            && At(pool', b) == pool[b][1..] && (forall x :: x != b ==> At(pool', x) == At(pool, x))
            && |pool'| == |pool|
            && multiset(At(pool, b)) == multiset(At(pool', b)) + multiset([pool[b][0]])
  {
    HeadTail(pool[b]);
  }

  /** Appending a tuple to `b`. */
  lemma TupleArrives(pool: Pool, b: int, ts: seq<Tuple>)
    requires 0 <= b < |pool|
    ensures var pool' := Put(pool, b, pool[b] + ts);
            && At(pool', b) == pool[b] + ts && (forall x :: x != b ==> At(pool', x) == At(pool, x))
            && |pool'| == |pool|
            && multiset(At(pool', b)) == multiset(At(pool, b)) + multiset(ts)
  {
  }

  lemma LineWritten(w: Worker, pool: Pool)
    requires Apart(w, pool) && w.pc.SrcFill? && w.b != END && w.o == END
    ensures Conserves(w, pool, Become(w.(line := []), Put(pool, w.b, At(pool, w.b) + w.line)))
  {
    TupleArrives(pool, w.b, w.line);
  }

  lemma LineReadWritten(w: Worker, pool: Pool)
    requires Apart(w, pool) && w.pc.SrcFill? && w.b != END && w.o == END && w.todo != []
    ensures Conserves(w, pool, Become(w.(todo := w.todo[1..]), Put(pool, w.b, At(pool, w.b) + [w.todo[0]])))
  {
    HeadTail(w.todo);
    TupleArrives(pool, w.b, [w.todo[0]]);
    assert multiset([w.todo[0]]) == multiset{w.todo[0]};
  }

  lemma LineRead(w: Worker, pool: Pool)
    requires w.todo != [] && w.line == []
    ensures Carried(w.(pc := SrcPush, todo := w.todo[1..], line := [w.todo[0]])) == Carried(w)
  {
    HeadTail(w.todo);
  }

  lemma SourceConserves(keepsLast: bool, w: Worker, ch: Choice, pool: Pool)
    requires Fits(Source(keepsLast), w) && Tidy(w, pool) && Apart(w, pool)
    ensures Conserves(w, pool, PlanSource(keepsLast, w, ch, pool))
  {
    if w.pc.SrcFill? {
      if w.line != [] {
        LineWritten(w, pool);
      } else if w.todo != [] {
        if ch.A? {
          LineReadWritten(w, pool);
        } else {
          LineRead(w, pool);
        }
      }
    }
  }

  lemma ForwardConserves(w: Worker, pool: Pool)
    requires Fits(Forward, w) && Tidy(w, pool)
    ensures Conserves(w, pool, PlanForward(w, pool))
  {
  }

  lemma BothConserves(decoding: bool, w: Worker, ch: Choice, pool: Pool)
    requires Fits(Swap(decoding), w) && Tidy(w, pool) && Apart(w, pool) && w.pc.Both?
    ensures Conserves(w, pool, PlanSwap(decoding, w, ch, pool))
  {
    var pool' := Put(Put(pool, w.o, At(pool, w.b)), w.b, []);
    assert At(pool', w.b) == [] && At(pool', w.o) == At(pool, w.b);
  }

  lemma SwapConserves(decoding: bool, w: Worker, ch: Choice, pool: Pool)
    requires Fits(Swap(decoding), w) && Tidy(w, pool) && Apart(w, pool)
    ensures Conserves(w, pool, PlanSwap(decoding, w, ch, pool))
  {
    if w.pc.Both? {
      BothConserves(decoding, w, ch, pool);
    }
  }

  lemma RepackConserves(tpb: nat, w: Worker, pool: Pool)
    requires Fits(Repack, w) && Tidy(w, pool) && Apart(w, pool)
    ensures Conserves(w, pool, PlanRepack(tpb, w, pool))
  {
    if w.pc.RpWork? && At(pool, w.b) != [] {
      TupleMoves(pool, w.b, w.o);
    }
  }

  lemma ExWorkConserves(w: Worker, ch: Choice, pool: Pool)
    requires Fits(Expand, w) && Tidy(w, pool) && Apart(w, pool) && w.pc.ExWork?
    ensures Conserves(w, pool, PlanExpand(w, ch, pool))
  {
    if At(pool, w.b) != [] {
      if ch.A? {
        ExMoveConserves(w, pool);
      } else {
        ExTakeConserves(w, pool);
      }
    }
  }

  lemma ExMoveConserves(w: Worker, pool: Pool)
    requires w.pc.ExWork? && Apart(w, pool) && w.b != END && w.o != END && At(pool, w.b) != []
    ensures Conserves(w, pool, Become(w, Put(Put(pool, w.b, At(pool, w.b)[1..]), w.o, At(pool, w.o) + [At(pool, w.b)[0]])))
  {
    TupleMoves(pool, w.b, w.o);
  }

  lemma ExTakeConserves(w: Worker, pool: Pool)
    requires w.pc.ExWork? && Apart(w, pool) && w.b != END && w.o != END && At(pool, w.b) != [] && w.line == []
    ensures Conserves(w, pool, Become(w.(pc := ExSpill, line := [At(pool, w.b)[0]]), Put(pool, w.b, At(pool, w.b)[1..])))
  {
    TupleLeaves(pool, w.b);
  }

  lemma ExFillConserves(w: Worker, pool: Pool)
    requires Apart(w, pool) && w.pc.ExFill? && w.o != END
    ensures Conserves(w, pool, Become(w.(pc := ExWork, line := []), Put(pool, w.o, At(pool, w.o) + w.line)))
  {
    TupleArrives(pool, w.o, w.line);
    assert At(Put(pool, w.o, At(pool, w.o) + w.line), w.b) == At(pool, w.b);
  }

  lemma ExpandConserves(w: Worker, ch: Choice, pool: Pool)
    requires Fits(Expand, w) && Tidy(w, pool) && Apart(w, pool)
    ensures Conserves(w, pool, PlanExpand(w, ch, pool))
  {
    if w.pc.ExWork? {
      ExWorkConserves(w, ch, pool);
    } else if w.pc.ExFill? {
      ExFillConserves(w, pool);
    }
  }

  lemma SinkConserves(w: Worker, pool: Pool)
    requires Fits(Sink, w) && Tidy(w, pool) && Apart(w, pool)
    ensures Conserves(w, pool, PlanSink(w, pool))
  {
  }

  lemma EndConserves(role: Role, downstream: nat, last: bool, w: Worker, pool: Pool)
    requires Fits(role, w) && Tidy(w, pool) && Ending(w.pc)
    ensures Conserves(w, pool, PlanEnd(downstream, last, w, pool))
  {
  }

  lemma PlanConserves(c: Config, s: State, w: Worker, ch: Choice)
    requires c.Valid() && |s.count| == 4 && w.stage < 4
    requires Fits(c.roles[w.stage], w) && Tidy(w, s.pool) && Apart(w, s.pool)
    ensures Conserves(w, s.pool, PlanOf(c, s, w, ch))
  {
    if Ending(w.pc) {
      if w.stage < 3 {
        EndConserves(c.roles[w.stage], c.n[w.stage + 1], s.count[w.stage] == c.n[w.stage], w, s.pool);
      }
    } else {
      match c.roles[w.stage]
      case Source(keepsLast) => SourceConserves(keepsLast, w, ch, s.pool);
      case Forward => ForwardConserves(w, s.pool);
      case Swap(decoding) => SwapConserves(decoding, w, ch, s.pool);
      case Repack => RepackConserves(c.tpb, w, s.pool);
      case Expand => ExpandConserves(w, ch, s.pool);
      case Sink => SinkConserves(w, s.pool);
    }
  }

  lemma ReceiveTidy(role: Role, w: Worker, x: int, pool: Pool)
    requires Fits(role, w) && Receives(w.pc) && Tidy(w, pool)
    requires x == END ==> Stops(w.pc)
    requires !Stops(w.pc) ==> At(pool, x) == []
    ensures Tidy(Receive(role, w, x, pool), pool)
    ensures Carried(Receive(role, w, x, pool)) == Carried(w)
  {
    if Stops(w.pc) {
      InputTidy(role, w, x, pool);
    }
  }

  lemma InputTidy(role: Role, w: Worker, x: int, pool: Pool)
    requires Fits(role, w) && Stops(w.pc) && Tidy(w, pool)
    ensures Tidy(Receive(role, w, x, pool), pool)
    ensures Carried(Receive(role, w, x, pool)) == Carried(w)
  {
  }

  // ---- The whole state ----

  lemma HeldApart(c: Config, s: State, i: nat)
    requires c.Valid() && Owned(c, s) && |s.pool| == c.ids && i < |s.th|
    ensures Apart(s.th[i], s.pool)
  {
    var w := s.th[i];
    if w.b != END {
      NoSharing(c, s, i, w.b);
    }
    if w.o != END {
      NoSharing(c, s, i, w.o);
    }
  }

  /** Changing the buffers one worker holds disturbs no other worker, no free and no lost buffer. */
  lemma TidyElsewhere(c: Config, s: State, i: nat, pool': Pool)
    requires c.Valid() && Shaped(c, s) && Owned(c, s) && AllTidy(s) && FreeIds(s)
    requires i < |s.th| && Frame(s.th[i], s.pool, pool')
    ensures forall k :: 0 <= k < |s.th| && k != i ==> Tidy(s.th[k], pool')
    ensures forall k :: 0 <= k < |s.q[0]| ==> At(pool', s.q[0][k]) == []
    ensures forall k :: 0 <= k < |s.lost| ==> At(pool', s.lost[k]) == []
  {
    var w := s.th[i];
    if w.b != END {
      NoSharing(c, s, i, w.b);
    }
    if w.o != END {
      NoSharing(c, s, i, w.o);
    }
    assert At(pool', END) == [] == At(s.pool, END);
    forall k | 0 <= k < |s.th| && k != i
      ensures Tidy(s.th[k], pool')
    {
      assert At(pool', s.th[k].b) == At(s.pool, s.th[k].b);
      assert At(pool', s.th[k].o) == At(s.pool, s.th[k].o);
    }
    forall k | 0 <= k < |s.q[0]|
      ensures At(pool', s.q[0][k]) == []
    {
      assert s.q[0][k] in s.q[0];
      assert At(pool', s.q[0][k]) == At(s.pool, s.q[0][k]);
    }
    forall k | 0 <= k < |s.lost|
      ensures At(pool', s.lost[k]) == []
    {
      assert s.lost[k] in s.lost;
      assert At(pool', s.lost[k]) == At(s.pool, s.lost[k]);
    }
  }

  lemma TidyStart(c: Config, input: seq<seq<Tuple>>)
    requires c.Valid()
    ensures AllTidy(Init(c, input))
  {
  }

  lemma TidyLocal(c: Config, s: State, i: nat, p: Plan)
    requires c.Valid() && Ready(c, s, i, p) && Owned(c, s) && AllTidy(s)
    requires Conserves(s.th[i], s.pool, p) && p.Local?
    ensures AllTidy(Apply(c, s, i, p).value)
  {
    TidyElsewhere(c, s, i, p.pool);
  }

  lemma TidyStep(c: Config, s: State, i: nat, p: Plan)
    requires c.Valid() && Ready(c, s, i, p) && Owned(c, s) && AllTidy(s)
    requires Conserves(s.th[i], s.pool, p)
    ensures AllTidy(Apply(c, s, i, p).value)
  {
    var w := s.th[i];
    match p
    case Take(j) =>
      FitApply(c, s, i, p);
      if !Stops(w.pc) {
        assert At(s.pool, s.q[0][0]) == [];
      }
      ReceiveTidy(c.roles[w.stage], w, s.q[j][0], s.pool);
    case Give(_, _, _) =>
    case Bump(_) =>
    case Local(_, _, _, _, _) => TidyLocal(c, s, i, p);
  }

  // ---- Conservation ----

  lemma CrewCarriesNothing(stage: nat, role: Role, n: nat)
    ensures Bag(Crew(stage, role, n, []), Carried) == multiset{}
  {
    BagEmpty(Crew(stage, role, n, []), Carried);
  }

  lemma TuplesStart(c: Config, input: seq<seq<Tuple>>)
    requires c.Valid()
    ensures Tuples(Init(c, input)) == Bag(Crew(0, c.roles[0], c.n[0], input), Carried)
  {
    var s := Init(c, input);
    var a, b, d, e := Crew(0, c.roles[0], c.n[0], input), Crew(1, c.roles[1], c.n[1], []),
                      Crew(2, c.roles[2], c.n[2], []), Crew(3, c.roles[3], c.n[3], []);
    BagEmpty(s.pool, Contents);
    CrewCarriesNothing(1, c.roles[1], c.n[1]);
    CrewCarriesNothing(2, c.roles[2], c.n[2]);
    CrewCarriesNothing(3, c.roles[3], c.n[3]);
    BagConcat(a, b, Carried);
    BagConcat(a + b, d, Carried);
    BagConcat(a + b + d, e, Carried);
  }

  /** A change of at most two buffers, seen from the whole pool. */
  lemma PoolBag(pool: Pool, pool': Pool, w: Worker)
    requires Frame(w, pool, pool') && Apart(w, pool)
    ensures Bag(pool', Contents) + (multiset(At(pool, w.b)) + multiset(At(pool, w.o)))
            == Bag(pool, Contents) + (multiset(At(pool', w.b)) + multiset(At(pool', w.o)))
  {
    var mid := if w.b == END then pool else pool[w.b := At(pool', w.b)];
    if w.b != END {
      BagUpdate(pool, w.b, At(pool', w.b), Contents);
    }
    if w.o != END {
      BagUpdate(mid, w.o, At(pool', w.o), Contents);
    }
    var end := if w.o == END then mid else mid[w.o := At(pool', w.o)];
    assert end == pool' by {
      forall x | 0 <= x < |pool|
        ensures end[x] == pool'[x]
      {
        assert At(pool', x) == pool'[x] && At(pool, x) == pool[x];
      }
    }
    Swing(Bag(pool, Contents), Bag(mid, Contents), Bag(pool', Contents),
          multiset(At(pool, w.b)), multiset(At(pool, w.o)), multiset(At(pool', w.b)), multiset(At(pool', w.o)));
  }

  lemma Swing(p: multiset<Tuple>, m: multiset<Tuple>, p': multiset<Tuple>,
              b: multiset<Tuple>, o: multiset<Tuple>, b': multiset<Tuple>, o': multiset<Tuple>)
    requires m + b == p + b' && p' + o == m + o'
    ensures p' + (b + o) == p + (b' + o')
  {
    assert p' + (b + o) == (p' + o) + b == (m + o') + b == (m + b) + o' == (p + b') + o' == p + (b' + o');
  }

  lemma TuplesLocal(c: Config, s: State, i: nat, p: Plan)
    requires c.Valid() && Ready(c, s, i, p) && Owned(c, s) && |s.pool| == c.ids
    requires Conserves(s.th[i], s.pool, p) && p.Local?
    ensures Tuples(Apply(c, s, i, p).value) == Tuples(s)
  {
    var s', w := Apply(c, s, i, p).value, s.th[i];
    HeldApart(c, s, i);
    PoolBag(s.pool, p.pool, w);
    BagUpdate(s.th, i, p.w, Carried);
    assert multiset(s'.sent) == multiset(s.sent) + multiset(p.sent);
    assert multiset(s'.dropped) == multiset(s.dropped) + multiset(p.dropped);
    Balance(Bag(s.pool, Contents), Bag(p.pool, Contents), Bag(s.th, Carried), Bag(s'.th, Carried),
            multiset(At(s.pool, w.b)) + multiset(At(s.pool, w.o)),
            multiset(At(p.pool, w.b)) + multiset(At(p.pool, w.o)),
            Carried(w), Carried(p.w), multiset(p.sent), multiset(p.dropped));
    Assemble(Bag(p.pool, Contents) + Bag(s'.th, Carried), multiset(s.sent), multiset(s.dropped),
             multiset(p.sent), multiset(p.dropped));
  }

  lemma Balance(p: multiset<Tuple>, p': multiset<Tuple>, t: multiset<Tuple>, t': multiset<Tuple>,
                b: multiset<Tuple>, b': multiset<Tuple>, w: multiset<Tuple>, w': multiset<Tuple>,
                out: multiset<Tuple>, off: multiset<Tuple>)
    requires p' + b == p + b' && t' + w == t + w' && b + w == b' + w' + out + off
    ensures p' + t' + out + off == p + t
  {
    forall x
      ensures (p' + t' + out + off)[x] == (p + t)[x]
    {
      assert (p' + b)[x] == (p + b')[x];
      assert (t' + w)[x] == (t + w')[x];
      assert (b + w)[x] == (b' + w' + out + off)[x];
    }
  }

  lemma Assemble(m: multiset<Tuple>, sent: multiset<Tuple>, dropped: multiset<Tuple>, out: multiset<Tuple>, off: multiset<Tuple>)
    ensures m + (sent + out) + (dropped + off) == (m + out + off) + sent + dropped
  {
  }

  lemma CarriedSame(th: seq<Worker>, i: nat, w': Worker)
    requires i < |th| && Carried(w') == Carried(th[i])
    ensures Bag(th[i := w'], Carried) == Bag(th, Carried)
  {
    BagUpdate(th, i, w', Carried);
    var before, after, same := Bag(th, Carried), Bag(th[i := w'], Carried), Carried(w');
    forall x
      ensures after[x] == before[x]
    {
      assert (after + same)[x] == (before + same)[x];
    }
  }

  lemma TuplesStep(c: Config, s: State, i: nat, p: Plan)
    requires c.Valid() && Ready(c, s, i, p) && Owned(c, s) && |s.pool| == c.ids
    requires Conserves(s.th[i], s.pool, p) && AllTidy(s)
    ensures Tuples(Apply(c, s, i, p).value) == Tuples(s)
    ensures |Apply(c, s, i, p).value.pool| == |s.pool|
  {
    var s', w := Apply(c, s, i, p).value, s.th[i];
    match p
    case Take(j) =>
      FitApply(c, s, i, p);
      if !Stops(w.pc) {
        assert At(s.pool, s.q[0][0]) == [];
      }
      ReceiveTidy(c.roles[w.stage], w, s.q[j][0], s.pool);
      CarriedSame(s.th, i, s'.th[i]);
    case Give(_, _, _) => CarriedSame(s.th, i, p.w);
    case Bump(_) => CarriedSame(s.th, i, p.w);
    case Local(_, _, _, _, _) => TuplesLocal(c, s, i, p);
  }
}
