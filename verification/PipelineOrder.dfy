/** The order of tuples: with one thread in every stage it is that of the input, and with more of them a buffer still has
    the tuples of each reader in their order. */
module PipelineOrder {
  import opened Sums
  import opened Pipeline
  import opened PipelineShape
  import opened PipelineContents
  import opened PipelineProgress
  import opened PipelineTermination
  import opened PipelineDelivery

  // ---- One worker ----

  /** What a worker has in its hands, in the order in which it will pass it on. */
  function Inside(w: Worker, pool: Pool): seq<Tuple> {
    if w.stage == 0 then At(pool, w.b) + (w.line + w.todo) else At(pool, w.o) + (w.line + At(pool, w.b))
  }

  /** A plan passes on, writes or discards from the front. */
  ghost predicate Orderly(w: Worker, pool: Pool, p: Plan) {
    match p
    case Take(_) => true
    case Give(_, x, w') => Inside(w, pool) == At(pool, x) + Inside(w', pool)
    case Bump(w') => Inside(w, pool) == Inside(w', pool)
    case Local(w', pool', sent, dropped, _) =>
      && Inside(w, pool) == (sent + dropped) + Inside(w', pool') && (sent != [] ==> w.stage == 3)
      && (sent == [] || dropped == []) && (dropped != [] ==> w.stage > 0)
    case Halt => true
  }

  lemma LineOrder(w: Worker, pool: Pool, ts: seq<Tuple>, line: seq<Tuple>, todo: seq<Tuple>, pool': Pool)
    requires w.stage == 0 && 0 <= w.b < |pool| && pool' == Put(pool, w.b, At(pool, w.b) + ts) && w.line + w.todo == ts + (line + todo)
    ensures Inside(w, pool) == Inside(w.(line := line, todo := todo), pool')
  {
    assert At(pool', w.b) == At(pool, w.b) + ts;
    assert At(pool, w.b) + (ts + (line + todo)) == (At(pool, w.b) + ts) + (line + todo);
  }

  lemma SourceOrder(keepsLast: bool, w: Worker, ch: Choice, pool: Pool)
    requires Fits(Source(keepsLast), w) && Tidy(w, pool) && Apart(w, pool) && w.stage == 0
    ensures Orderly(w, pool, PlanSource(keepsLast, w, ch, pool))
  {
    if w.pc.SrcFill? {
      FillOrder(keepsLast, w, ch, pool);
    }
  }

  lemma FillOrder(keepsLast: bool, w: Worker, ch: Choice, pool: Pool)
    requires Fits(Source(keepsLast), w) && Apart(w, pool) && w.stage == 0 && w.pc.SrcFill?
    ensures Orderly(w, pool, PlanSource(keepsLast, w, ch, pool))
  {
    if w.line != [] {
      LineOrder(w, pool, w.line, [], w.todo, Put(pool, w.b, At(pool, w.b) + w.line));
    } else if w.todo != [] {
      assert w.todo == [w.todo[0]] + w.todo[1..];
      if ch.A? {
        LineOrder(w, pool, [w.todo[0]], [], w.todo[1..], Put(pool, w.b, At(pool, w.b) + [w.todo[0]]));
      }
    }
  }

  lemma ForwardOrder(w: Worker, pool: Pool)
    requires Fits(Forward, w) && w.stage > 0
    ensures Orderly(w, pool, PlanForward(w, pool))
  {
  }

  lemma BothOrder(decoding: bool, w: Worker, ch: Choice, pool: Pool)
    requires Fits(Swap(decoding), w) && Tidy(w, pool) && Apart(w, pool) && w.pc.Both? && w.stage > 0
    ensures Orderly(w, pool, PlanSwap(decoding, w, ch, pool))
  {
    var pool' := Put(Put(pool, w.o, At(pool, w.b)), w.b, []);
    assert At(pool', w.b) == [] && At(pool', w.o) == At(pool, w.b);
  }

  lemma SwapOrder(decoding: bool, w: Worker, ch: Choice, pool: Pool)
    requires Fits(Swap(decoding), w) && Tidy(w, pool) && Apart(w, pool) && w.stage > 0
    ensures Orderly(w, pool, PlanSwap(decoding, w, ch, pool))
  {
    if w.pc.Both? {
      BothOrder(decoding, w, ch, pool);
    }
  }

  /** Moving the first tuple of `b` behind those of `o`. */
  lemma MoveOrder(w: Worker, w': Worker, pool: Pool)
    requires w.stage == w'.stage > 0 && w.line == w'.line == [] && w'.b == w.b && w'.o == w.o
    requires 0 <= w.b < |pool| && 0 <= w.o < |pool| && w.b != w.o && pool[w.b] != []
    ensures Inside(w, pool) == Inside(w', Put(Put(pool, w.b, pool[w.b][1..]), w.o, pool[w.o] + [pool[w.b][0]]))
  {
    TupleMoves(pool, w.b, w.o);
    var from, to := pool[w.b], pool[w.o];
    assert to + ([] + from) == (to + [from[0]]) + ([] + from[1..]);
  }

  lemma RepackOrder(tpb: nat, w: Worker, pool: Pool)
    requires Fits(Repack, w) && Tidy(w, pool) && Apart(w, pool) && w.stage > 0
    ensures Orderly(w, pool, PlanRepack(tpb, w, pool))
  {
    if w.pc.RpWork? && At(pool, w.b) != [] {
      MoveOrder(w, w.(pc := if |At(pool, w.o)| + 1 == tpb then RpFull else RpWork), pool);
    }
  }

  lemma ExWorkOrder(w: Worker, ch: Choice, pool: Pool)
    requires Fits(Expand, w) && Apart(w, pool) && w.pc.ExWork? && w.stage > 0
    ensures Orderly(w, pool, PlanExpand(w, ch, pool))
  {
    if At(pool, w.b) != [] {
      if ch.A? {
        MoveOrder(w, w, pool);
      } else {
        SpillOrder(w, w.(pc := ExSpill, line := [pool[w.b][0]]), pool);
      }
    }
  }

  /** Taking the first tuple of `b` into the hands. */
  lemma SpillOrder(w: Worker, w': Worker, pool: Pool)
    requires w.stage == w'.stage > 0 && w.line == [] && w'.b == w.b && w'.o == w.o
    requires 0 <= w.b < |pool| && w.b != w.o && pool[w.b] != [] && w'.line == [pool[w.b][0]]
    ensures Inside(w, pool) == Inside(w', Put(pool, w.b, pool[w.b][1..]))
  {
    TupleLeaves(pool, w.b);
    assert pool[w.b] == [pool[w.b][0]] + pool[w.b][1..];
  }

  lemma ExFillOrder(w: Worker, pool: Pool)
    requires Apart(w, pool) && w.pc.ExFill? && w.o != END && w.stage > 0
    ensures Orderly(w, pool, Become(w.(pc := ExWork, line := []), Put(pool, w.o, At(pool, w.o) + w.line)))
  {
    TupleArrives(pool, w.o, w.line);
    var pool' := Put(pool, w.o, At(pool, w.o) + w.line);
    assert At(pool', w.b) == At(pool, w.b) && At(pool', w.o) == At(pool, w.o) + w.line;
    assert At(pool, w.o) + (w.line + At(pool, w.b)) == (At(pool, w.o) + w.line) + ([] + At(pool, w.b));
  }

  lemma ExpandOrder(w: Worker, ch: Choice, pool: Pool)
    requires Fits(Expand, w) && Tidy(w, pool) && Apart(w, pool) && w.stage > 0
    ensures Orderly(w, pool, PlanExpand(w, ch, pool))
  {
    if w.pc.ExWork? {
      ExWorkOrder(w, ch, pool);
    } else if w.pc.ExFill? {
      ExFillOrder(w, pool);
    }
  }

  lemma SinkOrder(w: Worker, pool: Pool)
    requires Fits(Sink, w) && Tidy(w, pool) && Apart(w, pool) && w.stage == 3
    ensures Orderly(w, pool, PlanSink(w, pool))
  {
  }

  lemma EndOrder(downstream: nat, last: bool, w: Worker, pool: Pool)
    requires Ending(w.pc)
    ensures Orderly(w, pool, PlanEnd(downstream, last, w, pool))
  {
  }

  lemma PlanOrder(c: Config, s: State, w: Worker, ch: Choice)
    requires c.Valid() && |s.count| == 4 && w.stage < 4
    requires Fits(c.roles[w.stage], w) && Tidy(w, s.pool) && Apart(w, s.pool)
    ensures Orderly(w, s.pool, PlanOf(c, s, w, ch))
  {
    if Ending(w.pc) {
      if w.stage < 3 {
        EndOrder(c.n[w.stage + 1], s.count[w.stage] == c.n[w.stage], w, s.pool);
      }
    } else {
      match c.roles[w.stage]
      case Source(keepsLast) => SourceOrder(keepsLast, w, ch, s.pool);
      case Forward => ForwardOrder(w, s.pool);
      case Swap(decoding) => SwapOrder(decoding, w, ch, s.pool);
      case Repack => RepackOrder(c.tpb, w, s.pool);
      case Expand => ExpandOrder(w, ch, s.pool);
      case Sink => SinkOrder(w, s.pool);
    }
  }

  /** What is popped comes behind what is there. */
  lemma ReceiveOrder(role: Role, w: Worker, x: int, pool: Pool)
    requires Fits(role, w) && Receives(w.pc) && (role.Source? <==> w.stage == 0) && (!Stops(w.pc) ==> At(pool, x) == [])
    ensures Inside(Receive(role, w, x, pool), pool) == Inside(w, pool) + At(pool, x)
  {
    if Stops(w.pc) {
      InputOrder(role, w, x, pool);
    } else {
      FreeOrder(role, w, x, pool);
    }
  }

  lemma InputOrder(role: Role, w: Worker, x: int, pool: Pool)
    requires Fits(role, w) && Stops(w.pc) && w.stage > 0
    ensures Inside(Receive(role, w, x, pool), pool) == Inside(w, pool) + At(pool, x)
  {
    assert At(pool, END) == [];
  }

  lemma FreeOrder(role: Role, w: Worker, x: int, pool: Pool)
    requires Fits(role, w) && Receives(w.pc) && !Stops(w.pc) && (role.Source? <==> w.stage == 0) && At(pool, x) == []
    ensures Inside(Receive(role, w, x, pool), pool) == Inside(w, pool) + At(pool, x)
  {
    assert At(pool, END) == [];
  }

  // ---- Sequences of sequences ----

  function Flat(parts: seq<seq<Tuple>>): seq<Tuple> {
    if parts == [] then [] else Flat(parts[..|parts| - 1]) + parts[|parts| - 1]
  }

  /** Tuples move from the front of a part to the end of the one before it. */
  lemma {:induction false} MoveUp(parts: seq<seq<Tuple>>, k: nat, a: seq<Tuple>, rest: seq<Tuple>)
    requires k + 1 < |parts| && parts[k + 1] == a + rest
    ensures Flat(parts[k := parts[k] + a][k + 1 := rest]) == Flat(parts)
  {
    var n := |parts| - 1;
    var parts' := parts[k := parts[k] + a][k + 1 := rest];
    if k + 1 < n {
      MoveUp(parts[..n], k, a, rest);
      assert parts'[..n] == parts[..n][k := parts[k] + a][k + 1 := rest];
    } else {
      assert parts[..n][..k] == parts'[..n][..k] == parts[..k];
      assert (Flat(parts[..k]) + (parts[k] + a)) + rest == (Flat(parts[..k]) + parts[k]) + (a + rest);
    }
  }

  /** `s` is what is left of `t` when some tuples are taken out. */
  predicate Within(s: seq<Tuple>, t: seq<Tuple>) {
    s == [] || (t != [] && ((s[|s| - 1] == t[|t| - 1] && Within(s[..|s| - 1], t[..|t| - 1])) || Within(s, t[..|t| - 1])))
  }

  lemma {:induction false} WithinItself(t: seq<Tuple>)
    ensures Within(t, t)
  {
    if t != [] {
      WithinItself(t[..|t| - 1]);
    }
  }

  /** Taking out more. */
  lemma {:induction false} WithinLess(a: seq<Tuple>, d: seq<Tuple>, b: seq<Tuple>, t: seq<Tuple>)
    requires Within(a + d + b, t)
    ensures Within(a + b, t)
    decreases |t|, |a + d + b|
  {
    var s, n := a + d + b, |t| - 1;
    if s != [] {
      var m := |s| - 1;
      if Within(s, t[..n]) {
        WithinLess(a, d, b, t[..n]);
      } else if b != [] {
        assert s[..m] == a + d + b[..|b| - 1];
        WithinLess(a, d, b[..|b| - 1], t[..n]);
        assert (a + b)[..|a + b| - 1] == a + b[..|b| - 1];
      } else if d != [] {
        assert s[..m] == a + d[..|d| - 1] + b;
        WithinLess(a, d[..|d| - 1], b, t[..n]);
      } else {
        assert a + b == s;
      }
    }
  }

  lemma {:induction false} TakeOut(parts: seq<seq<Tuple>>, k: nat, d: seq<Tuple>, rest: seq<Tuple>, behind: seq<Tuple>, t: seq<Tuple>)
    requires k < |parts| && parts[k] == d + rest && Within(Flat(parts) + behind, t)
    ensures Within(Flat(parts[k := rest]) + behind, t)
  {
    var n := |parts| - 1;
    if k < n {
      assert Flat(parts) + behind == Flat(parts[..n]) + (parts[n] + behind);
      TakeOut(parts[..n], k, d, rest, parts[n] + behind, t);
      assert parts[k := rest][..n] == parts[..n][k := rest];
      assert Flat(parts[k := rest]) + behind == Flat(parts[..n][k := rest]) + (parts[n] + behind);
    } else {
      assert Flat(parts) + behind == Flat(parts[..n]) + d + (rest + behind);
      WithinLess(Flat(parts[..n]), d, rest + behind, t);
      assert parts[k := rest][..n] == parts[..n];
      assert Flat(parts[k := rest]) + behind == Flat(parts[..n]) + (rest + behind);
    }
  }

  // ---- Queues ----

  /** The tuples of the buffers in a queue. */
  function TuplesIn(pool: Pool, q: seq<int>): seq<Tuple> {
    if q == [] then [] else At(pool, q[0]) + TuplesIn(pool, q[1..])
  }

  lemma {:induction false} TuplesInSnoc(pool: Pool, q: seq<int>, x: int)
    ensures TuplesIn(pool, q + [x]) == TuplesIn(pool, q) + At(pool, x)
  {
    if q == [] {
      assert q + [x] == [x] && [x][1..] == [];
    } else {
      TuplesInSnoc(pool, q[1..], x);
      assert (q + [x])[1..] == q[1..] + [x];
    }
  }

  lemma {:induction false} TuplesInSame(pool: Pool, pool': Pool, q: seq<int>)
    requires forall k :: 0 <= k < |q| ==> At(pool', q[k]) == At(pool, q[k])
    ensures TuplesIn(pool', q) == TuplesIn(pool, q)
  {
    if q != [] {
      TuplesInSame(pool, pool', q[1..]);
    }
  }

  // ---- One thread in every stage ----

  predicate Single(c: Config) {
    c.n == [1, 1, 1, 1]
  }

  ghost predicate Lined(s: State) {
    |s.th| == 4 && |s.q| == 4 && forall i :: 0 <= i < 4 ==> s.th[i].stage == i
  }

  /** Where tuples are, from those sent to those not read yet. */
  function Parts(s: State): (parts: seq<seq<Tuple>>)
    requires |s.th| == |s.q| == 4
    ensures |parts| == 8
  {
    [s.sent,
     Inside(s.th[3], s.pool), TuplesIn(s.pool, s.q[3]),
     Inside(s.th[2], s.pool), TuplesIn(s.pool, s.q[2]),
     Inside(s.th[1], s.pool), TuplesIn(s.pool, s.q[1]),
     Inside(s.th[0], s.pool)]
  }

  function Flow(s: State): seq<Tuple>
    requires |s.th| == |s.q| == 4
  {
    Flat(Parts(s))
  }

  /** From the front of a queue to the hands of a thread of its stage. */
  lemma PartsTake(s: State, s': State, i: nat, x: int)
    requires |s.th| == |s.q| == |s'.th| == |s'.q| == 4 && 1 <= i < 4 && s'.sent == s.sent && s'.pool == s.pool
    requires s'.th == s.th[i := s'.th[i]] && s.q[i] != [] && s.q[i][0] == x && s'.q == s.q[i := s.q[i][1..]]
    requires Inside(s'.th[i], s.pool) == Inside(s.th[i], s.pool) + At(s.pool, x)
    ensures Flow(s') == Flow(s)
  {
    var parts, rest, inside := Parts(s), TuplesIn(s.pool, s.q[i][1..]), Inside(s.th[i], s.pool) + At(s.pool, x);
    MoveUp(parts, 7 - 2 * i, At(s.pool, x), rest);
    if i == 1 {
      assert Parts(s') == parts[5 := inside][6 := rest];
    } else if i == 2 {
      assert Parts(s') == parts[3 := inside][4 := rest];
    } else {
      assert Parts(s') == parts[1 := inside][2 := rest];
    }
  }

  /** From the hands of a thread to the end of the next queue. */
  lemma PartsGive(s: State, s': State, i: nat, x: int)
    requires |s.th| == |s.q| == |s'.th| == |s'.q| == 4 && i < 3 && s'.sent == s.sent && s'.pool == s.pool
    requires s'.th == s.th[i := s'.th[i]] && s'.q == s.q[i + 1 := s.q[i + 1] + [x]]
    requires Inside(s.th[i], s.pool) == At(s.pool, x) + Inside(s'.th[i], s.pool)
    ensures Flow(s') == Flow(s)
  {
    var parts, rest := Parts(s), Inside(s'.th[i], s.pool);
    TuplesInSnoc(s.pool, s.q[i + 1], x);
    MoveUp(parts, 6 - 2 * i, At(s.pool, x), rest);
    var queued := TuplesIn(s.pool, s.q[i + 1]) + At(s.pool, x);
    if i == 0 {
      assert Parts(s') == parts[6 := queued][7 := rest];
    } else if i == 1 {
      assert Parts(s') == parts[4 := queued][5 := rest];
    } else {
      assert Parts(s') == parts[2 := queued][3 := rest];
    }
  }

  /** A thread sends, discards or rearranges what it has; all other parts stay. */
  lemma PartsLocal(s: State, s': State, i: nat, sent: seq<Tuple>, dropped: seq<Tuple>, t: seq<Tuple>)
    requires |s.th| == |s.q| == |s'.th| == |s'.q| == 4 && i < 4 && s'.sent == s.sent + sent && s'.q == s.q && s'.th == s.th[i := s'.th[i]]
    requires forall k :: 0 <= k < 4 && k != i ==> Inside(s.th[k], s'.pool) == Inside(s.th[k], s.pool)
    requires forall k :: 1 <= k < 4 ==> TuplesIn(s'.pool, s.q[k]) == TuplesIn(s.pool, s.q[k])
    requires Inside(s.th[i], s.pool) == (sent + dropped) + Inside(s'.th[i], s'.pool)
    requires (sent != [] ==> i == 3) && (sent == [] || dropped == [])
    ensures dropped == [] ==> Flow(s') == Flow(s)
    ensures Within(Flow(s), t) ==> Within(Flow(s'), t)
  {
    PartsChange(s, s', i);
    FlowLocal(Parts(s), i, s.sent, sent, dropped, Inside(s'.th[i], s'.pool), t);
  }

  lemma PartsChange(s: State, s': State, i: nat)
    requires |s.th| == |s.q| == |s'.th| == |s'.q| == 4 && i < 4 && s'.q == s.q && s'.th == s.th[i := s'.th[i]]
    requires forall k :: 0 <= k < 4 && k != i ==> Inside(s.th[k], s'.pool) == Inside(s.th[k], s.pool)
    requires forall k :: 1 <= k < 4 ==> TuplesIn(s'.pool, s.q[k]) == TuplesIn(s.pool, s.q[k])
    ensures Parts(s') == Parts(s)[0 := s'.sent][7 - 2 * i := Inside(s'.th[i], s'.pool)]
  {
    var parts, rest := Parts(s)[0 := s'.sent], Inside(s'.th[i], s'.pool);
    if i == 0 {
      assert Parts(s') == parts[7 := rest];
    } else if i == 1 {
      assert Parts(s') == parts[5 := rest];
    } else if i == 2 {
      assert Parts(s') == parts[3 := rest];
    } else {
      assert Parts(s') == parts[1 := rest];
    }
  }

  /** The same for the parts themselves. */
  lemma FlowLocal(parts: seq<seq<Tuple>>, i: nat, before: seq<Tuple>, sent: seq<Tuple>, dropped: seq<Tuple>, rest: seq<Tuple>, t: seq<Tuple>)
    requires |parts| == 8 && i < 4 && parts[0] == before && parts[7 - 2 * i] == (sent + dropped) + rest
    requires (sent != [] ==> i == 3) && (sent == [] || dropped == [])
    ensures var parts' := parts[0 := before + sent][7 - 2 * i := rest];
            && (dropped == [] ==> Flat(parts') == Flat(parts)) && (Within(Flat(parts), t) ==> Within(Flat(parts'), t))
  {
    if sent != [] {
      assert sent + [] == sent;
      MoveUp(parts, 0, sent, rest);
    } else {
      assert [] + dropped == dropped && before + [] == before && [] + rest == rest && parts[0 := before] == parts;
      if dropped == [] {
        assert parts[7 - 2 * i := rest] == parts;
      } else if Within(Flat(parts), t) {
        assert Flat(parts) + [] == Flat(parts) && Flat(parts[7 - 2 * i := rest]) + [] == Flat(parts[7 - 2 * i := rest]);
        TakeOut(parts, 7 - 2 * i, dropped, rest, [], t);
      }
    }
  }

  lemma PartsAlike(s: State, s': State, i: nat)
    requires |s.th| == |s.q| == |s'.th| == |s'.q| == 4 && i < 4 && s'.sent == s.sent && s'.pool == s.pool
    requires s'.th == s.th[i := s'.th[i]] && s'.q == s.q[0 := s'.q[0]]
    requires Inside(s'.th[i], s.pool) == Inside(s.th[i], s.pool)
    ensures Flow(s') == Flow(s)
  {
    assert Parts(s') == Parts(s);
  }

  lemma TakeFlow(c: Config, s: State, i: nat, p: Plan)
    requires c.Valid() && Inv(c, s) && Lined(s) && Ready(c, s, i, p) && p.Take?
    ensures Lined(Apply(c, s, i, p).value) && Flow(Apply(c, s, i, p).value) == Flow(s)
  {
    var s', w, x := Apply(c, s, i, p).value, s.th[i], s.q[p.j][0];
    FitApply(c, s, i, p);
    if !Stops(w.pc) {
      assert At(s.pool, s.q[0][0]) == [];
    }
    ReceiveOrder(c.roles[w.stage], w, x, s.pool);
    if p.j > 0 {
      PartsTake(s, s', i, x);
    } else {
      assert Inside(w, s.pool) + [] == Inside(w, s.pool);
      PartsAlike(s, s', i);
    }
  }

  lemma GiveFlow(c: Config, s: State, i: nat, p: Plan)
    requires c.Valid() && Inv(c, s) && Lined(s) && Ready(c, s, i, p) && p.Give? && i < 4
    requires Orderly(s.th[i], s.pool, p) && Conserves(s.th[i], s.pool, p)
    ensures Lined(Apply(c, s, i, p).value) && Flow(Apply(c, s, i, p).value) == Flow(s)
  {
    var s', w := Apply(c, s, i, p).value, s.th[i];
    FitApply(c, s, i, p);
    if p.j > 0 {
      PartsGive(s, s', i, p.x);
    } else {
      assert [] + Inside(p.w, s.pool) == Inside(p.w, s.pool);
      PartsAlike(s, s', i);
    }
  }

  lemma LocalFlow(c: Config, s: State, i: nat, p: Plan, t: seq<Tuple>)
    requires c.Valid() && Inv(c, s) && Lined(s) && Ready(c, s, i, p) && p.Local? && i < 4
    requires Orderly(s.th[i], s.pool, p) && Conserves(s.th[i], s.pool, p)
    ensures var s' := Apply(c, s, i, p).value;
            && Lined(s') && (p.dropped == [] ==> Flow(s') == Flow(s)) && (Within(Flow(s), t) ==> Within(Flow(s'), t))
  {
    FitApply(c, s, i, p);
    LocalElsewhere(c, s, i, p.pool);
    PartsLocal(s, Apply(c, s, i, p).value, i, p.sent, p.dropped, t);
  }

  /** Changing the buffers of one thread, seen from the queues and the other threads. */
  lemma LocalElsewhere(c: Config, s: State, i: nat, pool': Pool)
    requires c.Valid() && Inv(c, s) && i < |s.th| && Frame(s.th[i], s.pool, pool')
    ensures forall l :: 1 <= l < 4 ==> TuplesIn(pool', s.q[l]) == TuplesIn(s.pool, s.q[l])
    ensures forall k :: 0 <= k < |s.th| && k != i ==> Inside(s.th[k], pool') == Inside(s.th[k], s.pool)
    ensures forall l, k :: 0 <= l < 4 && 0 <= k < |s.q[l]| ==> At(pool', s.q[l][k]) == At(s.pool, s.q[l][k])
  {
    Untouched(c, s, i, pool');
    forall l | 1 <= l < 4
      ensures TuplesIn(pool', s.q[l]) == TuplesIn(s.pool, s.q[l])
    {
      TuplesInSame(s.pool, pool', s.q[l]);
    }
  }

  lemma BumpFlow(c: Config, s: State, i: nat, p: Plan)
    requires c.Valid() && Lined(s) && Ready(c, s, i, p) && p.Bump? && i < 4 && Orderly(s.th[i], s.pool, p)
    ensures Lined(Apply(c, s, i, p).value) && Flow(Apply(c, s, i, p).value) == Flow(s)
  {
    FitApply(c, s, i, p);
    PartsAlike(s, Apply(c, s, i, p).value, i);
  }

  /** No step changes the order. */
  lemma StepFlow(c: Config, s: State, i: nat, ch: Choice, t: seq<Tuple>)
    requires c.Valid() && Inv(c, s) && Lined(s) && i < 4 && Step(c, s, i, ch).Some?
    ensures var s' := Step(c, s, i, ch).value;
            && Lined(s') && (Lossless(c) ==> Flow(s') == Flow(s)) && (Within(Flow(s), t) ==> Within(Flow(s'), t))
  {
    var w, p := s.th[i], PlanOf(c, s, s.th[i], ch);
    StepReady(c, s, i, ch);
    HeldApart(c, s, i);
    PlanConserves(c, s, w, ch);
    PlanOrder(c, s, w, ch);
    match p
    case Take(_) => TakeFlow(c, s, i, p);
    case Give(_, _, _) => GiveFlow(c, s, i, p);
    case Bump(_) => BumpFlow(c, s, i, p);
    case Local(_, _, _, _, _) =>
      PlanKeepsAll(c, s, w, ch);
      LocalFlow(c, s, i, p, t);
  }

  /** What the reader is given. */
  function InputTo(input: seq<seq<Tuple>>): seq<Tuple> {
    if input == [] then [] else input[0]
  }

  lemma StartFlow(c: Config, input: seq<seq<Tuple>>)
    requires c.Valid() && Single(c)
    ensures Lined(Init(c, input)) && Flow(Init(c, input)) == InputTo(input)
  {
    var s := Init(c, input);
    StartLined(c, input);
    var parts := Parts(s);
    assert At(s.pool, END) == [] && Inside(s.th[0], s.pool) == InputTo(input);
    assert Inside(s.th[1], s.pool) == [] && Inside(s.th[2], s.pool) == [] && Inside(s.th[3], s.pool) == [];
    EmptyParts(parts[..7]);
    assert Flat(parts) == [] + InputTo(input);
  }

  lemma StartLined(c: Config, input: seq<seq<Tuple>>)
    requires c.Valid() && Single(c)
    ensures var s := Init(c, input);
            && Lined(s) && s.th[0].todo == InputTo(input)
            && forall i :: 0 <= i < 4 ==> s.th[i].b == s.th[i].o == END && s.th[i].line == []
  {
  }

  lemma {:induction false} EmptyParts(parts: seq<seq<Tuple>>)
    requires forall k :: 0 <= k < |parts| ==> parts[k] == []
    ensures Flat(parts) == []
  {
    if parts != [] {
      EmptyParts(parts[..|parts| - 1]);
    }
  }

  /** With one thread in every stage the tuples are always in the order of the input, wherever they are; none is missing
      if no codec drops any. */
  lemma {:induction false} FlowAlways(c: Config, input: seq<seq<Tuple>>, run: seq<Event>)
    requires c.Valid() && Single(c) && Exec(c, Init(c, input), run).Some?
    ensures var s := Exec(c, Init(c, input), run).value;
            && Lined(s) && (Lossless(c) ==> Flow(s) == InputTo(input)) && Within(Flow(s), InputTo(input))
  {
    StartFlow(c, input);
    WithinItself(InputTo(input));
    if run != [] {
      var e, front := run[|run| - 1], run[..|run| - 1];
      FlowAlways(c, input, front);
      InvAlways(c, input, front);
      StepFlow(c, Exec(c, Init(c, input), front).value, e.thread, e.ch, InputTo(input));
    }
  }

  lemma {:induction false} SentFirst(parts: seq<seq<Tuple>>)
    requires parts != []
    ensures parts[0] <= Flat(parts)
  {
    if |parts| > 1 {
      SentFirst(parts[..|parts| - 1]);
    }
  }

  lemma {:induction false} WithinFront(a: seq<Tuple>, b: seq<Tuple>, t: seq<Tuple>)
    requires a <= b && Within(b, t)
    ensures Within(a, t)
  {
    assert b == a + b[|a|..] + [] && a + [] == a;
    WithinLess(a, b[|a|..], [], t);
  }

  /** So what has been sent is the beginning of the input, or what is left of it. */
  lemma SentInOrder(c: Config, input: seq<seq<Tuple>>, run: seq<Event>)
    requires c.Valid() && Single(c) && Exec(c, Init(c, input), run).Some?
    ensures var sent := Exec(c, Init(c, input), run).value.sent;
            Within(sent, InputTo(input)) && (Lossless(c) ==> sent <= InputTo(input))
  {
    var s := Exec(c, Init(c, input), run).value;
    FlowAlways(c, input, run);
    SentFirst(Parts(s));
    WithinFront(s.sent, Flow(s), InputTo(input));
  }

  lemma InputOfOne(c: Config, input: seq<seq<Tuple>>)
    requires c.Valid() && Single(c)
    ensures InputOf(c, input) == multiset(InputTo(input))
  {
    var shares := Shares(c.n[0], input);
    assert shares[0] == InputTo(input) && shares[..0] == [];
    assert Bag(shares, Contents) == Bag(shares[..0], Contents) + Contents(shares[0]);
  }

  /** When such a pipeline cannot go on, it has sent the input as it was. */
  lemma StuckMeansInOrder(c: Config, input: seq<seq<Tuple>>, run: seq<Event>)
    requires c.Valid() && Single(c) && Lossless(c) && Exec(c, Init(c, input), run).Some?
    requires var s := Exec(c, Init(c, input), run).value;
             Stuck(c, s) && NoUndef(s) && Roomy(c, s)
    ensures Exec(c, Init(c, input), run).value.sent == InputTo(input)
  {
    var s := Exec(c, Init(c, input), run).value;
    SentInOrder(c, input, run);
    StuckMeansDelivered(c, input, run);
    NothingDropped(c, input, run);
    InputOfOne(c, input);
    SameBag(s.sent, InputTo(input));
  }

  lemma SameBag(a: seq<Tuple>, b: seq<Tuple>)
    requires a <= b && multiset(a) + multiset([]) == multiset(b)
    ensures a == b
  {
    assert |multiset(a) + multiset([])| == |a| && |multiset(b)| == |b|;
    assert b[..|a|] == a;
  }
}
