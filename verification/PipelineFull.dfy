/** A deserializer pushes full buffers, but for the last one. */
module PipelineFull {
  import opened Pipeline
  import opened PipelineShape
  import opened PipelineContents
  import opened PipelineProgress
  import opened PipelineTermination

  /** A buffer that is about to be pushed is full, or it is the last one; the one being filled has room. */
  predicate Packed(tpb: nat, w: Worker, pool: Pool) {
    && (w.pc.RpFull? ==> |At(pool, w.o)| == tpb)
    && (w.pc.RpWork? || w.pc.RpRel? || w.pc.RpNext? || w.pc.RpLast? ==> |At(pool, w.o)| < tpb)
    && (w.pc.RpLast? ==> At(pool, w.o) != [])
  }

  ghost predicate AllPacked(c: Config, s: State) {
    forall i :: 0 <= i < |s.th| ==> Packed(c.tpb, s.th[i], s.pool)
  }

  ghost predicate Packs(tpb: nat, pool: Pool, p: Plan) {
    match p
    case Take(_) => true
    case Give(_, _, w') => Packed(tpb, w', pool)
    case Bump(w') => Packed(tpb, w', pool)
    case Local(w', pool', _, _, _) => Packed(tpb, w', pool')
    case Halt => true
  }

  lemma RepackPacks(tpb: nat, w: Worker, pool: Pool)
    requires Fits(Repack, w) && Apart(w, pool) && Packed(tpb, w, pool)
    ensures Packs(tpb, pool, PlanRepack(tpb, w, pool))
  {
    if w.pc.RpWork? && At(pool, w.b) != [] {
      TupleMoves(pool, w.b, w.o);
    }
  }

  lemma OtherPacks(c: Config, s: State, w: Worker, ch: Choice)
    requires c.Valid() && |s.count| == 4 && w.stage < 4 && Fits(c.roles[w.stage], w) && (Ending(w.pc) || !c.roles[w.stage].Repack?)
    ensures Packs(c.tpb, s.pool, PlanOf(c, s, w, ch))
  {
    if Ending(w.pc) {
      if w.stage < 3 {
        EndPacks(c.tpb, c.n[w.stage + 1], s.count[w.stage] == c.n[w.stage], w, s.pool);
      }
    } else {
      PlanSound(c, s, w, ch);
      SoundPacks(c.tpb, c.roles[w.stage], w, s.pool, PlanOf(c, s, w, ch));
    }
  }

  lemma EndPacks(tpb: nat, downstream: nat, last: bool, w: Worker, pool: Pool)
    requires Ending(w.pc)
    ensures Packs(tpb, pool, PlanEnd(downstream, last, w, pool))
  {
  }

  lemma SoundPacks(tpb: nat, role: Role, w: Worker, pool: Pool, p: Plan)
    requires !role.Repack? && Sound(role, w, p)
    ensures Packs(tpb, pool, p)
  {
  }

  lemma ReceivePacks(c: Config, role: Role, w: Worker, x: int, pool: Pool)
    requires c.Valid() && Fits(role, w) && Receives(w.pc) && Tidy(w, pool) && Packed(c.tpb, w, pool) && (!Stops(w.pc) ==> At(pool, x) == [])
    ensures Packed(c.tpb, Receive(role, w, x, pool), pool)
  {
  }

  lemma PackedApply(c: Config, s: State, i: nat, p: Plan)
    requires c.Valid() && Inv(c, s) && AllPacked(c, s) && Ready(c, s, i, p) && Conserves(s.th[i], s.pool, p) && Packs(c.tpb, s.pool, p)
    ensures AllPacked(c, Apply(c, s, i, p).value)
  {
    match p
    case Take(j) =>
      FitApply(c, s, i, p);
      if !Stops(s.th[i].pc) {
        assert At(s.pool, s.q[0][0]) == [];
      }
      ReceivePacks(c, c.roles[s.th[i].stage], s.th[i], s.q[j][0], s.pool);
    case Local(_, _, _, _, _) => PackedLocal(c, s, i, p);
    case _ =>
  }

  lemma PackedLocal(c: Config, s: State, i: nat, p: Plan)
    requires c.Valid() && Inv(c, s) && AllPacked(c, s) && Ready(c, s, i, p) && p.Local?
    requires Frame(s.th[i], s.pool, p.pool) && Packed(c.tpb, p.w, p.pool)
    ensures AllPacked(c, Apply(c, s, i, p).value)
  {
    Untouched(c, s, i, p.pool);
    forall k | 0 <= k < |s.th| && k != i
      ensures Packed(c.tpb, s.th[k], p.pool)
    {
      PackedAlike(c.tpb, s.th[k], s.pool, p.pool);
    }
  }

  lemma PackedAlike(tpb: nat, w: Worker, pool: Pool, pool': Pool)
    requires Packed(tpb, w, pool) && At(pool', w.o) == At(pool, w.o)
    ensures Packed(tpb, w, pool')
  {
  }

  lemma PackedStep(c: Config, s: State, i: nat, ch: Choice)
    requires c.Valid() && Inv(c, s) && AllPacked(c, s) && i < |s.th| && Step(c, s, i, ch).Some?
    ensures AllPacked(c, Step(c, s, i, ch).value)
  {
    var w, p := s.th[i], PlanOf(c, s, s.th[i], ch);
    StepReady(c, s, i, ch);
    HeldApart(c, s, i);
    PlanConserves(c, s, w, ch);
    if c.roles[w.stage].Repack? && !Ending(w.pc) {
      RepackPacks(c.tpb, w, s.pool);
    } else {
      OtherPacks(c, s, w, ch);
    }
    PackedApply(c, s, i, p);
  }

  /** In every reachable state: a deserializer pushes a buffer when it has as many tuples as it can take, or, after the end
      of its input, when it has some; in between it never has that many. */
  lemma {:induction false} PackedAlways(c: Config, input: seq<seq<Tuple>>, run: seq<Event>)
    requires c.Valid() && Exec(c, Init(c, input), run).Some?
    ensures AllPacked(c, Exec(c, Init(c, input), run).value)
  {
    if run != [] {
      var e, front := run[|run| - 1], run[..|run| - 1];
      PackedAlways(c, input, front);
      InvAlways(c, input, front);
      PackedStep(c, Exec(c, Init(c, input), front).value, e.thread, e.ch);
    } else {
      StartPacked(c, input);
    }
  }

  lemma StartPacked(c: Config, input: seq<seq<Tuple>>)
    requires c.Valid()
    ensures AllPacked(c, Init(c, input))
  {
  }
}
