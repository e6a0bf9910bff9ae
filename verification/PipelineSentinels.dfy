/** End markers never overtake data.  `fetch_add` and the comparison that follows it are separate
    steps, so several threads of a stage may each see the full count and each issue a round. */
module PipelineSentinels {
  import opened Sums
  import opened Pipeline
  import opened PipelineShape
  import opened PipelineOwnership

  function InStage(l: nat): Worker -> nat {
    (w: Worker) => if w.stage == l then 1 else 0
  }

  function CountedAt(l: nat): Worker -> nat {
    (w: Worker) => if w.stage == l && Counted(w.pc) then 1 else 0
  }

  function TestingAt(l: nat): Worker -> nat {
    (w: Worker) => if w.stage == l && w.pc.Test? then 1 else 0
  }

  function IssuedAt(l: nat): Worker -> nat {
    (w: Worker) => if w.stage == l && (w.pc.Sent? || w.pc.DoneSent?) then 1 else 0
  }

  /** The end markers the worker has undertaken to push: one for each of `d` downstream threads. */
  function DueAt(l: nat, d: nat): Worker -> nat {
    (w: Worker) => if w.stage == l && (w.pc.Sent? || w.pc.DoneSent?) then d else 0
  }

  /** The end markers the worker has left to push. */
  function OwedAt(l: nat): Worker -> nat {
    (w: Worker) => if w.stage == l && w.pc.Sent? then w.k else 0
  }

  function EndedAt(l: nat): Worker -> nat {
    (w: Worker) => if w.stage == l && Ended(w.pc) then 1 else 0
  }

  /** Nothing but end markers follows an end marker. */
  ghost predicate Ordered(q: seq<int>) {
    forall i, j :: 0 <= i < j < |q| && q[i] == END ==> q[j] == END
  }

  ghost predicate NoData(q: seq<int>) {
    forall i :: 0 <= i < |q| ==> q[i] == END
  }

  /** The counter of stage `l`, and the end markers pushed, queued and popped. */
  ghost predicate Tally(c: Config, s: State, l: nat)
    requires c.Valid() && Shaped(c, s) && l < 3
  {
    var issued := Sum(s.th, IssuedAt(l));
    && s.count[l] == Sum(s.th, CountedAt(l))
    && (issued > 0 ==> s.count[l] == c.n[l])
    && (s.count[l] == c.n[l] ==> Sum(s.th, TestingAt(l)) > 0 || issued > 0)
    && Sum(s.th, OwedAt(l)) + Sum(s.q[l + 1], Is(END)) + Sum(s.th, EndedAt(l + 1)) 
       == Sum(s.th, DueAt(l, c.n[l + 1]))
  }

  /** The queue between stage `l` and stage `l + 1`. */
  ghost predicate InOrder(s: State, l: nat)
    requires |s.q| == 4 && l < 3
  {
    Ordered(s.q[l + 1]) && (Sum(s.th, EndedAt(l + 1)) > 0 ==> NoData(s.q[l + 1]))
  }

  ghost predicate Link(c: Config, s: State, l: nat)
    requires c.Valid() && Shaped(c, s) && l < 3
  {
    Tally(c, s, l) && InOrder(s, l)
  }

  ghost predicate Staffed(c: Config, s: State)
    requires c.Valid()
  {
    forall l {:trigger InStage(l)} :: 0 <= l < 4 ==> Sum(s.th, InStage(l)) == c.n[l]
  }

  // ---- Start ----

  lemma CrewCount(l: nat, stage: nat, role: Role, n: nat, input: seq<seq<Tuple>>)
    ensures Sum(Crew(stage, role, n, input), InStage(l)) == if l == stage then n else 0
  {
    SumConst(Crew(stage, role, n, input), InStage(l), if l == stage then 1 else 0);
  }

  lemma StaffedStart(c: Config, input: seq<seq<Tuple>>)
    requires c.Valid()
    ensures Staffed(c, Init(c, input))
  {
    forall l | 0 <= l < 4
      ensures Sum(Init(c, input).th, InStage(l)) == c.n[l]
    {
      var a, b, d, e := Crew(0, c.roles[0], c.n[0], input), Crew(1, c.roles[1], c.n[1], []),
                        Crew(2, c.roles[2], c.n[2], []), Crew(3, c.roles[3], c.n[3], []);
      CrewCount(l, 0, c.roles[0], c.n[0], input);
      CrewCount(l, 1, c.roles[1], c.n[1], []);
      CrewCount(l, 2, c.roles[2], c.n[2], []);
      CrewCount(l, 3, c.roles[3], c.n[3], []);
      SumConcat(a, b, InStage(l));
      SumConcat(a + b, d, InStage(l));
      SumConcat(a + b + d, e, InStage(l));
    }
  }

  lemma LinkStart(c: Config, input: seq<seq<Tuple>>, l: nat)
    requires c.Valid() && l < 3
    ensures Link(c, Init(c, input), l)
  {
    var th := Init(c, input).th;
    SumConst(th, CountedAt(l), 0);
    SumConst(th, TestingAt(l), 0);
    SumConst(th, IssuedAt(l), 0);
    SumConst(th, OwedAt(l), 0);
    SumConst(th, EndedAt(l + 1), 0);
    SumConst(th, DueAt(l, c.n[l + 1]), 0);
  }

  // ---- Steps ----

  lemma StaffedStep(c: Config, s: State, i: nat, p: Plan)
    requires c.Valid() && Ready(c, s, i, p) && Staffed(c, s)
    ensures Staffed(c, Apply(c, s, i, p).value)
  {
    var s' := Apply(c, s, i, p).value;
    FitApply(c, s, i, p);
    forall l | 0 <= l < 4
      ensures Sum(s'.th, InStage(l)) == c.n[l]
    {
      SumUpdate(s.th, i, s'.th[i], InStage(l));
    }
  }

  /** How the sums of a link move when worker `i` becomes `w'`. */
  lemma LinkUpdate(th: seq<Worker>, i: nat, w': Worker, l: nat, d: nat)
    requires i < |th|
    ensures Sum(th[i := w'], CountedAt(l)) + CountedAt(l)(th[i]) == Sum(th, CountedAt(l)) + CountedAt(l)(w')
    ensures Sum(th[i := w'], TestingAt(l)) + TestingAt(l)(th[i]) == Sum(th, TestingAt(l)) + TestingAt(l)(w')
    ensures Sum(th[i := w'], IssuedAt(l)) + IssuedAt(l)(th[i]) == Sum(th, IssuedAt(l)) + IssuedAt(l)(w')
    ensures Sum(th[i := w'], DueAt(l, d)) + DueAt(l, d)(th[i]) == Sum(th, DueAt(l, d)) + DueAt(l, d)(w')
    ensures Sum(th[i := w'], OwedAt(l)) + OwedAt(l)(th[i]) == Sum(th, OwedAt(l)) + OwedAt(l)(w')
    ensures Sum(th[i := w'], EndedAt(l + 1)) + EndedAt(l + 1)(th[i]) == Sum(th, EndedAt(l + 1)) + EndedAt(l + 1)(w')
  {
    SumUpdate(th, i, w', CountedAt(l));
    SumUpdate(th, i, w', TestingAt(l));
    SumUpdate(th, i, w', IssuedAt(l));
    SumUpdate(th, i, w', DueAt(l, d));
    SumUpdate(th, i, w', OwedAt(l));
    SumUpdate(th, i, w', EndedAt(l + 1));
  }

  /** While a worker of stage `l` has not been counted, no end marker of that stage exists. */
  lemma NotYet(c: Config, s: State, i: nat, l: nat)
    requires c.Valid() && Shaped(c, s) && Staffed(c, s) && l < 3 && Link(c, s, l)
    requires i < |s.th| && s.th[i].stage == l && !Counted(s.th[i].pc)
    ensures s.count[l] < c.n[l] && Sum(s.th, IssuedAt(l)) == 0
    ensures END !in s.q[l + 1] && Sum(s.th, EndedAt(l + 1)) == 0
  {
    SumAtMost(s.th, CountedAt(l), InStage(l));
    assert CountedAt(l)(s.th[i]) != InStage(l)(s.th[i]);
    if Sum(s.th, DueAt(l, c.n[l + 1])) > 0 {
      var k := SumWitness(s.th, DueAt(l, c.n[l + 1]));
      SumPositive(s.th, IssuedAt(l), k);
      assert false;
    }
    CountIn(s.q[l + 1], END);
  }

  lemma TakeKeeps(c: Config, s: State, i: nat, p: Plan, l: nat)
    requires c.Valid() && Ready(c, s, i, p) && p.Take? && l < 3
    ensures var s', d := Apply(c, s, i, p).value, c.n[l + 1];
            && s'.count == s.count && Sum(s'.th, CountedAt(l)) == Sum(s.th, CountedAt(l))
            && Sum(s'.th, TestingAt(l)) == Sum(s.th, TestingAt(l)) && Sum(s'.th, IssuedAt(l)) == Sum(s.th, IssuedAt(l))
            && Sum(s'.th, DueAt(l, d)) == Sum(s.th, DueAt(l, d)) && Sum(s'.th, OwedAt(l)) == Sum(s.th, OwedAt(l))
  {
    var s', w := Apply(c, s, i, p).value, s.th[i];
    FitApply(c, s, i, p);
    ReceiveFits(c.roles[w.stage], w, s.q[p.j][0], s.pool);
    LinkUpdate(s.th, i, s'.th[i], l, c.n[l + 1]);
  }

  lemma TallyMoves(c: Config, s: State, s': State, l: nat, popped: nat)
    requires c.Valid() && Shaped(c, s) && Shaped(c, s') && l < 3 && Tally(c, s, l)
    requires s'.count == s.count && Sum(s'.th, CountedAt(l)) == Sum(s.th, CountedAt(l))
    requires Sum(s'.th, TestingAt(l)) == Sum(s.th, TestingAt(l)) && Sum(s'.th, IssuedAt(l)) == Sum(s.th, IssuedAt(l))
    requires Sum(s'.th, DueAt(l, c.n[l + 1])) == Sum(s.th, DueAt(l, c.n[l + 1])) && Sum(s'.th, OwedAt(l)) == Sum(s.th, OwedAt(l))
    requires Sum(s'.q[l + 1], Is(END)) + popped == Sum(s.q[l + 1], Is(END))
    requires Sum(s'.th, EndedAt(l + 1)) == Sum(s.th, EndedAt(l + 1)) + popped
    ensures Tally(c, s', l)
  {
  }

  lemma TallyTake(c: Config, s: State, i: nat, p: Plan, l: nat)
    requires c.Valid() && Ready(c, s, i, p) && p.Take? && l < 3 && Tally(c, s, l)
    ensures Tally(c, Apply(c, s, i, p).value, l)
  {
    TakeKeeps(c, s, i, p, l);
    TakeEnds(c, s, i, p, l + 1);
    if p.j == l + 1 {
      Popped(s.q[p.j], Is(END));
    }
    TallyMoves(c, s, Apply(c, s, i, p).value, l, if p.j == l + 1 && s.q[p.j][0] == END then 1 else 0);
  }

  /** What popping does to the count of ended workers of stage `l`, which read queue `l`. */
  lemma TakeEnds(c: Config, s: State, i: nat, p: Plan, l: nat)
    requires c.Valid() && Ready(c, s, i, p) && p.Take? && 1 <= l < 4
    ensures var s' := Apply(c, s, i, p).value;
            && s'.q[l] == (if p.j == l then s.q[l][1..] else s.q[l])
            && Sum(s'.th, EndedAt(l)) == Sum(s.th, EndedAt(l)) + (if p.j == l && s.q[l][0] == END then 1 else 0)
  {
    var s', w := Apply(c, s, i, p).value, s.th[i];
    FitApply(c, s, i, p);
    ReceiveFits(c.roles[w.stage], w, s.q[p.j][0], s.pool);
    SumUpdate(s.th, i, s'.th[i], EndedAt(l));
  }

  lemma OrderTake(c: Config, s: State, i: nat, p: Plan, l: nat)
    requires c.Valid() && Ready(c, s, i, p) && p.Take? && l < 3 && InOrder(s, l)
    ensures InOrder(Apply(c, s, i, p).value, l)
  {
    TakeEnds(c, s, i, p, l + 1);
    if p.j == l + 1 {
      OrderPop(s.q[l + 1]);
    }
  }

  lemma OrderPop(q: seq<int>)
    requires Ordered(q) && q != []
    ensures Ordered(q[1..]) && (q[0] == END || NoData(q) ==> NoData(q[1..]))
  {
    forall i | 0 <= i < |q[1..]| && q[0] == END
      ensures q[1..][i] == END
    {
      assert q[1..][i] == q[i + 1];
    }
  }

  /** Giving a buffer away does not change how far a worker is in its ending. */
  lemma GiverStays(c: Config, w: Worker, p: Plan)
    requires c.Valid() && w.stage < 4 && Fits(c.roles[w.stage], w) && Sound(c.roles[w.stage], w, p)
    requires p.Give? && !w.pc.Sent?
    ensures !Counted(w.pc) && !Counted(p.w.pc) && (w.stage > 0 ==> Ended(p.w.pc) == Ended(w.pc))
  {
    assert w.pc.SrcLast? ==> c.roles[w.stage].Source? && w.stage == 0;
  }

  lemma TallyGive(c: Config, s: State, i: nat, p: Plan, l: nat)
    requires c.Valid() && Ready(c, s, i, p) && p.Give? && l < 3 && Tally(c, s, l)
    ensures Tally(c, Apply(c, s, i, p).value, l)
  {
    var s', w := Apply(c, s, i, p).value, s.th[i];
    LinkUpdate(s.th, i, p.w, l, c.n[l + 1]);
    if !w.pc.Sent? {
      GiverStays(c, w, p);
    }
    if p.j == l + 1 {
      Pushed(s.q[p.j], p.x, Is(END));
      assert s'.q[l + 1] == s.q[p.j] + [p.x];
    } else {
      assert s'.q[l + 1] == s.q[l + 1];
    }
  }

  lemma OrderGive(c: Config, s: State, i: nat, p: Plan, l: nat)
    requires c.Valid() && Ready(c, s, i, p) && p.Give? && l < 3 && Link(c, s, l) && Staffed(c, s)
    ensures InOrder(Apply(c, s, i, p).value, l)
  {
    SumUpdate(s.th, i, p.w, EndedAt(l + 1));
    if !s.th[i].pc.Sent? {
      GiverStays(c, s.th[i], p);
      if p.j == l + 1 {
        NotYet(c, s, i, l);
      }
    }
  }

  lemma LinkBump(c: Config, s: State, i: nat, p: Plan, l: nat)
    requires c.Valid() && Ready(c, s, i, p) && p.Bump? && l < 3 && Link(c, s, l) && Staffed(c, s)
    ensures Link(c, Apply(c, s, i, p).value, l)
  {
    LinkUpdate(s.th, i, p.w, l, c.n[l + 1]);
    if s.th[i].stage == l {
      NotYet(c, s, i, l);
    }
  }

  /** A local step leaves the sentinel bookkeeping alone, except at the comparison. */
  predicate Quiet(w: Worker, w': Worker, full: bool, downstream: nat) {
    if w.pc.Test? then w'.stage == w.stage && w'.pc == (if full then Sent else Done) && (full ==> w'.k == downstream)
    else if w.pc.Sent? then w'.pc.DoneSent? && w.k == 0
    else !Counted(w.pc) && !Counted(w'.pc) && (w.stage > 0 ==> Ended(w'.pc) == Ended(w.pc))
  }

  lemma LinkLocal(c: Config, s: State, i: nat, p: Plan, l: nat)
    requires c.Valid() && Ready(c, s, i, p) && p.Local? && l < 3 && Link(c, s, l)
    requires s.th[i].stage < 3 ==> Quiet(s.th[i], p.w, s.count[s.th[i].stage] == c.n[s.th[i].stage], c.n[s.th[i].stage + 1])
    requires s.th[i].stage == 3 ==> !Ended(s.th[i].pc) && !Ended(p.w.pc)
    ensures Link(c, Apply(c, s, i, p).value, l)
  {
    LinkUpdate(s.th, i, p.w, l, c.n[l + 1]);
    assert Apply(c, s, i, p).value.q == s.q && Apply(c, s, i, p).value.count == s.count;
  }

  lemma QuietPlan(c: Config, s: State, w: Worker, ch: Choice)
    requires c.Valid() && Shaped(c, s) && w.stage < 4 && Fits(c.roles[w.stage], w)
    requires PlanOf(c, s, w, ch).Local?
    ensures w.stage < 3 ==> Quiet(w, PlanOf(c, s, w, ch).w, s.count[w.stage] == c.n[w.stage], c.n[w.stage + 1])
    ensures w.stage == 3 ==> !Ended(w.pc) && !Ended(PlanOf(c, s, w, ch).w.pc)
  {
    if w.stage == 1 || w.stage == 2 {
      QuietMiddle(c, s, w, ch);
    }
  }

  lemma QuietMiddle(c: Config, s: State, w: Worker, ch: Choice)
    requires c.Valid() && Shaped(c, s) && 1 <= w.stage <= 2 && Fits(c.roles[w.stage], w) && PlanOf(c, s, w, ch).Local?
    ensures Quiet(w, PlanOf(c, s, w, ch).w, s.count[w.stage] == c.n[w.stage], c.n[w.stage + 1])
  {
  }

  lemma LinkStep(c: Config, s: State, i: nat, ch: Choice, l: nat)
    requires c.Valid() && Shaped(c, s) && i < |s.th|
    requires Ready(c, s, i, PlanOf(c, s, s.th[i], ch)) && Staffed(c, s) && l < 3 && Link(c, s, l)
    ensures Link(c, Apply(c, s, i, PlanOf(c, s, s.th[i], ch)).value, l)
  {
    var p := PlanOf(c, s, s.th[i], ch);
    match p
    case Take(_) =>
      TallyTake(c, s, i, p, l);
      OrderTake(c, s, i, p, l);
    case Give(_, _, _) =>
      TallyGive(c, s, i, p, l);
      OrderGive(c, s, i, p, l);
    case Bump(_) => LinkBump(c, s, i, p, l);
    case Local(_, _, _, _, _) =>
      QuietPlan(c, s, s.th[i], ch);
      LinkLocal(c, s, i, p, l);
  }
}
