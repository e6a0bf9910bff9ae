/** When the last stage has returned, everything has arrived: the queues hold no data, every buffer
    is blank, and the delivered and discarded tuples together are exactly the input. */
module PipelineDelivery {
  import opened Sums
  import opened Pipeline
  import opened PipelineShape
  import opened PipelineOwnership
  import opened PipelineSentinels
  import opened PipelineContents
  import opened PipelineProgress

  ghost predicate SinksDone(s: State) {
    forall k :: 0 <= k < |s.th| && s.th[k].stage == 3 ==> s.th[k].pc.Done?
  }

  /** Every thread before the last stage is past its `fetch_add`, and no data is queued. */
  ghost predicate Drained(s: State)
    requires |s.q| == 4
  {
    && (forall k :: 0 <= k < |s.th| && s.th[k].stage < 3 ==> Counted(s.th[k].pc))
    && (forall j :: 1 <= j < 4 ==> NoData(s.q[j]))
  }

  lemma SomeoneIn(c: Config, s: State, l: nat) returns (k: nat)
    requires c.Valid() && Staffed(c, s) && l < 4
    ensures k < |s.th| && s.th[k].stage == l
  {
    assert Sum(s.th, InStage(l)) == c.n[l];
    k := SumWitness(s.th, InStage(l));
  }

  lemma DoneMeansDrained(c: Config, s: State)
    requires c.Valid() && Inv(c, s) && SinksDone(s)
    ensures Drained(s)
  {
    StageDrained(c, s, 2);
    StageDrained(c, s, 1);
    StageDrained(c, s, 0);
  }

  lemma StageDrained(c: Config, s: State, l: nat)
    requires c.Valid() && Inv(c, s) && l < 3 && forall k :: 0 <= k < |s.th| && s.th[k].stage == l + 1 ==> Ended(s.th[k].pc)
    ensures NoData(s.q[l + 1]) && forall k :: 0 <= k < |s.th| && s.th[k].stage == l ==> Counted(s.th[k].pc)
  {
    var k := SomeoneIn(c, s, l + 1);
    EndMeansDrained(c, s, l, k);
  }

  lemma BlankPlace(c: Config, s: State, x: int)
    requires c.Valid() && Inv(c, s) && SinksDone(s) && Drained(s) && 0 <= x < c.ids
    ensures At(s.pool, x) == []
  {
    assert Places(s, x) == 1;
    if Sum(s.lost, Is(x)) > 0 {
      CountIn(s.lost, x);
    } else if Sum(s.th, HeldWeight(Is(x))) > 0 {
      var k := SumWitness(s.th, HeldWeight(Is(x)));
      assert Tidy(s.th[k], s.pool);
    } else {
      BlankInQueue(c, s, x);
    }
  }

  lemma BlankInQueue(c: Config, s: State, x: int)
    requires c.Valid() && Shaped(c, s) && AllTidy(s) && Drained(s) && 0 <= x < |s.pool| && Sum(s.q, QueueWeight(Is(x))) > 0
    ensures At(s.pool, x) == []
  {
    var j := SumWitness(s.q, QueueWeight(Is(x)));
    CountIn(s.q[j], x);
    assert j == 0;
  }

  /** Nothing is lost and nothing is duplicated. */
  lemma AllDelivered(c: Config, s: State)
    requires c.Valid() && Inv(c, s) && SinksDone(s)
    ensures multiset(s.sent) + multiset(s.dropped) == Tuples(s)
  {
    DoneMeansDrained(c, s);
    forall x | 0 <= x < |s.pool|
      ensures Contents(s.pool[x]) == multiset{}
    {
      BlankPlace(c, s, x);
    }
    BagEmpty(s.pool, Contents);
    forall k | 0 <= k < |s.th|
      ensures Carried(s.th[k]) == multiset{}
    {
      assert s.th[k].todo == [] && s.th[k].line == [];
    }
    BagEmpty(s.th, Carried);
  }

  // ---- The input ----

  /** What each of `n` readers is given. */
  function Shares(n: nat, input: seq<seq<Tuple>>): (r: seq<seq<Tuple>>)
    ensures |r| == n && forall i :: 0 <= i < n ==> r[i] == if i < |input| then input[i] else []
  {
    seq(n, i => if 0 <= i < |input| then input[i] else [])
  }

  ghost function InputOf(c: Config, input: seq<seq<Tuple>>): multiset<Tuple>
    requires c.Valid()
  {
    Bag(Shares(c.n[0], input), Contents)
  }

  lemma {:induction false} BagAlike<T, U, X>(s: seq<T>, f: T -> multiset<X>, t: seq<U>, g: U -> multiset<X>)
    requires |s| == |t| && forall i :: 0 <= i < |s| ==> f(s[i]) == g(t[i])
    ensures Bag(s, f) == Bag(t, g)
  {
    if s != [] {
      BagAlike(s[..|s| - 1], f, t[..|t| - 1], g);
    }
  }

  lemma StartsWithInput(c: Config, input: seq<seq<Tuple>>)
    requires c.Valid()
    ensures Tuples(Init(c, input)) == InputOf(c, input)
  {
    TuplesStart(c, input);
    var crew := Crew(0, c.roles[0], c.n[0], input);
    var shares := Shares(c.n[0], input);
    forall i | 0 <= i < |crew|
      ensures Carried(crew[i]) == Contents(shares[i])
    {
      assert crew[i].line == [] && crew[i].todo == shares[i];
    }
    BagAlike(crew, Carried, shares, Contents);
  }

  // ---- What can be dropped, and what can be lost ----

  ghost predicate Lossless(c: Config) {
    forall i :: 0 <= i < |c.roles| ==> c.roles[i] != Swap(true)
  }

  ghost predicate Unexpanding(c: Config) {
    forall i :: 0 <= i < |c.roles| ==> !c.roles[i].Expand?
  }

  lemma PlanKeepsAll(c: Config, s: State, w: Worker, ch: Choice)
    requires c.Valid() && |s.count| == 4 && PlanOf(c, s, w, ch).Local?
    ensures Lossless(c) ==> PlanOf(c, s, w, ch).dropped == []
    ensures Unexpanding(c) ==> PlanOf(c, s, w, ch).lost == []
  {
    if w.stage < 4 && !Ending(w.pc) {
      if c.roles[w.stage].Swap? {
        assert Lossless(c) ==> !c.roles[w.stage].decoding;
      }
    }
  }

  lemma {:induction false} NothingDropped(c: Config, input: seq<seq<Tuple>>, run: seq<Event>)
    requires c.Valid() && Exec(c, Init(c, input), run).Some?
    ensures Lossless(c) ==> Exec(c, Init(c, input), run).value.dropped == []
    ensures Unexpanding(c) ==> Exec(c, Init(c, input), run).value.lost == []
  {
    if run != [] {
      var e := run[|run| - 1];
      NothingDropped(c, input, run[..|run| - 1]);
      var s := Exec(c, Init(c, input), run[..|run| - 1]).value;
      if PlanOf(c, s, s.th[e.thread], e.ch).Local? {
        PlanKeepsAll(c, s, s.th[e.thread], e.ch);
      }
    }
  }

  /** Main theorem on stuck states: in a roomy pipeline a run that cannot be continued has delivered
      its whole input, each tuple once, but for what failed decompressions discarded. */
  lemma StuckMeansDelivered(c: Config, input: seq<seq<Tuple>>, run: seq<Event>)
    requires c.Valid() && Exec(c, Init(c, input), run).Some?
    requires var s := Exec(c, Init(c, input), run).value;
             Stuck(c, s) && NoUndef(s) && Roomy(c, s)
    ensures var s := Exec(c, Init(c, input), run).value;
            && SinksDone(s) && Drained(s)
            && multiset(s.sent) + multiset(s.dropped) == InputOf(c, input)
  {
    var s := Exec(c, Init(c, input), run).value;
    InvAlways(c, input, run);
    forall k | 0 <= k < |s.th| && s.th[k].stage == 3
      ensures s.th[k].pc.Done?
    {
      StuckMeansSinksDone(c, s, k);
    }
    DoneMeansDrained(c, s);
    AllDelivered(c, s);
    StartsWithInput(c, input);
  }
}
