/** With two or more deserializers the server can make a run in which one of them uses the end marker as a
    buffer id, constructed for every configuration; with one it cannot. */
module PipelineRace {
  import opened Options
  import opened Sums
  import opened Pipeline
  import opened PipelineShape
  import opened PipelineOwnership
  import opened PipelineSentinels
  import opened PipelineProgress
  import opened PipelineRuns

  /** The server with its deserializers, and a buffer for each of two deserializers and a reader. */
  ghost predicate Serving(c: Config) {
    c.Valid() && c.roles[0] == Source(false) && c.roles[1] == Repack
    && (c.roles[2].Swap? || c.roles[2].Forward?) && c.ids >= 3
  }

  function Reader(pc: Pc, b: int): Worker {
    Worker(0, pc, b, END, [], [], 0)
  }

  /** Three and four steps of the same thread as a run. */
  lemma ThreeSteps(c: Config, s: State, i: nat, s1: State, s2: State, s3: State)
    requires Shaped(c, s) && Shaped(c, s1) && Shaped(c, s2) && Shaped(c, s3)
    requires i < |s.th| == |s1.th| == |s2.th| == |s3.th|
    requires Step(c, s, i, A) == Some(s1) && Step(c, s1, i, A) == Some(s2) && Step(c, s2, i, A) == Some(s3)
    ensures Exec(c, s, [Event(i, A), Event(i, A), Event(i, A)]) == Some(s3)
  {
    var e := Event(i, A);
    ExecSnoc(c, s, [], e);
    assert [] + [e] == [e];
    ExecSnoc(c, s, [e], e);
    assert [e] + [e] == [e, e];
    ExecSnoc(c, s, [e, e], e);
    assert [e, e] + [e] == [e, e, e];
  }

  lemma FourSteps(c: Config, s: State, i: nat, s1: State, s2: State, s3: State, s4: State)
    requires Shaped(c, s) && Shaped(c, s1) && Shaped(c, s2) && Shaped(c, s3)
    requires i < |s.th| == |s1.th| == |s2.th| == |s3.th|
    requires Step(c, s, i, A) == Some(s1) && Step(c, s1, i, A) == Some(s2)
    requires Step(c, s2, i, A) == Some(s3) && Step(c, s3, i, A) == Some(s4)
    ensures Exec(c, s, [Event(i, A), Event(i, A), Event(i, A), Event(i, A)]) == Some(s4)
  {
    var e := Event(i, A);
    ThreeSteps(c, s, i, s1, s2, s3);
    ExecSnoc(c, s, [e, e, e], e);
    assert [e, e, e] + [e] == [e, e, e, e];
  }

  lemma ReaderTakes(c: Config, s: State, i: nat)
    requires Serving(c) && Shaped(c, s) && i < |s.th| && s.th[i] == Reader(SrcTake, END) && s.q[0] != []
    ensures Step(c, s, i, A) == Some(s.(q := s.q[0 := s.q[0][1..]], th := s.th[i := Reader(SrcFill, s.q[0][0])]))
  {
  }

  lemma ReaderEnds(c: Config, s: State, i: nat, x: int)
    requires Serving(c) && Shaped(c, s) && i < |s.th| && s.th[i] == Reader(SrcFill, x)
    ensures Step(c, s, i, A) == Some(s.(th := s.th[i := Reader(SrcLast, x)]))
  {
    assert s.sent + [] == s.sent && s.dropped + [] == s.dropped && s.lost + [] == s.lost;
  }

  lemma ReaderPushes(c: Config, s: State, i: nat, x: int)
    requires Serving(c) && Shaped(c, s) && i < |s.th| && s.th[i] == Reader(SrcLast, x) && s.q[1] == []
    ensures Step(c, s, i, A) == Some(s.(q := s.q[1 := [x]], th := s.th[i := Reader(Inc, END)]))
  {
    assert s.q[1] + [x] == [x];
  }

  lemma ReaderCounts(c: Config, s: State, i: nat)
    requires Serving(c) && Shaped(c, s) && i < |s.th| && s.th[i] == Reader(Inc, END)
    ensures Step(c, s, i, A) == Some(s.(count := s.count[0 := s.count[0] + 1], th := s.th[i := Reader(Test, END)]))
  {
  }

  /** A reader with nothing to read pushes an empty buffer and increments the counter. */
  lemma ReaderTurn(c: Config, s: State, i: nat) returns (s': State)
    requires Serving(c) && Shaped(c, s) && i < |s.th| && s.th[i] == Reader(SrcTake, END)
    requires s.q[0] != [] && s.q[1] == []
    ensures Exec(c, s, [Event(i, A), Event(i, A), Event(i, A), Event(i, A)]) == Some(s')
    ensures Shaped(c, s') && s'.q[1] == [s.q[0][0]] && s'.count[0] == s.count[0] + 1
    ensures s'.pool == s.pool && s'.th == s.th[i := Reader(Test, END)]
  {
    var x := s.q[0][0];
    var s1 := s.(q := s.q[0 := s.q[0][1..]], th := s.th[i := Reader(SrcFill, x)]);
    var s2 := s1.(th := s1.th[i := Reader(SrcLast, x)]);
    var s3 := s2.(q := s2.q[1 := [x]], th := s2.th[i := Reader(Inc, END)]);
    var s4 := s3.(count := s3.count[0 := s3.count[0] + 1], th := s3.th[i := Reader(Test, END)]);
    ReaderTakes(c, s, i);
    ReaderEnds(c, s1, i, x);
    ReaderPushes(c, s2, i, x);
    ReaderCounts(c, s3, i);
    FourSteps(c, s, i, s1, s2, s3, s4);
    s' := s4;
  }

  lemma DeserTakes(c: Config, s: State, i: nat)
    requires Serving(c) && Shaped(c, s) && i < |s.th| && s.th[i].stage == 1
    requires (s.th[i].pc.RpFirst? || s.th[i].pc.RpNext?) && |s.q[1]| == 1 && s.q[1][0] != END
    ensures Step(c, s, i, A) == Some(s.(q := s.q[1 := []], th := s.th[i := s.th[i].(pc := RpWork, b := s.q[1][0])]))
  {
    assert s.q[1][1..] == [];
  }

  lemma DeserFinds(c: Config, s: State, i: nat)
    requires Serving(c) && Shaped(c, s) && i < |s.th| && s.th[i].stage == 1
    requires s.th[i].pc.RpWork? && At(s.pool, s.th[i].b) == []
    ensures Step(c, s, i, A) == Some(s.(th := s.th[i := s.th[i].(pc := RpRel)]))
  {
    assert s.sent + [] == s.sent && s.dropped + [] == s.dropped && s.lost + [] == s.lost;
  }

  lemma DeserFrees(c: Config, s: State, i: nat)
    requires Serving(c) && Shaped(c, s) && i < |s.th| && s.th[i].stage == 1 && s.th[i].pc.RpRel?
    ensures Step(c, s, i, A)
            == Some(s.(q := s.q[0 := s.q[0] + [s.th[i].b]], th := s.th[i := s.th[i].(pc := RpNext, b := END)]))
  {
  }

  /** A deserializer takes the empty buffer and frees it. */
  lemma DeserTurn(c: Config, s: State, i: nat)
    requires Serving(c) && Shaped(c, s) && i < |s.th| && s.th[i].stage == 1
    requires s.th[i].pc.RpFirst? || s.th[i].pc.RpNext?
    requires |s.q[1]| == 1 && s.q[1][0] != END && At(s.pool, s.q[1][0]) == []
    ensures Exec(c, s, [Event(i, A), Event(i, A), Event(i, A)])
            == Some(s.(q := s.q[1 := []][0 := s.q[0] + [s.q[1][0]]], th := s.th[i := s.th[i].(pc := RpNext, b := END)]))
  {
    var x, w := s.q[1][0], s.th[i];
    var s1 := s.(q := s.q[1 := []], th := s.th[i := w.(pc := RpWork, b := x)]);
    var s2 := s1.(th := s1.th[i := s1.th[i].(pc := RpRel)]);
    var s3 := s2.(q := s2.q[0 := s2.q[0] + [s2.th[i].b]], th := s2.th[i := s2.th[i].(pc := RpNext, b := END)]);
    DeserTakes(c, s, i);
    DeserFinds(c, s1, i);
    DeserFrees(c, s2, i);
    ThreeSteps(c, s, i, s1, s2, s3);
    assert s3.th == s.th[i := w.(pc := RpNext, b := END)];
  }

  /** The first `i` readers wait at the comparison, the others have not begun; the deserializers have
      their output buffers, and no data is queued. */
  ghost predicate Lined(c: Config, s: State, i: nat)
    requires Serving(c)
  {
    && Shaped(c, s) && i <= c.n[0] && c.n[0] + c.n[1] <= |s.th|
    && (forall k :: 0 <= k < i ==> s.th[k] == Reader(Test, END))
    && (forall k :: i <= k < c.n[0] ==> s.th[k] == Reader(SrcTake, END))
    && s.th[c.n[0]].stage == 1 && (s.th[c.n[0]].pc.RpFirst? || s.th[c.n[0]].pc.RpNext?)
    && (c.n[1] >= 2 ==> s.th[c.n[0] + 1].stage == 1 && s.th[c.n[0] + 1].pc.RpFirst?)
    && s.count[0] == i && s.q[1] == [] && s.q[0] != []
  }

  ghost predicate Paced(c: Config, s: State, i: nat)
    requires Serving(c)
  {
    Inv(c, s) && Lined(c, s, i)
  }

  lemma PacedOn(c: Config, s: State, i: nat, s1: State, s2: State)
    requires Serving(c) && Lined(c, s, i) && i < c.n[0] && Shaped(c, s2) && Shaped(c, s1)
    requires s1.count[0] == s.count[0] + 1 && s1.th == s.th[i := Reader(Test, END)]
    requires s2.count == s1.count && s2.q[1] == [] && s2.q[0] != []
    requires s2.th == s1.th[c.n[0] := s1.th[c.n[0]].(pc := RpNext, b := END)]
    ensures Lined(c, s2, i + 1)
  {
  }

  lemma Pace(c: Config, s0: State, run: seq<Event>, i: nat) returns (run': seq<Event>)
    requires Serving(c) && Inv(c, s0) && Exec(c, s0, run).Some? && Paced(c, Exec(c, s0, run).value, i) && i < c.n[0]
    ensures Exec(c, s0, run').Some? && Paced(c, Exec(c, s0, run').value, i + 1)
  {
    var s := Exec(c, s0, run).value;
    var reader, deser := [Event(i, A), Event(i, A), Event(i, A), Event(i, A)],
                         [Event(c.n[0], A), Event(c.n[0], A), Event(c.n[0], A)];
    var s1 := ReaderTurn(c, s, i);
    ExecConcat(c, s0, run, reader);
    assert s.q[0][0] != END && At(s.pool, s.q[0][0]) == [];
    DeserTurn(c, s1, c.n[0]);
    ExecConcat(c, s0, run + reader, deser);
    run' := run + reader + deser;
    InvFrom(c, s0, run');
    PacedOn(c, s, i, s1, Exec(c, s0, run').value);
  }

  lemma {:induction false} PaceAll(c: Config, s0: State, run: seq<Event>, i: nat) returns (run': seq<Event>)
    requires Serving(c) && Inv(c, s0) && Exec(c, s0, run).Some? && Paced(c, Exec(c, s0, run).value, i)
    ensures Exec(c, s0, run').Some? && Paced(c, Exec(c, s0, run').value, c.n[0])
    decreases c.n[0] - i
  {
    if i == c.n[0] {
      run' := run;
    } else {
      run' := Pace(c, s0, run, i);
      run' := PaceAll(c, s0, run', i + 1);
    }
  }

  lemma DeserStarts(c: Config, s: State, i: nat)
    requires Serving(c) && Shaped(c, s) && i < |s.th| && s.th[i].stage == 1 && s.th[i].pc.RpInit? && s.q[0] != []
    ensures Step(c, s, i, A)
            == Some(s.(q := s.q[0 := s.q[0][1..]], th := s.th[i := s.th[i].(pc := RpFirst, o := s.q[0][0])]))
  {
  }

  /** Readers with nothing to read, then deserializers that have not begun. */
  ghost predicate Fresh(c: Config, s: State)
    requires c.Valid()
  {
    && Shaped(c, s) && c.n[0] + c.n[1] <= |s.th|
    && (forall k :: 0 <= k < c.n[0] ==> s.th[k] == Reader(SrcTake, END))
    && (forall k :: c.n[0] <= k < c.n[0] + c.n[1] ==> s.th[k].stage == 1 && s.th[k].pc.RpInit?)
    && |s.q[0]| >= 3 && s.q[1] == [] && s.count[0] == 0
  }

  lemma InitIsFresh(c: Config)
    requires Serving(c)
    ensures Fresh(c, Init(c, []))
  {
  }

  /** From `s` to `s'` the deserializer `n`, and the next one too if `two`, took an output buffer. */
  ghost predicate Began(s: State, s': State, n: nat, two: bool) {
    && |s'.th| == |s.th| && n + (if two then 1 else 0) < |s.th| && |s'.q| == |s.q| == 4
    && s'.th[n].stage == 1 && s'.th[n].pc.RpFirst?
    && (two ==> s'.th[n + 1].stage == 1 && s'.th[n + 1].pc.RpFirst?)
    && (forall k :: 0 <= k < n ==> s'.th[k] == s.th[k])
    && s'.q[0] != [] && s'.q[1] == s.q[1] && s'.count == s.count
  }

  lemma DesersStart(c: Config, s: State, n: nat, two: bool) returns (run: seq<Event>, s': State)
    requires Serving(c) && Shaped(c, s) && |s.q[0]| >= 3 && n + (if two then 1 else 0) < |s.th|
    requires s.th[n].stage == 1 && s.th[n].pc.RpInit?
    requires two ==> s.th[n + 1].stage == 1 && s.th[n + 1].pc.RpInit?
    ensures Exec(c, s, run) == Some(s') && Began(s, s', n, two)
  {
    DeserStarts(c, s, n);
    ExecSnoc(c, s, [], Event(n, A));
    s' := Step(c, s, n, A).value;
    run := [] + [Event(n, A)];
    if two {
      DeserStarts(c, s', n + 1);
      ExecSnoc(c, s, run, Event(n + 1, A));
      s' := Step(c, s', n + 1, A).value;
      run := run + [Event(n + 1, A)];
    }
  }

  lemma LinedAtStart(c: Config, s0: State, s: State)
    requires Serving(c) && Fresh(c, s0) && Began(s0, s, c.n[0], c.n[1] >= 2)
    ensures Lined(c, s, 0)
  {
  }

  lemma DesersFresh(c: Config, s0: State) returns (run: seq<Event>, s': State)
    requires Serving(c) && Fresh(c, s0)
    ensures Exec(c, s0, run) == Some(s') && Began(s0, s', c.n[0], c.n[1] >= 2)
  {
    run, s' := DesersStart(c, s0, c.n[0], c.n[1] >= 2);
  }

  lemma PaceStart(c: Config, s0: State) returns (run: seq<Event>, s': State)
    requires Serving(c) && Fresh(c, s0)
    ensures Exec(c, s0, run) == Some(s') && Lined(c, s', 0)
  {
    run, s' := DesersFresh(c, s0);
    LinedAtStart(c, s0, s');
  }

  /** Some run brings all readers to the comparison with the counter already full. */
  lemma AllReadersTest(c: Config, s0: State) returns (run: seq<Event>)
    requires Serving(c) && Inv(c, s0) && Fresh(c, s0)
    ensures Exec(c, s0, run).Some? && Paced(c, Exec(c, s0, run).value, c.n[0])
  {
    var s';
    run, s' := PaceStart(c, s0);
    InvFrom(c, s0, run);
    run := PaceAll(c, s0, run, 0);
  }

  // ---- The deserializer's first pop ----

  lemma ReaderIssues(c: Config, s: State)
    requires Serving(c) && Shaped(c, s) && |s.th| > 0 && s.th[0] == Reader(Test, END) && s.count[0] == c.n[0]
    ensures Step(c, s, 0, A) == Some(s.(th := s.th[0 := Reader(Sent, END).(k := c.n[1])]))
  {
    assert s.sent + [] == s.sent && s.dropped + [] == s.dropped && s.lost + [] == s.lost;
  }

  lemma ReaderMarks(c: Config, s: State)
    requires Serving(c) && Shaped(c, s) && |s.th| > 0 && s.th[0] == Reader(Sent, END).(k := c.n[1]) && s.q[1] == []
    ensures Step(c, s, 0, A) == Some(s.(q := s.q[1 := [END]], th := s.th[0 := Reader(Sent, END).(k := c.n[1] - 1)]))
  {
    assert s.q[1] + [END] == [END];
  }

  lemma DeserIndexesWithEnd(c: Config, s: State, i: nat)
    requires Serving(c) && Shaped(c, s) && i < |s.th| && s.th[i].stage == 1 && s.th[i].pc.RpFirst? && s.q[1] == [END]
    ensures Step(c, s, i, A).Some? && Step(c, s, i, A).value.th[i].pc.Undef?
  {
  }

  lemma UndefNext(c: Config, s: State, b: nat) returns (more: seq<Event>)
    requires Serving(c) && Shaped(c, s) && 0 < b < |s.th| && s.th[0] == Reader(Test, END) && s.count[0] == c.n[0]
    requires s.q[1] == [] && s.th[b].stage == 1 && s.th[b].pc.RpFirst?
    ensures Exec(c, s, more).Some? && b < |Exec(c, s, more).value.th| && Exec(c, s, more).value.th[b].pc.Undef?
  {
    var e := Event(0, A);
    ReaderIssues(c, s);
    ExecSnoc(c, s, [], e);
    var s1 := Step(c, s, 0, A).value;
    ReaderMarks(c, s1);
    ExecSnoc(c, s, [] + [e], e);
    var s2 := Step(c, s1, 0, A).value;
    DeserIndexesWithEnd(c, s2, b);
    ExecSnoc(c, s, [] + [e] + [e], Event(b, A));
    more := [] + [e] + [e] + [Event(b, A)];
  }

  lemma UndefLined(c: Config, s: State) returns (more: seq<Event>)
    requires Serving(c) && c.n[1] >= 2 && Lined(c, s, c.n[0])
    ensures Exec(c, s, more).Some? && !NoUndef(Exec(c, s, more).value)
  {
    more := UndefNext(c, s, c.n[0] + 1);
    assert Exec(c, s, more).value.th[c.n[0] + 1].pc.Undef?;
  }

  lemma UndefFrom(c: Config, s0: State) returns (run: seq<Event>)
    requires Serving(c) && c.n[1] >= 2 && Inv(c, s0) && Fresh(c, s0)
    ensures Exec(c, s0, run).Some? && !NoUndef(Exec(c, s0, run).value)
  {
    run := AllReadersTest(c, s0);
    var s := Exec(c, s0, run).value;
    var more := UndefLined(c, s);
    ExecConcat(c, s0, run, more);
    run := run + more;
  }

  /** With two or more deserializers some run makes one of them use the end marker as a buffer id. */
  lemma UndefReachable(c: Config) returns (run: seq<Event>)
    requires Serving(c) && c.n[1] >= 2
    ensures Exec(c, Init(c, []), run).Some? && !NoUndef(Exec(c, Init(c, []), run).value)
  {
    InitIsFresh(c);
    InvStart(c, []);
    run := UndefFrom(c, Init(c, []));
  }

  /** While the only deserializer has not popped yet, a reader that has pushed its last buffer has
      left data at the head of the queue. */
  ghost predicate DataFirst(s: State)
    requires |s.q| == 4
  {
    forall k, i :: 0 <= k < |s.th| && 0 <= i < |s.th| && BeforeFirstPop(s.th[k]) && PastLastPush(s.th[i])
      ==> s.q[1] != [] && s.q[1][0] != END
  }

  lemma OnlyOne(c: Config, s: State, i: nat, k: nat)
    requires Serving(c) && Staffed(c, s) && c.n[1] == 1 && i < |s.th| && k < |s.th|
    requires s.th[i].stage == 1 && s.th[k].stage == 1
    ensures i == k
  {
    assert Sum(s.th, InStage(1)) == c.n[1];
    if i != k {
      SumTwo(s.th, InStage(1), if i < k then i else k, if i < k then k else i);
    }
  }

  lemma FirstPopIsData(c: Config, s: State, i: nat)
    requires Serving(c) && Inv(c, s) && DataFirst(s) && i < |s.th| && s.th[i].stage == 1 && s.th[i].pc.RpFirst?
    requires s.q[1] != []
    ensures s.q[1][0] != END
  {
    if s.q[1][0] == END {
      assert Link(c, s, 0);
      CountIn(s.q[1], END);
      var k := SumWitness(s.th, DueAt(0, c.n[1]));
      assert PastLastPush(s.th[k]) && BeforeFirstPop(s.th[i]);
    }
  }

  predicate PastLastPush(w: Worker) {
    w.stage == 0 && (w.pc.Inc? || Counted(w.pc))
  }

  predicate BeforeFirstPop(w: Worker) {
    w.stage == 1 && (w.pc.RpInit? || w.pc.RpFirst?)
  }

  lemma DataFirstTake(c: Config, s: State, i: nat, p: Plan)
    requires Serving(c) && Ready(c, s, i, p) && p.Take? && DataFirst(s) && NoUndef(s)
    requires s.th[i].pc.RpFirst? ==> s.q[p.j][0] != END
    requires p.j == 1 ==> forall k :: 0 <= k < |s.th| && s.th[k].stage == 1 ==> k == i
    ensures DataFirst(Apply(c, s, i, p).value) && NoUndef(Apply(c, s, i, p).value)
  {
    var s', w := Apply(c, s, i, p).value, s.th[i];
    FitApply(c, s, i, p);
    assert PastLastPush(s'.th[i]) ==> PastLastPush(w);
    assert BeforeFirstPop(s'.th[i]) ==> BeforeFirstPop(w) && p.j != 1;
    assert p.j != 1 ==> s'.q[1] == s.q[1];
  }

  lemma DataFirstGive(c: Config, s: State, i: nat, p: Plan)
    requires Serving(c) && Ready(c, s, i, p) && (p.Give? || p.Bump?) && DataFirst(s) && NoUndef(s)
    requires p.Give? && p.j == 1 && p.x != END ==> END !in s.q[1]
    ensures DataFirst(Apply(c, s, i, p).value) && NoUndef(Apply(c, s, i, p).value)
  {
    var s', w := Apply(c, s, i, p).value, s.th[i];
    assert !BeforeFirstPop(p.w);
    if p.Give? && p.j == 1 && p.x != END {
      assert s'.q[1][0] == (if s.q[1] == [] then p.x else s.q[1][0]);
    } else {
      assert PastLastPush(p.w) ==> PastLastPush(w);
      assert s.q[1] != [] ==> s'.q[1] != [] && s'.q[1][0] == s.q[1][0];
    }
  }

  lemma LocalStays(c: Config, s: State, w: Worker, ch: Choice)
    requires Serving(c) && Shaped(c, s) && w.stage < 4 && Fits(c.roles[w.stage], w) && PlanOf(c, s, w, ch).Local?
    ensures var w' := PlanOf(c, s, w, ch).w;
            && (PastLastPush(w') ==> PastLastPush(w)) && !BeforeFirstPop(w') && !w'.pc.Undef?
  {
  }

  lemma DataFirstLocal(c: Config, s: State, i: nat, p: Plan)
    requires Serving(c) && Inv(c, s) && DataFirst(s) && NoUndef(s) && Ready(c, s, i, p) && p.Local?
    requires (PastLastPush(p.w) ==> PastLastPush(s.th[i])) && !BeforeFirstPop(p.w) && !p.w.pc.Undef?
    ensures DataFirst(Apply(c, s, i, p).value) && NoUndef(Apply(c, s, i, p).value)
  {
  }

  lemma DataFirstStep(c: Config, s: State, i: nat, ch: Choice)
    requires Serving(c) && Inv(c, s) && DataFirst(s) && NoUndef(s) && c.n[1] == 1
    requires i < |s.th| && Step(c, s, i, ch).Some?
    ensures DataFirst(Step(c, s, i, ch).value) && NoUndef(Step(c, s, i, ch).value)
  {
    var p := PlanOf(c, s, s.th[i], ch);
    StepReady(c, s, i, ch);
    match p
    case Take(j) =>
      if s.th[i].pc.RpFirst? {
        FirstPopIsData(c, s, i);
      }
      forall k | 0 <= k < |s.th| && s.th[k].stage == 1 && j == 1
        ensures k == i
      {
        OnlyOne(c, s, i, k);
      }
      DataFirstTake(c, s, i, p);
    case Give(j, x, _) =>
      if j == 1 && x != END {
        NotYet(c, s, i, 0);
      }
      DataFirstGive(c, s, i, p);
    case Bump(_) => DataFirstGive(c, s, i, p);
    case Local(_, _, _, _, _) =>
      LocalStays(c, s, s.th[i], ch);
      DataFirstLocal(c, s, i, p);
  }

  /** A single deserializer never uses the end marker as a buffer id. */
  lemma {:induction false} OneDeserializerIsSafe(c: Config, input: seq<seq<Tuple>>, run: seq<Event>)
    requires Serving(c) && c.n[1] == 1 && Exec(c, Init(c, input), run).Some?
    ensures DataFirst(Exec(c, Init(c, input), run).value) && NoUndef(Exec(c, Init(c, input), run).value)
  {
    if run != [] {
      var e := run[|run| - 1];
      OneDeserializerIsSafe(c, input, run[..|run| - 1]);
      InvAlways(c, input, run[..|run| - 1]);
      DataFirstStep(c, Exec(c, Init(c, input), run[..|run| - 1]).value, e.thread, e.ch);
    }
  }

  /** The deserializer is safe on all inputs and schedules if and only if there is just one of them. */
  lemma DeserializerSafety(c: Config)
    requires Serving(c)
    ensures (forall input, run :: Exec(c, Init(c, input), run).Some? ==> NoUndef(Exec(c, Init(c, input), run).value))
            <==> c.n[1] == 1
  {
    if c.n[1] == 1 {
      forall input, run | Exec(c, Init(c, input), run).Some?
        ensures NoUndef(Exec(c, Init(c, input), run).value)
      {
        OneDeserializerIsSafe(c, input, run);
      }
    } else {
      var run := UndefReachable(c);
      assert !NoUndef(Exec(c, Init(c, []), run).value);
    }
  }
}
