/** Putting runs together, and bringing them to their end. */
module PipelineRuns {
  import opened Options
  import opened Pipeline
  import opened PipelineProgress
  import opened PipelineTermination

  lemma ExecSnoc(c: Config, s: State, run: seq<Event>, e: Event)
    requires Shaped(c, s) && Exec(c, s, run).Some? && e.thread < |Exec(c, s, run).value.th|
    ensures Exec(c, s, run + [e]) == Step(c, Exec(c, s, run).value, e.thread, e.ch)
  {
    assert (run + [e])[..|run|] == run;
  }

  lemma {:induction false} ExecConcat(c: Config, s: State, run: seq<Event>, more: seq<Event>)
    requires Shaped(c, s) && Exec(c, s, run).Some?
    ensures Exec(c, s, run + more) == Exec(c, Exec(c, s, run).value, more)
  {
    if more == [] {
      assert run + more == run;
    } else {
      var n := |more| - 1;
      ExecConcat(c, s, run, more[..n]);
      assert (run + more)[..|run + more| - 1] == run + more[..n];
    }
  }

  lemma StepAsRun(c: Config, s: State, i: nat, ch: Choice) returns (e: Event, s': State)
    requires Shaped(c, s) && i < |s.th| && Step(c, s, i, ch).Some?
    ensures Exec(c, s, [e]) == Some(s') == Step(c, s, i, ch)
  {
    e, s' := Event(i, ch), Step(c, s, i, ch).value;
    ExecSnoc(c, s, [], e);
    assert [] + [e] == [e];
  }

  lemma {:induction false} InvFrom(c: Config, s0: State, run: seq<Event>)
    requires c.Valid() && Inv(c, s0) && Exec(c, s0, run).Some?
    ensures Inv(c, Exec(c, s0, run).value)
  {
    if run != [] {
      var e := run[|run| - 1];
      InvFrom(c, s0, run[..|run| - 1]);
      InvStep(c, Exec(c, s0, run[..|run| - 1]).value, e.thread, e.ch);
    }
  }

  // ---- Every run ends, and can only end well ----

  /** Some thread can move, and then the rest of the work is less. */
  lemma OneFurther(c: Config, s: State) returns (e: Event, s': State)
    requires c.Valid() && Inv(c, s) && !Stuck(c, s)
    ensures Exec(c, s, [e]) == Some(s') && Inv(c, s') && Measure(c, s') < Measure(c, s)
  {
    var i, ch :| 0 <= i < |s.th| && Step(c, s, i, ch) != None;
    InvStep(c, s, i, ch);
    StepShrinks(c, s, i, ch);
    e, s' := StepAsRun(c, s, i, ch);
  }

  lemma {:induction false} Finish(c: Config, s: State) returns (more: seq<Event>, s': State)
    requires c.Valid() && Inv(c, s)
    ensures Exec(c, s, more) == Some(s') && Stuck(c, s')
    decreases Measure(c, s)
  {
    if Stuck(c, s) {
      more, s' := [], s;
    } else {
      var e, s1 := OneFurther(c, s);
      more, s' := Finish(c, s1);
      ExecConcat(c, s, [e], more);
      more := [e] + more;
    }
  }

  /** Every run can be continued until nothing moves any more. */
  lemma Completion(c: Config, input: seq<seq<Tuple>>, run: seq<Event>) returns (more: seq<Event>)
    requires c.Valid() && Exec(c, Init(c, input), run).Some?
    ensures Exec(c, Init(c, input), run + more).Some? && Stuck(c, Exec(c, Init(c, input), run + more).value)
  {
    InvAlways(c, input, run);
    var s';
    more, s' := Finish(c, Exec(c, Init(c, input), run).value);
    ExecConcat(c, Init(c, input), run, more);
  }
}
