/** The buffer-pool pipeline: a fixed set of buffer ids circulates through bounded FIFO queues
    between four stages of worker threads.  Queue 0 is the free queue, queue i the input of stage i.
    A step of the system is one queue push, one queue pop, one `fetch_add`, one counter comparison,
    or one thread-local action (write a line, move a tuple, run the codec, write to the socket).

    Server: read -> deser -> comp -> send.  Client: receive -> decomp -> ser -> write. */
module Pipeline {
  import opened Options

  type Tuple = string

  /** The id that tells a worker of the next stage to stop. */
  const END: int := -1

  /** What the threads of one stage do.
      Source: takes free buffers and fills them; `keepsLast` says that the thread learns that the
              input has ended only after taking a buffer (the client's receiver), as opposed to
              always pushing its last buffer (the server's reader).
      Forward: pushes its input buffers on as they are (no compression, (de)serialization skipped).
      Swap:   takes a free buffer, runs a codec from the input buffer to it, pushes one of the two
              and frees the other.  Compression falls back to the input buffer when it fails;
              decompression (`decoding`) drops the input then, and forwards what is not compressed.
      Repack: moves tuples from input buffers into output buffers of `tpb` tuples (deserializer).
      Expand: moves the tuples of each input buffer into one or more output buffers (serializer).
      Sink:   consumes its input buffers and frees them (sender, writer). */
  datatype Role = Source(keepsLast: bool) | Forward | Swap(decoding: bool) | Repack | Expand | Sink

  datatype Config = Config(roles: seq<Role>, n: seq<nat>, cap: seq<nat>, tpb: nat, ids: nat) {
    ghost predicate Valid() {
      && |roles| == |n| == |cap| == 4
      && roles[0].Source? && roles[3].Sink?
      && (forall i :: 1 <= i <= 2 ==> roles[i].Forward? || roles[i].Swap? || roles[i].Repack? || roles[i].Expand?)
      && (forall i :: 0 <= i < 4 ==> n[i] >= 1)
      && cap[0] == 0 && tpb >= 1
    }
  }

  /** Program points.  The comment names what the thread does next. */
  datatype Pc =
    // Source
    | SrcTake    // pop a free buffer
    | SrcFill    // write a line into `b`, or decide that `b` is to be pushed
    | SrcPush    // push `b`, to go on with another buffer
    | SrcLast    // push `b`, the last one
    // Forward, Swap, Expand, Sink
    | Idle       // pop an input buffer
    | Got        // decide what to do with `b`
    | Fwd        // push `b` unchanged
    | Need       // pop a free buffer for the output
    | Both       // run the codec from `b` to `o`
    | PushOut    // push `b`, then free `o`
    | Rel        // free `o`
    | Drop       // free `b`, then free `o`
    // Repack
    | RpInit     // pop the first output buffer
    | RpFirst    // pop the first input buffer
    | RpWork     // move a tuple from `b` to `o`
    | RpFull     // push `o`, which is full
    | RpRefill   // pop a fresh output buffer
    | RpRel      // free `b`
    | RpNext     // pop the next input buffer
    | RpLast     // push `o`, which holds the remaining tuples
    // Expand
    | ExWork     // move a tuple from `b` to `o`
    | ExSpill    // push `o`, which has no room for `line`
    | ExRefill   // pop a fresh output buffer
    | ExFill     // write `line` into `o`
    // every stage but the last
    | Inc        // fetch_add on the counter of finished threads
    | Test       // compare the counter with the number of threads
    | Sent       // push `k` more end markers
    | Done       // returned
    | DoneSent   // returned after issuing end markers
    // the deserializer indexed the pool with -1
    | Undef

  /** A thread with its local variables: input and output buffer (`END` when it holds none), the
      lines it still has to read, a tuple in its hands, and the end markers it has left to push. */
  datatype Worker = Worker(stage: nat, pc: Pc, b: int, o: int, todo: seq<Tuple>, line: seq<Tuple>, k: nat)

  type Pool = seq<seq<Tuple>>

  datatype State = State(
    q: seq<seq<int>>,        // q[j][0] is popped next
    count: seq<nat>,         // finished-thread counters of stages 0, 1, 2 (index 3 unused)
    pool: Pool,              // the tuples each buffer holds
    th: seq<Worker>,
    sent: seq<Tuple>,        // what the sinks wrote
    dropped: seq<Tuple>,     // what failed decompressions discarded
    lost: seq<int>)          // ids no thread or queue refers to any more

  function At(pool: Pool, b: int): seq<Tuple> {
    if 0 <= b < |pool| then pool[b] else []
  }

  function Put(pool: Pool, b: int, ts: seq<Tuple>): Pool {
    if 0 <= b < |pool| then pool[b := ts] else pool
  }

  datatype Choice = A | B | C

  /** What a worker will do next. */
  datatype Plan =
    | Take(j: nat)
    | Give(j: nat, x: int, w: Worker)
    | Bump(w: Worker)
    | Local(w: Worker, pool: Pool, sent: seq<Tuple>, dropped: seq<Tuple>, lost: seq<int>)
    | Halt

  function Become(w: Worker, pool: Pool): Plan {
    Local(w, pool, [], [], [])
  }

  function PlanSource(keepsLast: bool, w: Worker, ch: Choice, pool: Pool): Plan {
    match w.pc
    case SrcTake => Take(0)
    case SrcFill =>
      if w.line != [] then Become(w.(line := []), Put(pool, w.b, At(pool, w.b) + w.line))
      else if w.todo != [] then
        if ch.A? then Become(w.(todo := w.todo[1..]), Put(pool, w.b, At(pool, w.b) + [w.todo[0]]))
        else if !keepsLast then Become(w.(pc := SrcPush, todo := w.todo[1..], line := [w.todo[0]]), pool)
        else if At(pool, w.b) != [] then Become(w.(pc := SrcPush), pool)
        else Halt
      else if !keepsLast then Become(w.(pc := SrcLast), pool)
      else if At(pool, w.b) == [] then Become(w.(pc := Inc, b := END, o := w.b), pool)
      else Become(w.(pc := SrcPush), pool)
    case SrcPush => Give(1, w.b, w.(pc := SrcTake, b := END))
    case SrcLast => Give(1, w.b, w.(pc := Inc, b := END))
    case _ => Halt
  }

  function PlanForward(w: Worker, pool: Pool): Plan {
    match w.pc
    case Idle => Take(w.stage)
    case Got => Become(w.(pc := Fwd), pool)
    case Fwd => Give(w.stage + 1, w.b, w.(pc := Idle, b := END))
    case _ => Halt
  }

  function PlanSwap(decoding: bool, w: Worker, ch: Choice, pool: Pool): Plan {
    match w.pc
    case Idle => Take(w.stage)
    case Got => Become(w.(pc := if decoding && ch.A? then Fwd else Need), pool)
    case Fwd => Give(w.stage + 1, w.b, w.(pc := Idle, b := END))
    case Need => Take(0)
    case Both =>
      if ch.A? then
        Become(w.(pc := PushOut, b := w.o, o := w.b), Put(Put(pool, w.o, At(pool, w.b)), w.b, []))
      else if decoding then Local(w.(pc := Drop), Put(pool, w.b, []), [], At(pool, w.b), [])
      else Become(w.(pc := PushOut), pool)
    case PushOut => Give(w.stage + 1, w.b, w.(pc := Rel, b := END))
    case Drop => Give(0, w.b, w.(pc := Rel, b := END))
    case Rel => Give(0, w.o, w.(pc := Idle, o := END))
    case _ => Halt
  }

  function PlanRepack(tpb: nat, w: Worker, pool: Pool): Plan {
    match w.pc
    case RpInit => Take(0)
    case RpFirst => Take(w.stage)
    case RpWork =>
      var from, to := At(pool, w.b), At(pool, w.o);
      if from == [] then Become(w.(pc := RpRel), pool)
      else
        Become(w.(pc := if |to| + 1 == tpb then RpFull else RpWork),
               Put(Put(pool, w.b, from[1..]), w.o, to + [from[0]]))
    case RpFull => Give(w.stage + 1, w.o, w.(pc := RpRefill, o := END))
    case RpRefill => Take(0)
    case RpRel => Give(0, w.b, w.(pc := RpNext, b := END))
    case RpNext => Take(w.stage)
    case RpLast => Give(w.stage + 1, w.o, w.(pc := Inc, o := END))
    case _ => Halt
  }

  function PlanExpand(w: Worker, ch: Choice, pool: Pool): Plan {
    match w.pc
    case Idle => Take(w.stage)
    case Got => Become(w.(pc := Need), pool)
    case Need => Take(0)
    case ExWork =>
      var from, to := At(pool, w.b), At(pool, w.o);
      if from == [] then
        if to != [] then Become(w.(pc := PushOut, b := w.o, o := w.b), pool)
        else Local(w.(pc := Rel, b := END, o := w.b), pool, [], [], [w.o])
      else if ch.A? then Become(w, Put(Put(pool, w.b, from[1..]), w.o, to + [from[0]]))
      else Become(w.(pc := ExSpill, line := [from[0]]), Put(pool, w.b, from[1..]))
    case ExSpill => Give(w.stage + 1, w.o, w.(pc := ExRefill, o := END))
    case ExRefill => Take(0)
    case ExFill => Become(w.(pc := ExWork, line := []), Put(pool, w.o, At(pool, w.o) + w.line))
    case PushOut => Give(w.stage + 1, w.b, w.(pc := Rel, b := END))
    case Rel => Give(0, w.o, w.(pc := Idle, o := END))
    case _ => Halt
  }

  function PlanSink(w: Worker, pool: Pool): Plan {
    match w.pc
    case Idle => Take(w.stage)
    case Got => Local(w.(pc := Rel, b := END, o := w.b), Put(pool, w.b, []), At(pool, w.b), [], [])
    case Rel => Give(0, w.o, w.(pc := Idle, o := END))
    case _ => Halt
  }

  /** The end of every stage but the last.  `last` is the outcome of comparing the counter with the
      number of threads of the stage; the comparison is a step of its own after the `fetch_add`. */
  function PlanEnd(downstream: nat, last: bool, w: Worker, pool: Pool): Plan {
    match w.pc
    case Inc => Bump(w.(pc := Test))
    case Test => Become(if last then w.(pc := Sent, k := downstream) else w.(pc := Done), pool)
    case Sent =>
      if w.k == 0 then Become(w.(pc := DoneSent), pool)
      else Give(w.stage + 1, END, w.(k := w.k - 1))
    case _ => Halt
  }

  predicate Ending(pc: Pc) {
    pc.Inc? || pc.Test? || pc.Sent? || pc.Done? || pc.DoneSent? || pc.Undef?
  }

  function PlanOf(c: Config, s: State, w: Worker, ch: Choice): Plan
    requires |c.roles| == |c.n| == 4 && |s.count| == 4
  {
    if w.stage >= 4 then Halt
    else if Ending(w.pc) then
      if w.stage < 3 then PlanEnd(c.n[w.stage + 1], s.count[w.stage] == c.n[w.stage], w, s.pool)
      else Halt
    else match c.roles[w.stage]
      case Source(keepsLast) => PlanSource(keepsLast, w, ch, s.pool)
      case Forward => PlanForward(w, s.pool)
      case Swap(decoding) => PlanSwap(decoding, w, ch, s.pool)
      case Repack => PlanRepack(c.tpb, w, s.pool)
      case Expand => PlanExpand(w, ch, s.pool)
      case Sink => PlanSink(w, s.pool)
  }

  /** The worker after popping `x`. */
  function Receive(role: Role, w: Worker, x: int, pool: Pool): Worker {
    match w.pc
    case SrcTake => w.(pc := SrcFill, b := x)
    case Idle => if x != END then w.(pc := Got, b := x) else w.(pc := if role.Sink? then Done else Inc)
    case Need => w.(pc := if role.Expand? then ExWork else Both, o := x)
    case RpInit => w.(pc := RpFirst, o := x)
    case RpFirst => if x == END then w.(pc := Undef) else w.(pc := RpWork, b := x)
    case RpRefill => w.(pc := RpWork, o := x)
    case RpNext =>
      if x != END then w.(pc := RpWork, b := x)
      else w.(pc := if At(pool, w.o) == [] then Inc else RpLast)
    case ExRefill => w.(pc := ExFill, o := x)
    case _ => w
  }

  predicate HasSpace(c: Config, s: State, j: nat)
    requires |c.cap| == 4 && |s.q| == 4 && j < 4
  {
    c.cap[j] == 0 || |s.q[j]| < c.cap[j]
  }

  predicate Shaped(c: Config, s: State) {
    |c.roles| == |c.n| == |c.cap| == 4 && |s.q| == |s.count| == 4
  }

  /** The effect of thread `i` carrying out plan `p`; `None` when it is blocked or has returned. */
  function Apply(c: Config, s: State, i: nat, p: Plan): (r: Option<State>)
    requires Shaped(c, s) && i < |s.th|
    ensures r.Some? ==> Shaped(c, r.value) && |r.value.th| == |s.th|
  {
    var w := s.th[i];
    match p
    case Take(j) =>
      if j < 4 && s.q[j] != [] && w.stage < 4 then
        Some(s.(q := s.q[j := s.q[j][1..]],
                th := s.th[i := Receive(c.roles[w.stage], w, s.q[j][0], s.pool)]))
      else None
    case Give(j, x, w') =>
      if j < 4 && HasSpace(c, s, j) then Some(s.(q := s.q[j := s.q[j] + [x]], th := s.th[i := w']))
      else None
    case Bump(w') =>
      if w.stage < 4 then Some(s.(count := s.count[w.stage := s.count[w.stage] + 1], th := s.th[i := w']))
      else None
    case Local(w', pool, sent, dropped, lost) =>
      Some(s.(pool := pool, th := s.th[i := w'],
              sent := s.sent + sent, dropped := s.dropped + dropped, lost := s.lost + lost))
    case Halt => None
  }

  /** One step of thread `i`. */
  function Step(c: Config, s: State, i: nat, ch: Choice): (r: Option<State>)
    requires Shaped(c, s) && i < |s.th|
    ensures r.Some? ==> Shaped(c, r.value) && |r.value.th| == |s.th|
  {
    Apply(c, s, i, PlanOf(c, s, s.th[i], ch))
  }

  datatype Event = Event(thread: nat, ch: Choice)

  /** The state after a run, or `None` if some event of it was not enabled. */
  function Exec(c: Config, s: State, run: seq<Event>): Option<State>
    requires Shaped(c, s)
    ensures Exec(c, s, run).Some? ==> Shaped(c, Exec(c, s, run).value)
  {
    if run == [] then Some(s)
    else
      var e := run[|run| - 1];
      match Exec(c, s, run[..|run| - 1])
      case None => None
      case Some(mid) => if e.thread < |mid.th| then Step(c, mid, e.thread, e.ch) else None
  }

  ghost predicate Stuck(c: Config, s: State)
    requires Shaped(c, s)
  {
    forall i, ch :: 0 <= i < |s.th| ==> Step(c, s, i, ch) == None
  }

  function Start(stage: nat, role: Role, todo: seq<Tuple>): Worker {
    Worker(stage, if role.Source? then SrcTake else if role.Repack? then RpInit else Idle,
           END, END, todo, [], 0)
  }

  function Crew(stage: nat, role: Role, n: nat, input: seq<seq<Tuple>>): (th: seq<Worker>)
    ensures |th| == n
    ensures forall i :: 0 <= i < n ==> th[i] == Start(stage, role, if i < |input| then input[i] else [])
  {
    seq(n, i => Start(stage, role, if 0 <= i < |input| then input[i] else []))
  }

  function Iota(n: nat): (s: seq<int>)
    ensures |s| == n && forall i :: 0 <= i < n ==> s[i] == i
  {
    seq(n, i => i)
  }

  /** All ids are free; thread `i` of stage 0 has `input[i]` to deliver. */
  function Init(c: Config, input: seq<seq<Tuple>>): State
    requires |c.roles| == |c.n| == 4
  {
    State([Iota(c.ids), [], [], []], [0, 0, 0, 0], seq(c.ids, i => []),
          Crew(0, c.roles[0], c.n[0], input) + Crew(1, c.roles[1], c.n[1], [])
          + Crew(2, c.roles[2], c.n[2], []) + Crew(3, c.roles[3], c.n[3], []),
          [], [], [])
  }
}
