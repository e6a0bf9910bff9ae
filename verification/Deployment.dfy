/** The queues the server and the client set up, and what follows for their pipelines. */
module Deployment {
  import opened Powers
  import opened Pipeline
  import opened PipelineShape
  import opened PipelineProgress
  import opened PipelineDelivery
  import opened PipelineFilled
  import opened PipelineRace
  import opened PipelineJoin
  import opened PipelineHang
  import opened PipelineDeadlock
  import opened PipelineOrder
  import opened PipelineReaders
  import opened Queue

  // ---- C++ integer arithmetic ----

  /** Division of `int`s, towards zero. */
  function Quot(a: int, b: int): int
    requires b > 0
  {
    if a >= 0 then a / b else -((-a) / b)
  }

  function Rem(a: int, b: int): int
    requires b > 0
  {
    a - b * Quot(a, b)
  }

  /** Conversion to a 64-bit `size_t`. */
  function ToSize(a: int): nat {
    a % 0x1_0000_0000_0000_0000
  }

  /** The remainder has the sign of the dividend, as truncation towards zero has it. */
  lemma QuotIs(a: int, b: int)
    requires b > 0
    ensures a == b * Quot(a, b) + Rem(a, b) && -b < Rem(a, b) < b
    ensures (a >= 0 ==> Rem(a, b) >= 0) && (a <= 0 ==> Rem(a, b) <= 0)
  {
    if a < 0 {
      assert -a == b * ((-a) / b) + (-a) % b;
      assert b * -((-a) / b) == -(b * ((-a) / b));
    } else {
      assert a == b * (a / b) + a % b;
    }
  }

  /** Conversion wraps around: what the threads lack becomes a capacity that is never reached. */
  lemma ToSizeIs(a: int)
    ensures 0 <= a < 0x1_0000_0000_0000_0000 ==> ToSize(a) == a
    ensures -0x1_0000_0000_0000_0000 <= a < 0 ==> ToSize(a) == a + 0x1_0000_0000_0000_0000
  {
  }

  // ---- Constructors ----

  /** The thread counts of the four stages. */
  datatype Staff = Staff(first: nat, second: nat, third: nat, fourth: nat) {
    function Total(): nat {
      first + second + third + fourth
    }
  }

  method FillFree(free: CustomQueue<int>, buffers: int)
    requires free.Contents() == [] && free.capacity == 0
    modifies free
    ensures free.Contents() == Iota(if buffers < 0 then 0 else buffers) && free.capacity == 0
  {
    var i := 0;
    while i < buffers
      invariant 0 <= i && (i <= buffers || i == 0)
      invariant free.Contents() == Iota(i) && free.capacity == 0
    {
      var done := free.Push(i);
      i := i + 1;
      assert free.Contents() == Iota(i);
    }
  }

  /** All ids into the free queue, and the capacities of the others. */
  method Prepare(free: CustomQueue<int>, a: CustomQueue<int>, b: CustomQueue<int>, c: CustomQueue<int>,
                 buffers: int, x: nat, y: nat, z: nat)
    requires free != a && free != b && free != c && a != b && a != c && b != c && free.capacity == 0
    requires free.Contents() == a.Contents() == b.Contents() == c.Contents() == []
    modifies free, a, b, c
    ensures free.Contents() == Iota(if buffers < 0 then 0 else buffers) && free.capacity == 0
    ensures a.Contents() == b.Contents() == c.Contents() == []
    ensures a.capacity == x && b.capacity == y && c.capacity == z
  {
    a.SetCapacity(x);
    b.SetCapacity(y);
    c.SetCapacity(z);
    FillFree(free, buffers);
  }

  class Queues {
    const free: CustomQueue<int>
    const first: CustomQueue<int>    // into stage 1
    const second: CustomQueue<int>   // into stage 2
    const third: CustomQueue<int>    // into stage 3

    ghost predicate Hold(q: seq<seq<int>>, cap: seq<nat>)
      reads free, first, second, third
    {
      && q == [free.Contents(), first.Contents(), second.Contents(), third.Contents()]
      && cap == [free.capacity, first.capacity, second.capacity, third.capacity]
    }

    /** The server: all ids go to the free queue, and what the threads do not need is divided among
        the queues, the remainder going to the deserializers' queue. */
    constructor Server(buffers: int, staff: Staff)
      ensures Hold([Iota(if buffers < 0 then 0 else buffers), [], [], []], ServerCapacities(buffers, staff))
      ensures fresh(free) && fresh(first) && fresh(second) && fresh(third)
    {
      free := new CustomQueue<int>(0);
      first := new CustomQueue<int>(0);
      second := new CustomQueue<int>(0);
      third := new CustomQueue<int>(0);
      new;
      var caps := ServerCapacities(buffers, staff);
      Prepare(free, first, second, third, buffers, caps[1], caps[2], caps[3]);
    }

    /** The client: the remainder goes to the writers' queue. */
    constructor Client(buffers: int, staff: Staff)
      ensures Hold([Iota(if buffers < 0 then 0 else buffers), [], [], []], ClientCapacities(buffers, staff))
      ensures fresh(free) && fresh(first) && fresh(second) && fresh(third)
    {
      free := new CustomQueue<int>(0);
      first := new CustomQueue<int>(0);
      second := new CustomQueue<int>(0);
      third := new CustomQueue<int>(0);
      new;
      var caps := ClientCapacities(buffers, staff);
      Prepare(free, first, second, third, buffers, caps[1], caps[2], caps[3]);
    }
  }

  function ServerCapacities(buffers: int, staff: Staff): seq<nat> {
    var available := buffers - staff.Total();
    var q := Quot(available, 4);
    [0, ToSize(q + Rem(available, 4)), ToSize(q), ToSize(q)]
  }

  function ClientCapacities(buffers: int, staff: Staff): seq<nat> {
    var available := buffers - staff.Total();
    var q := Quot(available, 4);
    [0, ToSize(q), ToSize(q), ToSize(q + Rem(available, 4))]
  }

  /** A thread in every stage and a buffer for each.  A pool of 2^31 or more buffers does not fit the C++ `int`. */
  predicate Equipped(buffers: nat, staff: Staff) {
    && staff.first >= 1 && staff.second >= 1 && staff.third >= 1 && staff.fourth >= 1
    && staff.Total() <= buffers < 0x8000_0000
  }

  function Counts(staff: Staff): seq<nat> {
    [staff.first, staff.second, staff.third, staff.fourth]
  }

  /** The buffers the threads leave to a queue, and what remains.  A share of zero makes queues unbounded. */
  function Share(buffers: nat, staff: Staff): nat
    requires Equipped(buffers, staff)
  {
    (buffers - staff.Total()) / 4
  }

  function Remainder(buffers: nat, staff: Staff): (r: nat)
    requires Equipped(buffers, staff)
    ensures r < 4 && buffers == 4 * Share(buffers, staff) + r + staff.Total()
  {
    (buffers - staff.Total()) % 4
  }

  lemma CapacitiesAre(buffers: nat, staff: Staff)
    requires Equipped(buffers, staff)
    ensures var q, r := Share(buffers, staff), Remainder(buffers, staff);
            ServerCapacities(buffers, staff) == [0, q + r, q, q] && ClientCapacities(buffers, staff) == [0, q, q, q + r]
  {
  }

  // ---- The server ----

  /** The server's pipeline; with `skip` the deserializers only pass buffers on, without `codec` the
      compressors do. */
  function ServerConfig(buffers: nat, staff: Staff, skip: bool, codec: bool, tpb: nat): Config {
    Config([Source(false), if skip then Forward else Repack, if codec then Swap(false) else Forward, Sink],
           Counts(staff), ServerCapacities(buffers, staff), tpb, buffers)
  }

  /** Few enough deserializers, where they and the compressors both take free buffers, and bounded queues before
      the threads that do. */
  predicate ServerFits(buffers: nat, staff: Staff, skip: bool, codec: bool)
    requires Equipped(buffers, staff)
  {
    var q, r := Share(buffers, staff), Remainder(buffers, staff);
    if q >= 1 then skip || !codec || staff.second < 2 * q + staff.fourth else !codec && (skip || r >= 1)
  }

  /** `c` is a server with a thread in each stage that meets this. */
  ghost predicate IsServer(c: Config) {
    exists staff, skip, codec {:trigger ServerConfig(c.ids, staff, skip, codec, c.tpb)} ::
      && c == ServerConfig(c.ids, staff, skip, codec, c.tpb) && c.tpb >= 1
      && Equipped(c.ids, staff) && ServerFits(c.ids, staff, skip, codec)
  }

  /** The condition is what the counting argument needs. */
  lemma ServerHolds(buffers: nat, staff: Staff, skip: bool, codec: bool, tpb: nat)
    requires Equipped(buffers, staff) && tpb >= 1
    ensures var c := ServerConfig(buffers, staff, skip, codec, tpb);
            && c.Valid() && Lossless(c) && Unexpanding(c)
            && (Bounding(c) && Holdable(c) < c.ids <==> ServerFits(buffers, staff, skip, codec))
  {
    CapacitiesAre(buffers, staff);
  }

  lemma ServerRoomy(c: Config, s: State)
    requires IsServer(c)
    ensures c.Valid() && Lossless(c) && Unexpanding(c)
    ensures s.lost == [] ==> Roomy(c, s)
  {
    var staff, skip, codec :| c == ServerConfig(c.ids, staff, skip, codec, c.tpb) && c.tpb >= 1
                              && Equipped(c.ids, staff) && ServerFits(c.ids, staff, skip, codec);
    ServerHolds(c.ids, staff, skip, codec, c.tpb);
  }

  /** The first-pop defect is out of reach when deserialization is skipped or there is one deserializer. */
  lemma ServerNeverUndefined(c: Config, input: seq<seq<Tuple>>, run: seq<Event>)
    requires c.Valid() && ((Serving(c) && c.n[1] == 1) || (!c.roles[1].Repack? && !c.roles[2].Repack?))
    requires Exec(c, Init(c, input), run).Some?
    ensures NoUndef(Exec(c, Init(c, input), run).value)
  {
    if c.roles[1].Repack? {
      OneDeserializerIsSafe(c, input, run);
    } else {
      InvAlways(c, input, run);
      LegalMeansDefined(c, Exec(c, Init(c, input), run).value);
    }
  }

  lemma LegalMeansDefined(c: Config, s: State)
    requires c.Valid() && AllFit(c, s) && !c.roles[1].Repack? && !c.roles[2].Repack?
    ensures NoUndef(s)
  {
    forall k | 0 <= k < |s.th|
      ensures !s.th[k].pc.Undef?
    {
      assert Fits(c.roles[s.th[k].stage], s.th[k]);
    }
  }

  /** Deadlock freedom: when no thread of the server can move, every sender has returned and what
      was sent is exactly the input, each tuple once. */
  lemma ServerDelivers(c: Config, input: seq<seq<Tuple>>, run: seq<Event>)
    requires IsServer(c) && c.Valid() && Exec(c, Init(c, input), run).Some?
    requires var s := Exec(c, Init(c, input), run).value;
             Stuck(c, s) && NoUndef(s)
    ensures var s := Exec(c, Init(c, input), run).value;
            SinksDone(s) && Drained(s) && multiset(s.sent) == InputOf(c, input)
  {
    var s := Exec(c, Init(c, input), run).value;
    ServerRoomy(c, s);
    NothingDropped(c, input, run);
    StuckMeansDelivered(c, input, run);
  }

  /** A server with one thread in every stage sends the lines in their order: at any time the beginning of the input,
      and all of it when no thread can move. */
  lemma ServerSendsInOrder(c: Config, input: seq<seq<Tuple>>, run: seq<Event>)
    requires IsServer(c) && c.Valid() && Single(c) && Exec(c, Init(c, input), run).Some?
    ensures var s := Exec(c, Init(c, input), run).value;
            s.sent <= InputTo(input) && (Stuck(c, s) ==> s.sent == InputTo(input))
  {
    var s := Exec(c, Init(c, input), run).value;
    ServerRoomy(c, s);
    ServerShape(c);
    SentInOrder(c, input, run);
    if Stuck(c, s) {
      ServerNeverUndefined(c, input, run);
      NothingDropped(c, input, run);
      StuckMeansInOrder(c, input, run);
    }
  }

  lemma ServerShape(c: Config)
    requires IsServer(c)
    ensures |c.roles| == 4 && !c.roles[2].Repack? && (c.roles[1].Repack? ==> c.roles[0] == Source(false))
  {
  }

  /** With any numbers of threads a buffer of the server has the lines of one reader in that reader's order. */
  lemma ServerBuffersInOrder(c: Config, input: seq<seq<Tuple>>, run: seq<Event>, r: nat, mine: Tuple -> bool, x: nat)
    requires IsServer(c) && c.Valid() && r < c.n[0] && OnlyFrom(c, input, r, mine) && Exec(c, Init(c, input), run).Some? && x < c.ids
    ensures Within(Only(mine, At(Exec(c, Init(c, input), run).value.pool, x)), Only(mine, Shares(c.n[0], input)[r]))
  {
    ServerShape(c);
    BuffersInOrder(c, input, run, r, mine, x);
  }

  /** No run on any input gets stuck before the last stage is done. */
  ghost predicate NeverStuckEarly(c: Config)
    requires c.Valid()
  {
    forall input, run {:trigger Exec(c, Init(c, input), run)} :: Exec(c, Init(c, input), run).Some? ==> EndsWell(c, Exec(c, Init(c, input), run).value)
  }

  ghost predicate EndsWell(c: Config, s: State)
    requires Shaped(c, s)
  {
    Stuck(c, s) && NoUndef(s) ==> SinksDone(s)
  }

  lemma CrowdedSticks(c: Config)
    requires Crowded(c)
    ensures !NeverStuckEarly(c)
  {
    var run := DeadlockReachable(c);
    assert !EndsWell(c, Exec(c, Init(c, Lots(c)), run).value);
  }

  lemma ServerNeverSticks(c: Config)
    requires IsServer(c) && c.Valid()
    ensures NeverStuckEarly(c)
  {
    forall input, run | Exec(c, Init(c, input), run).Some?
      ensures EndsWell(c, Exec(c, Init(c, input), run).value)
    {
      if Stuck(c, Exec(c, Init(c, input), run).value) && NoUndef(Exec(c, Init(c, input), run).value) {
        ServerDelivers(c, input, run);
      }
    }
  }

  lemma ServerCrowded(buffers: nat, staff: Staff, skip: bool, codec: bool, tpb: nat)
    requires Equipped(buffers, staff) && tpb >= 1 && !ServerFits(buffers, staff, skip, codec)
    ensures Crowded(ServerConfig(buffers, staff, skip, codec, tpb))
  {
    ServerHolds(buffers, staff, skip, codec, tpb);
    CapacitiesAre(buffers, staff);
  }

  /** The condition is exact: it is when a server never gets stuck before its senders are done, on any input and
      with any schedule. */
  lemma DeadlockFreedomIsExact(buffers: nat, staff: Staff, skip: bool, codec: bool, tpb: nat)
    requires Equipped(buffers, staff) && tpb >= 1
    ensures var c := ServerConfig(buffers, staff, skip, codec, tpb);
            c.Valid() && (NeverStuckEarly(c) <==> ServerFits(buffers, staff, skip, codec))
  {
    var c := ServerConfig(buffers, staff, skip, codec, tpb);
    ServerHolds(buffers, staff, skip, codec, tpb);
    if ServerFits(buffers, staff, skip, codec) {
      assert IsServer(c);
      ServerNeverSticks(c);
    } else {
      ServerCrowded(buffers, staff, skip, codec, tpb);
      CrowdedSticks(c);
    }
  }

  // ---- The client ----

  /** The client's pipeline; with `skip` the serializers only pass buffers on.  Where the server has no `codec` no
      received buffer is compressed, and the decompressors only pass them on. */
  function ClientConfig(buffers: nat, staff: Staff, skip: bool, codec: bool): Config {
    Config([Source(true), if codec then Swap(true) else Forward, if skip then Forward else Expand, Sink],
           Counts(staff), ClientCapacities(buffers, staff), 1, buffers)
  }

  predicate ClientFits(buffers: nat, staff: Staff, skip: bool, codec: bool)
    requires Equipped(buffers, staff)
  {
    var q, r := Share(buffers, staff), Remainder(buffers, staff);
    if q >= 1 then skip || !codec || staff.second < 2 * q + r + staff.fourth else skip && !codec
  }

  ghost predicate IsClient(c: Config) {
    exists staff, skip, codec {:trigger ClientConfig(c.ids, staff, skip, codec)} ::
      c == ClientConfig(c.ids, staff, skip, codec) && Equipped(c.ids, staff) && ClientFits(c.ids, staff, skip, codec)
  }

  lemma ClientHolds(buffers: nat, staff: Staff, skip: bool, codec: bool)
    requires Equipped(buffers, staff)
    ensures var c := ClientConfig(buffers, staff, skip, codec);
            Receiving(c) && (Bounding(c) && Holdable(c) < c.ids <==> ClientFits(buffers, staff, skip, codec))
  {
    CapacitiesAre(buffers, staff);
  }

  lemma ClientRoomy(c: Config, s: State)
    requires IsClient(c)
    ensures Receiving(c)
    ensures s.lost == [] ==> Roomy(c, s)
  {
    var staff, skip, codec :| c == ClientConfig(c.ids, staff, skip, codec) && Equipped(c.ids, staff) && ClientFits(c.ids, staff, skip, codec);
    ClientHolds(c.ids, staff, skip, codec);
  }

  /** Deadlock freedom of the client: what was written is the input, but for what failed
      decompressions discarded. */
  lemma ClientDelivers(c: Config, input: seq<seq<Tuple>>, run: seq<Event>)
    requires IsClient(c) && c.Valid() && Exec(c, Init(c, input), run).Some?
    requires Stuck(c, Exec(c, Init(c, input), run).value)
    ensures var s := Exec(c, Init(c, input), run).value;
            && SinksDone(s) && Drained(s) && s.lost == []
            && multiset(s.sent) + multiset(s.dropped) == InputOf(c, input)
  {
    var s := Exec(c, Init(c, input), run).value;
    ClientRoomy(c, s);
    NothingLost(c, input, run);
    ServerNeverUndefined(c, input, run);
    StuckMeansDelivered(c, input, run);
  }

  /** A client with one thread in every stage writes the tuples in their order, but for those it discards. */
  lemma ClientWritesInOrder(c: Config, input: seq<seq<Tuple>>, run: seq<Event>)
    requires Receiving(c) && Single(c) && Exec(c, Init(c, input), run).Some?
    ensures Within(Exec(c, Init(c, input), run).value.sent, InputTo(input))
  {
    SentInOrder(c, input, run);
  }

  lemma ClientNeverSticks(c: Config)
    requires IsClient(c) && c.Valid()
    ensures NeverStuckEarly(c)
  {
    forall input, run | Exec(c, Init(c, input), run).Some?
      ensures EndsWell(c, Exec(c, Init(c, input), run).value)
    {
      if Stuck(c, Exec(c, Init(c, input), run).value) {
        ClientDelivers(c, input, run);
      }
    }
  }

  lemma ClientCrowded(buffers: nat, staff: Staff, skip: bool, codec: bool)
    requires Equipped(buffers, staff) && !ClientFits(buffers, staff, skip, codec)
    ensures Crowded(ClientConfig(buffers, staff, skip, codec))
  {
    ClientHolds(buffers, staff, skip, codec);
    CapacitiesAre(buffers, staff);
  }

  /** The client's condition is exact, too. */
  lemma ClientFreedomIsExact(buffers: nat, staff: Staff, skip: bool, codec: bool)
    requires Equipped(buffers, staff)
    ensures var c := ClientConfig(buffers, staff, skip, codec);
            c.Valid() && (NeverStuckEarly(c) <==> ClientFits(buffers, staff, skip, codec))
  {
    var c := ClientConfig(buffers, staff, skip, codec);
    ClientHolds(buffers, staff, skip, codec);
    if ClientFits(buffers, staff, skip, codec) {
      assert IsClient(c);
      ClientNeverSticks(c);
    } else {
      ClientCrowded(buffers, staff, skip, codec);
      CrowdedSticks(c);
    }
  }

  // ---- Whether all threads return ----

  lemma SinksReturn(c: Config, s: State)
    requires c.Valid() && Inv(c, s) && AllReturned(s)
    ensures SinksDone(s)
  {
    forall k | 0 <= k < |s.th| && s.th[k].stage == 3
      ensures s.th[k].pc.Done?
    {
      assert Fits(c.roles[3], s.th[k]);
    }
  }

  /** A pipeline that sticks does not join. */
  lemma JoinsMeansNeverStuck(c: Config)
    requires c.Valid() && AlwaysJoins(c)
    ensures NeverStuckEarly(c)
  {
    forall input, run | Exec(c, Init(c, input), run).Some?
      ensures EndsWell(c, Exec(c, Init(c, input), run).value)
    {
      InvAlways(c, input, run);
      assert Joins(c, Exec(c, Init(c, input), run).value);
      if AllReturned(Exec(c, Init(c, input), run).value) {
        SinksReturn(c, Exec(c, Init(c, input), run).value);
      }
    }
  }

  /** The queue has room for the end markers that all but one of `n` threads may push in excess for `d` readers. */
  predicate RoomFor(n: nat, d: nat, capacity: nat) {
    capacity == 0 || (n - 1) * d <= capacity
  }

  lemma ServerIsSturdy(buffers: nat, staff: Staff, skip: bool, codec: bool, tpb: nat)
    requires Equipped(buffers, staff) && tpb >= 1 && ServerFits(buffers, staff, skip, codec)
    ensures Sturdy(ServerConfig(buffers, staff, skip, codec, tpb))
  {
    ServerHolds(buffers, staff, skip, codec, tpb);
  }

  /** All threads of a server return, on every input and schedule, if and only if it never gets stuck before and
      the queues have that room. */
  lemma ServerJoinIsExact(buffers: nat, staff: Staff, skip: bool, codec: bool, tpb: nat)
    requires Equipped(buffers, staff) && tpb >= 1
    ensures var c, q := ServerConfig(buffers, staff, skip, codec, tpb), Share(buffers, staff);
            && c.Valid()
            && (AlwaysJoins(c) <==>
                && ServerFits(buffers, staff, skip, codec)
                && RoomFor(staff.first, staff.second, q + Remainder(buffers, staff))
                && RoomFor(staff.second, staff.third, q)
                && RoomFor(staff.third, staff.fourth, q))
  {
    var c := ServerConfig(buffers, staff, skip, codec, tpb);
    ServerSpare(buffers, staff, skip, codec, tpb);
    if ServerFits(buffers, staff, skip, codec) {
      ServerIsSturdy(buffers, staff, skip, codec, tpb);
      JoinIsExact(c);
    } else {
      DeadlockFreedomIsExact(buffers, staff, skip, codec, tpb);
      if AlwaysJoins(c) {
        JoinsMeansNeverStuck(c);
      }
    }
  }

  lemma ServerSpare(buffers: nat, staff: Staff, skip: bool, codec: bool, tpb: nat)
    requires Equipped(buffers, staff) && tpb >= 1
    ensures var c, q := ServerConfig(buffers, staff, skip, codec, tpb), Share(buffers, staff);
            && c.Valid()
            && (Spare(c, 0) <==> RoomFor(staff.first, staff.second, q + Remainder(buffers, staff)))
            && (Spare(c, 1) <==> RoomFor(staff.second, staff.third, q))
            && (Spare(c, 2) <==> RoomFor(staff.third, staff.fourth, q))
  {
    CapacitiesAre(buffers, staff);
  }

  lemma ClientIsSturdy(buffers: nat, staff: Staff, skip: bool, codec: bool)
    requires Equipped(buffers, staff) && ClientFits(buffers, staff, skip, codec)
    ensures Sturdy(ClientConfig(buffers, staff, skip, codec))
  {
    ClientHolds(buffers, staff, skip, codec);
  }

  lemma ClientJoinIsExact(buffers: nat, staff: Staff, skip: bool, codec: bool)
    requires Equipped(buffers, staff)
    ensures var c, q := ClientConfig(buffers, staff, skip, codec), Share(buffers, staff);
            && c.Valid()
            && (AlwaysJoins(c) <==>
                && ClientFits(buffers, staff, skip, codec)
                && RoomFor(staff.first, staff.second, q)
                && RoomFor(staff.second, staff.third, q)
                && RoomFor(staff.third, staff.fourth, q + Remainder(buffers, staff)))
  {
    var c := ClientConfig(buffers, staff, skip, codec);
    ClientSpare(buffers, staff, skip, codec);
    if ClientFits(buffers, staff, skip, codec) {
      ClientIsSturdy(buffers, staff, skip, codec);
      JoinIsExact(c);
    } else {
      ClientFreedomIsExact(buffers, staff, skip, codec);
      if AlwaysJoins(c) {
        JoinsMeansNeverStuck(c);
      }
    }
  }

  lemma ClientSpare(buffers: nat, staff: Staff, skip: bool, codec: bool)
    requires Equipped(buffers, staff)
    ensures var c, q := ClientConfig(buffers, staff, skip, codec), Share(buffers, staff);
            && c.Valid()
            && (Spare(c, 0) <==> RoomFor(staff.first, staff.second, q))
            && (Spare(c, 1) <==> RoomFor(staff.second, staff.third, q))
            && (Spare(c, 2) <==> RoomFor(staff.third, staff.fourth, q + Remainder(buffers, staff)))
  {
    CapacitiesAre(buffers, staff);
  }

  // ---- The optimizer's pools ----

  /** The number of buffers in a pool of the given size in KiB. */
  function BuffersIn(poolSize: nat, bufferSize: nat): nat
    requires bufferSize >= 1
  {
    poolSize / bufferSize
  }

  /** The optimizer's pool size. */
  function PoolSize(bufferSize: nat, workers: nat): nat {
    bufferSize * workers * 3
  }

  lemma PoolHasThreeEach(staff: Staff, bufferSize: nat)
    requires bufferSize >= 1
    ensures BuffersIn(PoolSize(bufferSize, staff.Total()), bufferSize) == 3 * staff.Total()
  {
    assert bufferSize * staff.Total() * 3 == (3 * staff.Total()) * bufferSize;
    DivUnique((3 * staff.Total()) * bufferSize, bufferSize, 3 * staff.Total(), 0);
  }

  lemma ThreeEachFit(staff: Staff)
    requires staff.first >= 1 && staff.second >= 1 && staff.third >= 1 && staff.fourth >= 1
    requires 3 * staff.Total() < 0x8000_0000
    ensures var buffers := 3 * staff.Total();
            && Equipped(buffers, staff)
            && (forall skip, codec :: ServerFits(buffers, staff, skip, codec)) && (forall skip, codec :: ClientFits(buffers, staff, skip, codec))
  {
  }

  /** Three buffers for every worker are enough on both sides. */
  lemma OptimizerPoolSuffices(staff: Staff, bufferSize: nat)
    requires staff.first >= 1 && staff.second >= 1 && staff.third >= 1 && staff.fourth >= 1
    requires bufferSize >= 1 && 3 * staff.Total() < 0x8000_0000
    ensures var buffers := BuffersIn(PoolSize(bufferSize, staff.Total()), bufferSize);
            && (forall skip, codec, tpb {:trigger ServerConfig(buffers, staff, skip, codec, tpb)} ::
                  tpb >= 1 ==> IsServer(ServerConfig(buffers, staff, skip, codec, tpb)))
            && (forall skip, codec :: IsClient(ClientConfig(buffers, staff, skip, codec)))
  {
    PoolHasThreeEach(staff, bufferSize);
    ThreeEachFit(staff);
  }

  /** They deliver everything, but do not ensure that the reader threads return: with four readers
      and four deserializers a run leads to where, however it goes on, a reader waits for ever. */
  lemma OptimizerPoolCanHang(codec: bool, tpb: nat) returns (staff: Staff, input: seq<seq<Tuple>>, run: seq<Event>)
    requires tpb >= 1
    ensures IsServer(ServerConfig(3 * staff.Total(), staff, false, codec, tpb))
    ensures var c := ServerConfig(3 * staff.Total(), staff, false, codec, tpb);
            && Exec(c, Init(c, input), run).Some?
            && forall more :: Exec(c, Init(c, input), run + more).Some? ==> Hangs(c, Exec(c, Init(c, input), run + more).value, 0)
  {
    staff := Staff(4, 4, 1, 1);
    ThreeEachFit(staff);
    input, run := ReadersCanHang(3 * staff.Total(), staff, false, codec, tpb);
  }

  lemma ReadersCanHang(buffers: nat, staff: Staff, skip: bool, codec: bool, tpb: nat) returns (input: seq<seq<Tuple>>, run: seq<Event>)
    requires Equipped(buffers, staff) && tpb >= 1 && ServerFits(buffers, staff, skip, codec)
    requires !RoomFor(staff.first, staff.second, Share(buffers, staff) + Remainder(buffers, staff))
    ensures var c := ServerConfig(buffers, staff, skip, codec, tpb);
            && IsServer(c) && c.Valid() && Exec(c, Init(c, input), run).Some?
            && forall more :: Exec(c, Init(c, input), run + more).Some? ==> Hangs(c, Exec(c, Init(c, input), run + more).value, 0)
  {
    var c := ServerConfig(buffers, staff, skip, codec, tpb);
    assert IsServer(c);
    ServerIsSturdy(buffers, staff, skip, codec, tpb);
    ServerSpare(buffers, staff, skip, codec, tpb);
    input, run := HangReachable(c, 0);
  }
}
