/** The configuration the optimizer returns, and the pipelines that run with it. */
module Optimizer {
  import opened Options
  import opened Greedy
  import opened Deployment

  datatype Plan = Plan(best: Workers, bufferSize: nat, serverPool: nat, clientPool: nat)

  /** At most two network threads, as many on either side. */
  function Networked(best: Workers): (r: Workers)
    requires Send in best && Rcv in best
  {
    var highest := if best[Send] > best[Rcv] then best[Send] else best[Rcv];
    var net := if highest < 2 then highest else 2;
    best[Send := net][Rcv := net]
  }

  function ServerStaff(best: Workers): Staff
    requires Read in best && Deser in best && Comp in best && Send in best
  {
    Staff(best[Read], best[Deser], best[Comp], best[Send])
  }

  function ClientStaff(best: Workers): Staff
    requires Rcv in best && Decomp in best && Ser in best && Write in best
  {
    Staff(best[Rcv], best[Decomp], best[Ser], best[Write])
  }

  /** The plan's pools let both pipelines run without ever getting stuck. */
  ghost predicate Runs(p: Plan) {
    && Complete(p.best) && p.bufferSize >= 1
    && RunsServer(BuffersIn(p.serverPool, p.bufferSize), ServerStaff(p.best))
    && RunsClient(BuffersIn(p.clientPool, p.bufferSize), ClientStaff(p.best))
  }

  ghost predicate RunsServer(buffers: nat, staff: Staff) {
    forall skip, codec, tpb {:trigger ServerConfig(buffers, staff, skip, codec, tpb)} ::
      tpb >= 1 ==> IsServer(ServerConfig(buffers, staff, skip, codec, tpb))
  }

  ghost predicate RunsClient(buffers: nat, staff: Staff) {
    forall skip, codec :: IsClient(ClientConfig(buffers, staff, skip, codec))
  }

  /** The network stages get the larger number of workers, but at most two; nothing else changes. */
  lemma NetworkedIs(best: Workers)
    requires Complete(best)
    ensures Complete(Networked(best))
    ensures var n := Networked(best)[Send];
            && n == Networked(best)[Rcv] <= 2 && (n == best[Send] || n == best[Rcv] || n == 2) && (n < 2 ==> n >= best[Send] && n >= best[Rcv])
            && (n <= best[Send] || n <= best[Rcv])
    ensures forall c :: c != Send && c != Rcv ==> Networked(best)[c] == best[c]
    ensures OfServer(Networked(best)) <= OfServer(best) + 1 && OfClient(Networked(best)) <= OfClient(best) + 1
  {
  }

  lemma PlanRuns(best: Workers, serverPool: nat, clientPool: nat)
    requires Complete(best) && OfServer(best) < 0x1000_0001 && OfClient(best) < 0x1000_0001
    requires serverPool == PoolSize(1024, OfServer(best)) && clientPool == PoolSize(1024, OfClient(best))
    ensures Runs(Plan(best, 1024, serverPool, clientPool))
  {
    OptimizerPoolSuffices(ServerStaff(best), 1024);
    OptimizerPoolSuffices(ClientStaff(best), 1024);
  }

  /** The worker counts with their pools. */
  function WithPools(best: Workers): Plan
    requires Complete(best)
  {
    Plan(best, 1024, PoolSize(1024, OfServer(best)), PoolSize(1024, OfClient(best)))
  }

  /** The plan is that of a finished allocation. */
  ghost predicate Planned(t: Table, f0: real, bound: real, maxServer: nat, maxClient: nat, p: Plan) {
    exists best, est :: Final(t, f0, bound, maxServer, maxClient, best, est) && p == WithPools(Networked(best))
  }

  /** The plan, or nothing if the allocation fails.  Below 2^28 workers the pools fit the C++ `int`. */
  method FindBestConfig(t: Table, f0: real, bound: real, maxServer: nat, maxClient: nat) returns (r: Option<Plan>)
    requires Input(t, f0)
    ensures r.None? <==>
              || NthSlowest(t, 0).None?
              || (NthSlowest(t, 1).None? && t.rate[NthSlowest(t, 0).value] < bound && 4 < maxServer && 4 < maxClient)
    ensures r.Some? ==> Planned(t, f0, bound, maxServer, maxClient, r.value)
    ensures r.Some? && maxServer < 0x1000_0000 && maxClient < 0x1000_0000 ==> Runs(r.value)
  {
    var a := Allocate(t, f0, bound, maxServer, maxClient);
    if a.TypeError? {
      return None;
    }
    NetworkedIs(a.best);
    var best := Networked(a.best);
    var serverPool, clientPool := PoolSize(1024, OfServer(best)), PoolSize(1024, OfClient(best));
    if maxServer < 0x1000_0000 && maxClient < 0x1000_0000 {
      PlanRuns(best, serverPool, clientPool);
    }
    return Some(Plan(best, 1024, serverPool, clientPool));
  }
}
