/** From health check results to the backends that workers dispatch to. */
module EndToEnd {
  import opened Types
  import opened RoundRobin
  import opened PoolRuns
  import opened Worker
  import opened Fairness
  import opened Health
  import opened Fleet
  import opened Cluster
  import opened Replication

  /** The manager's own events of a cluster run. */
  function FleetEvents(es: seq<ClusterEvent>): seq<FleetEvent> {
    if es == [] then []
    else
      var e := es[|es| - 1];
      var front := FleetEvents(es[..|es| - 1]);
      if e.Manage? then front + [e.event] else front
  }

  lemma {:induction false} StepFleet(cfg: Config, c: Cluster, e: ClusterEvent)
    ensures ClusterStep(cfg, c, e).fleet == if e.Manage? then FleetStep(cfg, c.fleet, e.event) else c.fleet
  {
  }

  /** Subscribers and workers never influence the manager's backends. */
  lemma {:induction false} FleetInCluster(cfg: Config, es: seq<ClusterEvent>)
    ensures ClusterRun(cfg, es).fleet == FleetRun(cfg, FleetEvents(es))
  {
    if es != [] {
      var front, e := es[..|es| - 1], es[|es| - 1];
      FleetInCluster(cfg, front);
      StepFleet(cfg, ClusterRun(cfg, front), e);
      if e.Manage? { FleetRunSnoc(cfg, FleetEvents(front), e.event); }
    }
  }

  /** Where no URL was posted twice, the manager's servers are pairwise distinct. */
  lemma {:induction false} ManagerDistinct(cfg: Config, es: seq<ClusterEvent>)
    requires NoRepost(ClusterRun(cfg, es).log)
    ensures Distinct(ClusterRun(cfg, es).fleet.backends)
  {
    SyncedRun(cfg, es);
    var c := ClusterRun(cfg, es);
    assert c.log[..|c.log|] == c.log;
    ReplayIsDistinct(c.log);
    ViewDistinctIsDistinct(c.fleet.backends);
  }

  lemma {:induction false} EndOfView(a: seq<BackendValue>, b: seq<BackendValue>, n: nat, i: nat)
    requires n <= |b| && View(a) == View(b)[n..] && i < |a|
    ensures n + i < |b| && a[i].server == b[n + i].server && a[i].state == b[n + i].state
  {
    assert |View(a)| == |a| && |View(b)| == |b|;
    assert View(a)[i] == View(b)[n + i];
  }

  /** Entry `i` of worker `id`, which has caught up, and backend `k` of the manager are for one server. */
  ghost predicate Counterparts(c: Cluster, id: nat, i: nat, k: nat) {
    && id in c.peers && !c.peers[id].missed && c.peers[id].queue == []
    && i < |c.peers[id].pool.backends| && k < |c.fleet.backends|
    && c.peers[id].pool.backends[i].server == c.fleet.backends[k].server
  }

  /** Without repeated posts every entry of a worker that has caught up has its one counterpart at the
      manager, and in the same state. */
  lemma {:induction false} Counterpart(cfg: Config, es: seq<ClusterEvent>, c: Cluster, id: nat, i: nat) returns (k: nat)
    requires c == ClusterRun(cfg, es) && NoRepost(c.log)
    requires id in c.peers && !c.peers[id].missed && c.peers[id].queue == [] && i < |c.peers[id].pool.backends|
    ensures c.peers[id].joined < |c.views| && k == |c.views[c.peers[id].joined]| + i
    ensures Counterparts(c, id, i, k) && Alone(c.fleet.backends, k)
    ensures c.peers[id].pool.backends[i].state == c.fleet.backends[k].state
  {
    PrefixConsistency(cfg, es, id);
    k := |c.views[c.peers[id].joined]| + i;
    EndOfView(c.peers[id].pool.backends, c.fleet.backends, |c.views[c.peers[id].joined]|, i);
    ManagerDistinct(cfg, es);
  }

  /** In every interleaving without repeated posts, each entry of a worker that missed nothing since it
      subscribed and has replayed its queue belongs to a backend of the manager and, if that one is
      checked, is active or down as the consecutive results of its checks say; so a request goes only
      to a server whose checks call for it. */
  lemma {:induction false} WorkersFollowChecks(cfg: Config, es: seq<ClusterEvent>, id: nat, i: nat) returns (k: nat)
    requires var c := ClusterRun(cfg, es);
      && NoRepost(c.log) && id in c.peers && !c.peers[id].missed && c.peers[id].queue == []
      && i < |c.peers[id].pool.backends|
    ensures var c := ClusterRun(cfg, es);
      Counterparts(c, id, i, k) && c.peers[id].pool.backends[i].state == c.fleet.backends[k].state
    ensures var c, cs := ClusterRun(cfg, es), ChecksOf(cfg, FleetEvents(es), k);
      var verdict := Reference(AtLeastTwo(cfg.thresholds), Results(cs)).state;
      cfg.validUrl(c.fleet.backends[k].server.url) && Settled(cfg.thresholds, cs) ==>
        && c.peers[id].pool.backends[i].state == verdict
        && (Get(c.peers[id].pool).0 == Some(i) ==> verdict == Active)
  {
    var c := ClusterRun(cfg, es);
    k := Counterpart(cfg, es, c, id, i);
    if cfg.validUrl(c.fleet.backends[k].server.url) && Settled(cfg.thresholds, ChecksOf(cfg, FleetEvents(es), k)) {
      FleetInCluster(cfg, es);
      FleetFollowsStreaks(cfg, FleetEvents(es), k);
    }
  }

  /** In every reachable state every worker's scan ends, so no request hangs in a worker. */
  lemma {:induction false} NoWorkerHangs(cfg: Config, es: seq<ClusterEvent>, id: nat)
    requires id in ClusterRun(cfg, es).peers
    ensures CursorInRange(ClusterRun(cfg, es).peers[id].pool) && ScanEnds(ClusterRun(cfg, es).peers[id].pool)
  {
    if es != [] {
      var c, e := ClusterRun(cfg, es[..|es| - 1]), es[|es| - 1];
      if id in c.peers {
        NoWorkerHangs(cfg, es[..|es| - 1], id);
        PoolStays(cfg, c, e, id);
      }
    }
  }

  /** A cluster event does to a worker's pool nothing or one thing that workers do. */
  lemma {:induction false} PoolStays(cfg: Config, c: Cluster, e: ClusterEvent, id: nat)
    requires id in c.peers && CursorInRange(c.peers[id].pool)
    ensures var d := ClusterStep(cfg, c, e); id in d.peers && CursorInRange(d.peers[id].pool)
  {
  }

  // ---- requests in the workers of a cluster

  /** The entries that `n` requests in a row are given in worker `id`. */
  function Selections(cfg: Config, c: Cluster, id: nat, n: nat): seq<nat>
    decreases n
  {
    if n == 0 || id !in c.peers then []
    else
      (match Get(c.peers[id].pool).0 case Some(i) => [i] case None => [])
      + Selections(cfg, ClusterStep(cfg, c, TakeRequest(id)), id, n - 1)
  }

  lemma {:induction false} SelectionsAreDispatched(cfg: Config, c: Cluster, id: nat, n: nat)
    requires id in c.peers && SomeActive(c.peers[id].pool.backends)
    ensures Selections(cfg, c, id, n) == Dispatched(c.peers[id].pool, n)
    decreases n
  {
    if n > 0 {
      var d := ClusterStep(cfg, c, TakeRequest(id));
      assert d.peers[id].pool == Get(c.peers[id].pool).1;
      SelectionsAreDispatched(cfg, d, id, n - 1);
    }
  }

  /** In every reachable state of the whole system, with k active entries in a worker any k requests in a
      row there are given each of them exactly once. */
  lemma {:induction false} WorkersAreFair(cfg: Config, es: seq<ClusterEvent>, id: nat)
    requires id in ClusterRun(cfg, es).peers && SomeActive(ClusterRun(cfg, es).peers[id].pool.backends)
    ensures var c := ClusterRun(cfg, es);
      var a := ActiveIndices(c.peers[id].pool.backends);
      a != [] && multiset(Selections(cfg, c, id, |a|)) == multiset(a)
  {
    var c := ClusterRun(cfg, es);
    EachOncePerLap(c.peers[id].pool);
    SelectionsAreDispatched(cfg, c, id, |ActiveIndices(c.peers[id].pool.backends)|);
  }

  /** The request to entry `i` of worker `id` ends with a failed connection or a 5xx response
      (`badly`), or in any other way. */
  predicate EndsAt(c: Cluster, e: ClusterEvent, id: nat, i: nat, badly: bool) {
    && e.EndRequest? && e.id == id && e.index == i
    && id in c.peers && i < |c.peers[id].pool.backends|
    && badly == (e.outcome == Failed || 500 <= e.outcome.status < 600)
  }

  function Ended(cfg: Config, es: seq<ClusterEvent>, id: nat, i: nat, badly: bool): nat {
    if es == [] then 0
    else
      var front, e := es[..|es| - 1], es[|es| - 1];
      Ended(cfg, front, id, i, badly) + if EndsAt(ClusterRun(cfg, front), e, id, i, badly) then 1 else 0
  }

  function CounterIn(b: seq<BackendValue>, i: nat, badly: bool): nat {
    if i >= |b| then 0 else if badly then b[i].stats.failure else b[i].stats.success
  }

  function CounterOf(c: Cluster, id: nat, i: nat, badly: bool): nat {
    if id in c.peers then CounterIn(c.peers[id].pool.backends, i, badly) else 0
  }

  lemma {:induction false} ReplayKeepsCounters(p: Pool, m: Message, i: nat, badly: bool)
    ensures CounterIn(Apply(p, m).backends, i, badly) == CounterIn(p.backends, i, badly)
  {
  }

  lemma {:induction false} CounterStep(cfg: Config, c: Cluster, e: ClusterEvent, id: nat, i: nat, badly: bool)
    requires c.nextId !in c.peers
    ensures CounterOf(ClusterStep(cfg, c, e), id, i, badly) ==
            CounterOf(c, id, i, badly) + if EndsAt(c, e, id, i, badly) then 1 else 0
  {
    if e == DeliverNext(id) && Possible(c, e) {
      ReplayKeepsCounters(c.peers[id].pool, c.peers[id].queue[0], i, badly);
    }
  }

  /** Over every run of the whole system, the counters of an entry of a worker are the numbers of its
      requests that ended badly and otherwise. */
  lemma {:induction false} WorkerCounters(cfg: Config, es: seq<ClusterEvent>, id: nat, i: nat, badly: bool)
    ensures CounterOf(ClusterRun(cfg, es), id, i, badly) == Ended(cfg, es, id, i, badly)
  {
    if es != [] {
      var front := es[..|es| - 1];
      WorkerCounters(cfg, front, id, i, badly);
      InFlightAccounting(cfg, front);
      CounterStep(cfg, ClusterRun(cfg, front), es[|es| - 1], id, i, badly);
    }
  }
}
