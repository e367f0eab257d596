/** What becomes of each message on its way to one worker, over every run of the cluster. */
module Deliveries {
  import opened Types
  import opened RoundRobin
  import opened PoolRuns
  import opened Worker
  import opened Fleet
  import opened InFlight
  import opened Cluster

  /** The event publishes `m` while subscriber `id` has fewer than five requests open. */
  ghost predicate Accepts(cfg: Config, c: Cluster, e: ClusterEvent, id: nat, m: Message) {
    && e.Manage? && Announcement(c.fleet, e.event, FleetStep(cfg, c.fleet, e.event)) == Some(m)
    && id in c.subscribers && c.subscribers[id] < CAP
  }

  ghost predicate Delivers(c: Cluster, e: ClusterEvent, id: nat, m: Message) {
    e == DeliverNext(id) && Possible(c, e) && c.peers[id].queue[0] == m
  }

  ghost predicate Loses(c: Cluster, e: ClusterEvent, id: nat, m: Message) {
    e.FailQueued? && e.id == id && Possible(c, e) && c.peers[id].queue[e.position] == m
  }

  /** How often `m` was sent to `id`, delivered to it and lost on the way to it, along a run. */
  datatype Tally = Tally(accepted: nat, delivered: nat, lost: nat)

  ghost function TallyOf(cfg: Config, es: seq<ClusterEvent>, id: nat, m: Message): Tally {
    if es == [] then Tally(0, 0, 0)
    else
      var c, e := ClusterRun(cfg, es[..|es| - 1]), es[|es| - 1];
      Next(cfg, c, e, id, m, TallyOf(cfg, es[..|es| - 1], id, m))
  }

  ghost function Next(cfg: Config, c: Cluster, e: ClusterEvent, id: nat, m: Message, t: Tally): Tally {
    Tally(t.accepted + if Accepts(cfg, c, e, id, m) then 1 else 0,
          t.delivered + if Delivers(c, e, id, m) then 1 else 0,
          t.lost + if Loses(c, e, id, m) then 1 else 0)
  }

  /** How often `m` is waiting for delivery to `id`. */
  ghost function Waiting(c: Cluster, id: nat, m: Message): nat {
    if id in c.peers then multiset(c.peers[id].queue)[m] else 0
  }

  ghost predicate Flows(c: Cluster, id: nat, m: Message, t: Tally) {
    t.accepted == t.delivered + t.lost + Waiting(c, id, m)
  }

  lemma {:induction false} OneMore(q: seq<Message>, x: Message, m: Message)
    ensures multiset(q + [x])[m] == multiset(q)[m] + if x == m then 1 else 0
  {
  }

  lemma {:induction false} OneLess(q: seq<Message>, k: nat, m: Message)
    requires k < |q|
    ensures multiset(q[..k] + q[k + 1..])[m] + (if q[k] == m then 1 else 0) == multiset(q)[m]
  {
    assert q == q[..k] + [q[k]] + q[k + 1..];
  }

  lemma {:induction false} FirstLess(q: seq<Message>, m: Message)
    requires q != []
    ensures multiset(q[1..])[m] + (if q[0] == m then 1 else 0) == multiset(q)[m]
  {
    assert q == [q[0]] + q[1..];
  }

  lemma {:induction false} PublicationFlows(cfg: Config, c: Cluster, e: FleetEvent, id: nat, m: Message, t: Tally)
    requires Accounted(c) && Flows(c, id, m, t)
    ensures Flows(ManageStep(cfg, c, e), id, m, Next(cfg, c, Manage(e), id, m, t))
  {
    var a := Announcement(c.fleet, e, FleetStep(cfg, c.fleet, e));
    if a.Some? && id in c.peers { OneMore(c.peers[id].queue, a.value, m); }
  }

  lemma {:induction false} DeliveryFlows(cfg: Config, c: Cluster, id: nat, m: Message, t: Tally)
    requires Possible(c, DeliverNext(id)) && Flows(c, id, m, t)
    ensures Flows(ClusterStep(cfg, c, DeliverNext(id)), id, m, Next(cfg, c, DeliverNext(id), id, m, t))
  {
    var q, d := c.peers[id].queue, ClusterStep(cfg, c, DeliverNext(id));
    FirstLess(q, m);
    assert d == SetPeer(c, id, Delivered(c.peers[id]));
    assert Waiting(d, id, m) == multiset(q[1..])[m];
  }

  lemma {:induction false} LossFlows(cfg: Config, c: Cluster, id: nat, k: nat, m: Message, t: Tally)
    requires Possible(c, FailQueued(id, k)) && Flows(c, id, m, t)
    ensures Flows(ClusterStep(cfg, c, FailQueued(id, k)), id, m, Next(cfg, c, FailQueued(id, k), id, m, t))
  {
    var q := c.peers[id].queue;
    OneLess(q, k, m);
    assert ClusterStep(cfg, c, FailQueued(id, k)).peers[id].queue == q[..k] + q[k + 1..];
  }

  lemma {:induction false} FlowsStep(cfg: Config, c: Cluster, e: ClusterEvent, id: nat, m: Message, t: Tally)
    requires Accounted(c) && Flows(c, id, m, t)
    ensures Flows(ClusterStep(cfg, c, e), id, m, Next(cfg, c, e, id, m, t))
  {
    if e.Manage? {
      PublicationFlows(cfg, c, e.event, id, m, t);
    } else if e == DeliverNext(id) && Possible(c, e) {
      DeliveryFlows(cfg, c, id, m, t);
    } else if e.FailQueued? && e.id == id && Possible(c, e) {
      LossFlows(cfg, c, id, e.position, m, t);
    } else {
      assert Waiting(ClusterStep(cfg, c, e), id, m) == Waiting(c, id, m);
    }
  }

  /** Over every run every message that was sent to a worker has been delivered, was lost with its
      request, or is still waiting, each exactly as often as it was sent. */
  lemma {:induction false} MessageConservation(cfg: Config, es: seq<ClusterEvent>, id: nat, m: Message)
    ensures var t := TallyOf(cfg, es, id, m);
      t.accepted == t.delivered + t.lost + Waiting(ClusterRun(cfg, es), id, m)
  {
    if es != [] {
      var front := es[..|es| - 1];
      MessageConservation(cfg, front, id, m);
      InFlightAccounting(cfg, front);
      FlowsStep(cfg, ClusterRun(cfg, front), es[|es| - 1], id, m, TallyOf(cfg, front, id, m));
    }
  }

  /** The worker has an entry for the server if and only if its posting was delivered. */
  ghost predicate HoldsIfDelivered(c: Cluster, id: nat, u: Url, delivered: nat) {
    if id in c.peers then !Absent(c.peers[id].pool.backends, Named(u)) <==> delivered > 0 else delivered == 0
  }

  lemma {:induction false} ReplayHolds(p: Pool, m: Message, u: Url)
    ensures Absent(Apply(p, m).backends, Named(u)) <==> Absent(p.backends, Named(u)) && m != NewServer(u)
  {
    var b, c, s := p.backends, Apply(p, m).backends, Named(u);
    if !Absent(b, s) {
      var i :| 0 <= i < |b| && b[i].server == s;
      assert c[i].server == s;
    } else if m == NewServer(u) {
      assert Fresh(s) !in b;
      assert c[|b|].server == s;
    }
  }

  lemma {:induction false} RequestHolds(p: Pool, e: WorkerEvent, s: Server)
    requires !e.Deliver?
    ensures Absent(WorkerStep(p, e).backends, s) <==> Absent(p.backends, s)
  {
    var b, c := p.backends, WorkerStep(p, e).backends;
    assert |c| == |b| && forall i :: 0 <= i < |b| ==> c[i].server == b[i].server;
  }

  lemma {:induction false} HoldsStep(cfg: Config, c: Cluster, e: ClusterEvent, id: nat, u: Url, t: Tally)
    requires Accounted(c) && HoldsIfDelivered(c, id, u, t.delivered)
    ensures HoldsIfDelivered(ClusterStep(cfg, c, e), id, u, Next(cfg, c, e, id, NewServer(u), t).delivered)
  {
    if id in c.peers && Possible(c, e) {
      var p := c.peers[id];
      if e == DeliverNext(id) { ReplayHolds(p.pool, p.queue[0], u); }
      if e == TakeRequest(id) { RequestHolds(p.pool, Serve, Named(u)); }
      if e.EndRequest? && e.id == id { RequestHolds(p.pool, Settle(e.index, e.outcome), Named(u)); }
    }
  }

  /** Over every run, a worker has an entry for a server if and only if some posting of it was delivered
      to the worker; postings that met five open requests never count, and no number of marks makes up
      for them. */
  lemma {:induction false} HoldsExactlyDelivered(cfg: Config, es: seq<ClusterEvent>, id: nat, u: Url)
    ensures HoldsIfDelivered(ClusterRun(cfg, es), id, u, TallyOf(cfg, es, id, NewServer(u)).delivered)
  {
    if es != [] {
      var front := es[..|es| - 1];
      HoldsExactlyDelivered(cfg, front, id, u);
      InFlightAccounting(cfg, front);
      HoldsStep(cfg, ClusterRun(cfg, front), es[|es| - 1], id, u, TallyOf(cfg, front, id, NewServer(u)));
    }
  }

  /** So a worker whose subscriber had five requests open at every posting of a server has no entry for
      it and sends it no request, whatever else it was sent. */
  lemma {:induction false} SkippedAddIsNotRepaired(cfg: Config, es: seq<ClusterEvent>, id: nat, u: Url)
    requires id in ClusterRun(cfg, es).peers && TallyOf(cfg, es, id, NewServer(u)).accepted == 0
    ensures var p := ClusterRun(cfg, es).peers[id].pool;
      && Absent(p.backends, Named(u))
      && (Get(p).0.Some? ==> p.backends[Get(p).0.value].server != Named(u))
  {
    MessageConservation(cfg, es, id, NewServer(u));
    HoldsExactlyDelivered(cfg, es, id, u);
  }

  // ---- leaving

  /** The subscription is dropped, or one of its requests fails, delivered or not. */
  predicate Ends(e: ClusterEvent, id: nat) {
    e == Unsubscribe(id) || e == FailDelivered(id) || (e.FailQueued? && e.id == id)
  }

  lemma {:induction false} EndLeaves(cfg: Config, c: Cluster, e: ClusterEvent, id: nat)
    requires Accounted(c) && Ends(e, id) && Possible(c, e)
    ensures id !in ClusterStep(cfg, c, e).subscribers && id < ClusterStep(cfg, c, e).nextId
  {
  }

  lemma {:induction false} NothingAccepted(cfg: Config, es: seq<ClusterEvent>, more: seq<ClusterEvent>, id: nat,
                                           m: Message)
    requires id < ClusterRun(cfg, es).nextId && id !in ClusterRun(cfg, es).subscribers
    ensures TallyOf(cfg, es + more, id, m).accepted == TallyOf(cfg, es, id, m).accepted
    decreases |more|
  {
    if more == [] {
      assert es + more == es;
    } else {
      var front := more[..|more| - 1];
      assert (es + more)[..|es + more| - 1] == es + front;
      NothingAccepted(cfg, es, front, id, m);
      DepartedStaysOut(cfg, es, front, id);
    }
  }

  /** A dropped subscription and a failed request end the subscription, for good: in every continuation the
      id stays out, and nothing more is sent to it. */
  lemma {:induction false} DepartureIsFinal(cfg: Config, es: seq<ClusterEvent>, e: ClusterEvent,
                                            more: seq<ClusterEvent>, id: nat, m: Message)
    requires Ends(e, id) && Possible(ClusterRun(cfg, es), e)
    ensures id !in ClusterRun(cfg, es + [e] + more).subscribers
    ensures TallyOf(cfg, es + [e] + more, id, m).accepted == TallyOf(cfg, es, id, m).accepted
  {
    var one := es + [e];
    assert one[..|es|] == es;
    InFlightAccounting(cfg, es);
    EndLeaves(cfg, ClusterRun(cfg, es), e, id);
    DepartedStaysOut(cfg, one, more, id);
    NothingAccepted(cfg, one, more, id, m);
  }
}
