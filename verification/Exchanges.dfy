/** Continuing a run: what is on its way is delivered, and the manager's changes are published,
    delivered and answered one at a time. */
module Exchanges {
  import opened Types
  import opened PoolRuns
  import opened Worker
  import opened Health
  import opened Fleet
  import opened Cluster
  import opened Replication
  import opened Divergence
  import opened Deliveries

  /** The URLs posted along a run. */
  function Posts(es: seq<ClusterEvent>): seq<Url> {
    if es == [] then []
    else
      var e := es[|es| - 1];
      Posts(es[..|es| - 1]) + if e.Manage? && e.event.Post? then [e.event.url] else []
  }

  /** The run `all` goes on after `es`, with the posts `us` added. */
  ghost predicate GoesOn(es: seq<ClusterEvent>, all: seq<ClusterEvent>, us: seq<Url>) {
    es <= all && Posts(all) == Posts(es) + us
  }

  lemma {:induction false} GoesOnTwice(a: seq<ClusterEvent>, b: seq<ClusterEvent>, c: seq<ClusterEvent>,
                                       us: seq<Url>, vs: seq<Url>)
    requires GoesOn(a, b, us) && GoesOn(b, c, vs)
    ensures GoesOn(a, c, us + vs)
  {
  }

  lemma {:induction false} OneEvent(cfg: Config, es: seq<ClusterEvent>, e: ClusterEvent)
    ensures ClusterRun(cfg, es + [e]) == ClusterStep(cfg, ClusterRun(cfg, es), e)
    ensures GoesOn(es, es + [e], if e.Manage? && e.event.Post? then [e.event.url] else [])
  {
    assert (es + [e])[..|es|] == es;
  }

  /** The subscriber is there, missed nothing, and has no request open. */
  ghost predicate Ready(c: Cluster, id: nat) {
    && id in c.subscribers && id in c.peers && !c.peers[id].missed
    && c.peers[id].queue == [] && c.peers[id].awaiting == 0
  }

  /** The worker joined when the manager had `n` entries. */
  ghost predicate Behind(c: Cluster, id: nat, n: nat) {
    id in c.peers && c.peers[id].joined < |c.views| && |c.views[c.peers[id].joined]| == n
  }

  /** What every run guarantees. */
  lemma {:induction false} Guaranteed(cfg: Config, es: seq<ClusterEvent>)
    ensures Chronicle(ClusterRun(cfg, es)) && Synced(ClusterRun(cfg, es)) && Accounted(ClusterRun(cfg, es))
  {
    ChronicleRun(cfg, es);
    SyncedRun(cfg, es);
    InFlightAccounting(cfg, es);
  }

  /** With nothing on its way the lists are compared as they are. */
  lemma {:induction false} InStepNow(c: Cluster, id: nat, n: nat)
    requires Chronicle(c) && Synced(c) && Ready(c, id) && Behind(c, id, n)
    ensures InStep(c, id) <==>
            n <= |c.fleet.backends| && View(c.peers[id].pool.backends) == View(c.fleet.backends)[n..]
  {
    assert |View(c.fleet.backends)| == |c.fleet.backends|;
  }

  // ---- delivering what is on its way

  /** What is left of the cluster besides one peer and the counters. */
  ghost predicate SameManager(c: Cluster, d: Cluster) {
    d.fleet == c.fleet && d.log == c.log && d.views == c.views
  }

  lemma {:induction false} DrainStep(cfg: Config, c: Cluster, id: nat) returns (e: ClusterEvent)
    requires Accounted(c) && id in c.subscribers && id in c.peers && !c.peers[id].missed
    requires c.peers[id].queue != [] || c.peers[id].awaiting > 0
    ensures !e.Manage?
    ensures var d := ClusterStep(cfg, c, e);
      && SameManager(c, d) && id in d.subscribers && id in d.peers && !d.peers[id].missed
      && d.peers[id].joined == c.peers[id].joined
      && 2 * |d.peers[id].queue| + d.peers[id].awaiting < 2 * |c.peers[id].queue| + c.peers[id].awaiting
    ensures forall u :: !Absent(c.peers[id].pool.backends, Named(u)) ==>
              !Absent(ClusterStep(cfg, c, e).peers[id].pool.backends, Named(u))
  {
    var p := c.peers[id];
    if p.queue != [] {
      e := DeliverNext(id);
      forall u | !Absent(p.pool.backends, Named(u)) ensures !Absent(Delivered(p).pool.backends, Named(u)) {
        ReplayHolds(p.pool, p.queue[0], u);
      }
    } else {
      e := Succeed(id);
    }
  }

  lemma {:induction false} Drain(cfg: Config, es: seq<ClusterEvent>, id: nat, u: Url) returns (all: seq<ClusterEvent>)
    requires var c := ClusterRun(cfg, es); id in c.subscribers && id in c.peers && !c.peers[id].missed
    ensures GoesOn(es, all, [])
    ensures var c, d := ClusterRun(cfg, es), ClusterRun(cfg, all);
      && SameManager(c, d) && Ready(d, id) && d.peers[id].joined == c.peers[id].joined
      && (!Absent(c.peers[id].pool.backends, Named(u)) ==> !Absent(d.peers[id].pool.backends, Named(u)))
    decreases var p := ClusterRun(cfg, es).peers[id]; 2 * |p.queue| + p.awaiting
  {
    var c := ClusterRun(cfg, es);
    Guaranteed(cfg, es);
    if Ready(c, id) {
      all := es;
    } else {
      var e := DrainStep(cfg, c, id);
      OneEvent(cfg, es, e);
      all := Drain(cfg, es + [e], id, u);
      GoesOnTwice(es, es + [e], all, [], []);
    }
  }

  // ---- one publication, delivered and answered

  lemma {:induction false} Published(cfg: Config, c: Cluster, e: FleetEvent, m: Message, id: nat)
    requires Chronicle(c) && Synced(c) && Accounted(c) && Ready(c, id) && InStep(c, id)
    requires Announcement(c.fleet, e, FleetStep(cfg, c.fleet, e)) == Some(m)
    ensures var d := ClusterStep(cfg, c, Manage(e));
      && d.fleet == FleetStep(cfg, c.fleet, e) && id in d.subscribers
      && id in d.peers && d.peers[id] == c.peers[id].(queue := [m])
      && d.log == c.log + [m] && d.views == c.views + [View(d.fleet.backends)]
      && InStep(d, id)
  {
    var d := ClusterStep(cfg, c, Manage(e));
    assert d == Publish(c.(fleet := d.fleet), m);
    assert [] + [m] == [m];
    InStepNext(cfg, c, Manage(e), id);
  }

  /** The worker replays the publication, in step or not. */
  lemma {:induction false} Arrived(cfg: Config, c: Cluster, d: Cluster, m: Message, id: nat, n: nat)
    requires Chronicle(d) && Synced(d) && Accounted(d) && InStep(d, id) && Behind(c, id, n)
    requires Ready(c, id) && id in d.peers && d.peers[id] == c.peers[id].(queue := [m])
    requires d.log == c.log + [m] && d.views == c.views + [View(d.fleet.backends)]
    requires c.views[|c.log|] == View(c.fleet.backends) && |c.views| == |c.log| + 1
    requires n <= |c.fleet.backends| <= |d.fleet.backends|
    ensures InStep(ClusterStep(cfg, d, DeliverNext(id)), id) <==>
            Matches(c.peers[id].pool, m, View(c.fleet.backends), View(d.fleet.backends), n)
  {
    InStepNext(cfg, d, DeliverNext(id), id);
    var p := d.peers[id];
    assert Replayed(d.log, p) == |c.log|;
    assert d.views[|c.log|] == View(c.fleet.backends) && d.views[|c.log| + 1] == View(d.fleet.backends);
    assert d.views[p.joined] == c.views[p.joined];
  }

  /** The worker has the publication and answers. */
  lemma {:induction false} Answered(cfg: Config, d: Cluster, id: nat, m: Message)
    requires id in d.subscribers && id in d.peers && d.peers[id].queue == [m] && d.peers[id].awaiting == 0
    ensures var a := ClusterStep(cfg, d, DeliverNext(id));
      var f := ClusterStep(cfg, a, Succeed(id));
      && SameManager(d, f) && id in f.subscribers && id in f.peers
      && f.peers[id] == d.peers[id].(queue := [], pool := Apply(d.peers[id].pool, m))
      && (InStep(f, id) <==> InStep(a, id))
  {
    var a := ClusterStep(cfg, d, DeliverNext(id));
    assert a == SetPeer(d, id, Delivered(d.peers[id]));
    assert [m][1..] == [];
  }

  lemma {:induction false} Sent(cfg: Config, es: seq<ClusterEvent>, c: Cluster, es1: seq<ClusterEvent>, d: Cluster,
                                e: FleetEvent, m: Message, id: nat, n: nat)
    requires c == ClusterRun(cfg, es) && Ready(c, id) && InStep(c, id) && Behind(c, id, n)
    requires Announcement(c.fleet, e, FleetStep(cfg, c.fleet, e)) == Some(m)
    requires d == ClusterRun(cfg, es1) == ClusterStep(cfg, c, Manage(e))
    ensures d.fleet == FleetStep(cfg, c.fleet, e) && n <= |c.fleet.backends| <= |d.fleet.backends|
    ensures id in d.subscribers && id in d.peers && d.peers[id] == c.peers[id].(queue := [m]) && Behind(d, id, n)
    ensures InStep(ClusterStep(cfg, d, DeliverNext(id)), id) <==>
            Matches(c.peers[id].pool, m, View(c.fleet.backends), View(d.fleet.backends), n)
  {
    Guaranteed(cfg, es);
    InStepNow(c, id, n);
    StepMarks(cfg, c.fleet, e);
    Published(cfg, c, e, m, id);
    Guaranteed(cfg, es1);
    Arrived(cfg, c, d, m, id, n);
  }

  lemma {:induction false} Exchange(cfg: Config, es: seq<ClusterEvent>, c: Cluster, e: FleetEvent, m: Message, id: nat,
                                    n: nat) returns (all: seq<ClusterEvent>, d: Cluster)
    requires c == ClusterRun(cfg, es) && Ready(c, id) && InStep(c, id) && Behind(c, id, n)
    requires Announcement(c.fleet, e, FleetStep(cfg, c.fleet, e)) == Some(m)
    ensures GoesOn(es, all, if e.Post? then [e.url] else []) && d == ClusterRun(cfg, all)
    ensures d.fleet == FleetStep(cfg, c.fleet, e) && n <= |c.fleet.backends| <= |d.fleet.backends|
    ensures Ready(d, id) && Behind(d, id, n) && d.peers[id].pool == Apply(c.peers[id].pool, m)
    ensures InStep(d, id) <==>
            Matches(c.peers[id].pool, m, View(c.fleet.backends), View(d.fleet.backends), n)
  {
    var us, es1 := if e.Post? then [e.url] else [], es + [Manage(e)];
    OneEvent(cfg, es, Manage(e));
    var c1 := ClusterRun(cfg, es1);
    Sent(cfg, es, c, es1, c1, e, m, id, n);
    var es2 := es1 + [DeliverNext(id)];
    OneEvent(cfg, es1, DeliverNext(id));
    GoesOnTwice(es, es1, es2, us, []);
    all := es2 + [Succeed(id)];
    OneEvent(cfg, es2, Succeed(id));
    Answered(cfg, c1, id, m);
    GoesOnTwice(es, es2, all, us, []);
    d := ClusterRun(cfg, all);
  }

  // ---- changing the state of one of the manager's backends

  /** How many checks may still pass before the count is complete. */
  function Distance(th: Thresholds, st: ServerState, h: HealthState): nat {
    var k := Needed(th, st);
    if (st == Active) != h.Failing? then k + 2 else if h.count <= k then k + 1 - h.count else 0
  }

  /** The next check of backend `i` changes its state. */
  ghost predicate AtTheEdge(cfg: Config, f: Fleet, i: nat) {
    && i < |f.backends| && cfg.validUrl(f.backends[i].server.url)
    && var v := f.backends[i]; After(cfg.thresholds, v.state, Lookup(f.table, v), Toward(v.state).passed).1
  }

  lemma {:induction false} WearStep(cfg: Config, f: Fleet, i: nat)
    requires i < |f.backends| && cfg.validUrl(f.backends[i].server.url) && !AtTheEdge(cfg, f, i)
    ensures var v := f.backends[i];
      var g := FleetStep(cfg, f, Completed(i, Toward(v.state)));
      && g.backends == f.backends && g.marks == f.marks
      && Distance(cfg.thresholds, v.state, Lookup(g.table, v)) < Distance(cfg.thresholds, v.state, Lookup(f.table, v))
  {
  }

  /** Checks that change nothing yet and are not announced. */
  lemma {:induction false} Wear(cfg: Config, es: seq<ClusterEvent>, c: Cluster, i: nat)
    returns (all: seq<ClusterEvent>, g: Fleet)
    requires c == ClusterRun(cfg, es) && i < |c.fleet.backends| && cfg.validUrl(c.fleet.backends[i].server.url)
    ensures GoesOn(es, all, []) && ClusterRun(cfg, all) == c.(fleet := g)
    ensures g.backends == c.fleet.backends && AtTheEdge(cfg, g, i)
    decreases var v := c.fleet.backends[i]; Distance(cfg.thresholds, v.state, Lookup(c.fleet.table, v))
  {
    if AtTheEdge(cfg, c.fleet, i) {
      all, g := es, c.fleet;
    } else {
      WearStep(cfg, c.fleet, i);
      var e := Completed(i, Toward(c.fleet.backends[i].state));
      var d := c.(fleet := FleetStep(cfg, c.fleet, e));
      OneEvent(cfg, es, Manage(e));
      assert ManageStep(cfg, c, e) == d;
      all, g := Wear(cfg, es + [Manage(e)], d, i);
      GoesOnTwice(es, es + [Manage(e)], all, [], []);
    }
  }

  lemma {:induction false} EdgeChanges(cfg: Config, g: Fleet, i: nat)
    requires AtTheEdge(cfg, g, i)
    ensures var v := g.backends[i];
      var h := FleetStep(cfg, g, Completed(i, Toward(v.state)));
      && h.backends == SetStateAt(g.backends, i, Opposite(v.state))
      && Announcement(g, Completed(i, Toward(v.state)), h) == Some(MarkMessage(v.server.url, Opposite(v.state)))
  {
  }

  lemma {:induction false} RejectionChanges(cfg: Config, g: Fleet, i: nat)
    requires i < |g.backends| && !cfg.validUrl(g.backends[i].server.url) && g.backends[i].IsActive()
    ensures var v, h := g.backends[i], FleetStep(cfg, g, Rejected(i));
      && h.backends == SetStateAt(g.backends, i, Down)
      && Announcement(g, Rejected(i), h) == Some(ServerDown(v.server.url))
  {
  }

  /** Backend `i` changes its state, and the worker hears of it. */
  lemma {:induction false} Flip(cfg: Config, es: seq<ClusterEvent>, c: Cluster, i: nat, id: nat, n: nat)
    returns (all: seq<ClusterEvent>, d: Cluster)
    requires c == ClusterRun(cfg, es) && Ready(c, id) && InStep(c, id) && Behind(c, id, n)
    requires i < |c.fleet.backends|
    requires c.fleet.backends[i].IsActive() || cfg.validUrl(c.fleet.backends[i].server.url)
    ensures GoesOn(es, all, []) && d == ClusterRun(cfg, all) && Ready(d, id) && Behind(d, id, n)
    ensures var v := c.fleet.backends[i];
      var m := MarkMessage(v.server.url, Opposite(v.state));
      && d.fleet.backends == SetStateAt(c.fleet.backends, i, Opposite(v.state))
      && d.peers[id].pool == Apply(c.peers[id].pool, m) && n <= |c.fleet.backends|
      && (InStep(d, id) <==> Matches(c.peers[id].pool, m, View(c.fleet.backends), View(d.fleet.backends), n))
  {
    var v := c.fleet.backends[i];
    var m := MarkMessage(v.server.url, Opposite(v.state));
    if cfg.validUrl(v.server.url) {
      var worn, g := Wear(cfg, es, c, i);
      EdgeChanges(cfg, g, i);
      all, d := Exchange(cfg, worn, c.(fleet := g), Completed(i, Toward(v.state)), m, id, n);
      GoesOnTwice(es, worn, all, [], []);
    } else {
      RejectionChanges(cfg, c.fleet, i);
      all, d := Exchange(cfg, es, c, Rejected(i), m, id, n);
    }
  }
}
