/** What becomes of a worker that missed publications: the next mark it gets for a server puts it right
    about that server, whatever it missed before. */
module Repair {
  import opened Types
  import opened RoundRobin
  import opened PoolRuns
  import opened Worker
  import opened Fleet
  import opened InFlight
  import opened Cluster
  import opened Replication
  import opened Divergence
  import opened EndToEnd

  // ---- without repeated posts no worker gets a server twice, whatever it misses

  ghost predicate Unrepeated(p: Peer) {
    && Distinct(p.pool.backends) && NoRepost(p.queue)
    && forall k :: 0 <= k < |p.queue| && p.queue[k].NewServer? ==> Absent(p.pool.backends, Named(p.queue[k].url))
  }

  lemma {:induction false} ReceiveUnrepeated(log: seq<Message>, m: Message, subs: map<nat, int>, id: nat, p: Peer)
    requires OnlySinceJoining(log, p) && NoRepost(log + [m]) && Unrepeated(p)
    ensures Unrepeated(Receive(subs, id, p, m))
  {
    var all := log + [m];
    forall x | x in log && x.NewServer? ensures x != m {
      var i :| 0 <= i < |log| && log[i] == x;
      assert all[i] != all[|log|];
    }
  }

  lemma {:induction false} DeliverUnrepeated(p: Peer)
    requires Unrepeated(p) && p.queue != []
    ensures Unrepeated(Delivered(p))
  {
    var rest, b, c := p.queue[1..], p.pool.backends, Apply(p.pool, p.queue[0]).backends;
    forall k | 0 <= k < |rest| && rest[k].NewServer? ensures Absent(c, Named(rest[k].url)) {
      assert rest[k] == p.queue[k + 1] && p.queue[0] != p.queue[k + 1];
      assert Absent(b, Named(rest[k].url));
    }
  }

  lemma {:induction false} DropUnrepeated(p: Peer, k: nat)
    requires Unrepeated(p) && k < |p.queue|
    ensures Unrepeated(p.(queue := p.queue[..k] + p.queue[k + 1..], missed := true))
  {
    var q := p.queue[..k] + p.queue[k + 1..];
    forall j | 0 <= j < |q| ensures q[j] == p.queue[if j < k then j else j + 1] {
    }
  }

  lemma {:induction false} RequestUnrepeated(p: Peer, e: WorkerEvent)
    requires Unrepeated(p) && !e.Deliver?
    ensures Unrepeated(p.(pool := WorkerStep(p.pool, e)))
  {
    var b, c := p.pool.backends, WorkerStep(p.pool, e).backends;
    assert |c| == |b| && forall i :: 0 <= i < |b| ==> c[i].server == b[i].server;
  }

  lemma {:induction false} UnrepeatedStep(cfg: Config, c: Cluster, e: ClusterEvent, id: nat)
    requires id in c.peers && c.nextId !in c.peers && OnlySinceJoining(c.log, c.peers[id]) && Unrepeated(c.peers[id])
    requires NoRepost(ClusterStep(cfg, c, e).log)
    ensures id in ClusterStep(cfg, c, e).peers && Unrepeated(ClusterStep(cfg, c, e).peers[id])
  {
    var p := c.peers[id];
    if e.Manage? {
      var a := Announcement(c.fleet, e.event, FleetStep(cfg, c.fleet, e.event));
      if a.Some? { ReceiveUnrepeated(c.log, a.value, c.subscribers, id, p); }
    } else if Possible(c, e) {
      if e.DeliverNext? && e.id == id { DeliverUnrepeated(p); }
      if e.FailQueued? && e.id == id { DropUnrepeated(p, e.position); }
      if e.TakeRequest? { RequestUnrepeated(p, Serve); }
      if e.EndRequest? { RequestUnrepeated(p, Settle(e.index, e.outcome)); }
    }
  }

  lemma {:induction false} LogGrows(cfg: Config, c: Cluster, e: ClusterEvent)
    ensures c.log <= ClusterStep(cfg, c, e).log
    ensures NoRepost(ClusterStep(cfg, c, e).log) ==> NoRepost(c.log)
  {
  }

  lemma {:induction false} UnrepeatedRun(cfg: Config, es: seq<ClusterEvent>, id: nat)
    requires id in ClusterRun(cfg, es).peers && NoRepost(ClusterRun(cfg, es).log)
    ensures Unrepeated(ClusterRun(cfg, es).peers[id])
  {
    var front, e := es[..|es| - 1], es[|es| - 1];
    var c := ClusterRun(cfg, front);
    LogGrows(cfg, c, e);
    InFlightAccounting(cfg, front);
    if id in c.peers {
      UnrepeatedRun(cfg, front, id);
      NoSnapshot(cfg, front, id);
      UnrepeatedStep(cfg, c, e, id);
    }
  }

  // ---- the last word about a server

  ghost predicate AllIn(b: seq<BackendValue>, s: Server, st: ServerState) {
    forall i :: 0 <= i < |b| && b[i].server == s ==> b[i].state == st
  }

  ghost predicate Silent(q: seq<Message>, u: Url) {
    forall j :: 0 <= j < |q| ==> q[j].url != u
  }

  /** The last message about the server in the queue is the mark at `k`. */
  ghost predicate LastAt(q: seq<Message>, u: Url, st: ServerState, k: nat) {
    k < |q| && q[k] == MarkMessage(u, st) && forall j :: k < j < |q| ==> q[j].url != u
  }

  /** The last a worker has heard or will hear about the server is the mark to `st`. */
  ghost predicate LastWord(p: Peer, u: Url, st: ServerState) {
    || (exists k :: LastAt(p.queue, u, st, k))
    || (Silent(p.queue, u) && AllIn(p.pool.backends, Named(u), st))
  }

  lemma {:induction false} WordReceive(p: Peer, m: Message, subs: map<nat, int>, id: nat, u: Url, st: ServerState)
    requires LastWord(p, u, st) && m.url != u
    ensures LastWord(Receive(subs, id, p, m), u, st)
  {
    if k: nat :| LastAt(p.queue, u, st, k) {
      assert LastAt(Receive(subs, id, p, m).queue, u, st, k);
    }
  }

  lemma {:induction false} MarkDelivered(p: Pool, u: Url, st: ServerState)
    requires Distinct(p.backends)
    ensures AllIn(Apply(p, MarkMessage(u, st)).backends, Named(u), st)
  {
  }

  lemma {:induction false} OtherDelivered(p: Pool, m: Message, u: Url, st: ServerState)
    requires AllIn(p.backends, Named(u), st) && m.url != u
    ensures AllIn(Apply(p, m).backends, Named(u), st)
  {
  }

  lemma {:induction false} WordDeliver(p: Peer, u: Url, st: ServerState)
    requires LastWord(p, u, st) && Unrepeated(p) && p.queue != []
    ensures LastWord(Delivered(p), u, st)
  {
    if k: nat :| LastAt(p.queue, u, st, k) {
      if k == 0 {
        MarkDelivered(p.pool, u, st);
      } else {
        assert LastAt(p.queue[1..], u, st, k - 1);
      }
    } else {
      OtherDelivered(p.pool, p.queue[0], u, st);
    }
  }

  lemma {:induction false} WordDrop(p: Peer, d: nat, u: Url, st: ServerState)
    requires LastWord(p, u, st) && d < |p.queue| && p.queue[d].url != u
    ensures LastWord(p.(queue := p.queue[..d] + p.queue[d + 1..], missed := true), u, st)
  {
    var q := p.queue[..d] + p.queue[d + 1..];
    if k: nat :| LastAt(p.queue, u, st, k) {
      assert LastAt(q, u, st, if k < d then k else k - 1);
    }
  }

  lemma {:induction false} WordRequest(p: Peer, e: WorkerEvent, u: Url, st: ServerState)
    requires LastWord(p, u, st) && !e.Deliver?
    ensures LastWord(p.(pool := WorkerStep(p.pool, e)), u, st)
  {
    var b, c := p.pool.backends, WorkerStep(p.pool, e).backends;
    assert |c| == |b| && forall i :: 0 <= i < |b| ==> c[i].server == b[i].server && c[i].state == b[i].state;
  }

  /** The event publishes nothing about the server and loses nothing that is on its way about it. */
  ghost predicate Quiet(cfg: Config, c: Cluster, e: ClusterEvent, id: nat, u: Url) {
    && (e.Manage? ==>
          var a := Announcement(c.fleet, e.event, FleetStep(cfg, c.fleet, e.event));
          a.Some? ==> a.value.url != u)
    && (e.FailQueued? && e.id == id && Possible(c, e) ==> c.peers[id].queue[e.position].url != u)
  }

  lemma {:induction false} WordStep(cfg: Config, c: Cluster, e: ClusterEvent, id: nat, u: Url, st: ServerState)
    requires id in c.peers && c.nextId !in c.peers && Unrepeated(c.peers[id])
    requires LastWord(c.peers[id], u, st) && Quiet(cfg, c, e, id, u)
    ensures id in ClusterStep(cfg, c, e).peers && LastWord(ClusterStep(cfg, c, e).peers[id], u, st)
  {
    var p := c.peers[id];
    if e.Manage? {
      var a := Announcement(c.fleet, e.event, FleetStep(cfg, c.fleet, e.event));
      if a.Some? { WordReceive(p, a.value, c.subscribers, id, u, st); }
    } else if Possible(c, e) {
      if e.DeliverNext? && e.id == id { WordDeliver(p, u, st); }
      if e.FailQueued? && e.id == id { WordDrop(p, e.position, u, st); }
      if e.TakeRequest? { WordRequest(p, Serve, u, st); }
      if e.EndRequest? { WordRequest(p, Settle(e.index, e.outcome), u, st); }
    }
  }

  /** The manager changes no state of a server without publishing it. */
  lemma {:induction false} ManagerKeeps(cfg: Config, f: Fleet, e: FleetEvent, u: Url, st: ServerState)
    requires AllIn(f.backends, Named(u), st)
    requires var a := Announcement(f, e, FleetStep(cfg, f, e)); a.Some? ==> a.value.url != u
    ensures AllIn(FleetStep(cfg, f, e).backends, Named(u), st)
  {
    StepMarks(cfg, f, e);
  }

  lemma {:induction false} ManagerMarks(cfg: Config, f: Fleet, e: FleetEvent, u: Url, st: ServerState)
    requires Distinct(f.backends) && Plain(f.backends)
    requires Announcement(f, e, FleetStep(cfg, f, e)) == Some(MarkMessage(u, st))
    ensures AllIn(FleetStep(cfg, f, e).backends, Named(u), st)
  {
    StepMarks(cfg, f, e);
  }

  /** Every event of `more`, after `es`, is quiet about the server. */
  ghost predicate QuietFor(cfg: Config, es: seq<ClusterEvent>, more: seq<ClusterEvent>, id: nat, u: Url)
    decreases |more|
  {
    more != [] ==>
      && QuietFor(cfg, es, more[..|more| - 1], id, u)
      && Quiet(cfg, ClusterRun(cfg, es + more[..|more| - 1]), more[|more| - 1], id, u)
  }

  /** Manager and worker are bound to agree on the server. */
  ghost predicate Bound(c: Cluster, id: nat, u: Url, st: ServerState) {
    id in c.peers && LastWord(c.peers[id], u, st) && AllIn(c.fleet.backends, Named(u), st)
  }

  lemma {:induction false} BoundStep(cfg: Config, es: seq<ClusterEvent>, c: Cluster, e: ClusterEvent, id: nat, u: Url,
                                     st: ServerState)
    requires c == ClusterRun(cfg, es) && NoRepost(c.log) && Bound(c, id, u, st) && Quiet(cfg, c, e, id, u)
    ensures Bound(ClusterStep(cfg, c, e), id, u, st)
  {
    InFlightAccounting(cfg, es);
    UnrepeatedRun(cfg, es, id);
    WordStep(cfg, c, e, id, u, st);
    StepFleet(cfg, c, e);
    if e.Manage? { ManagerKeeps(cfg, c.fleet, e.event, u, st); }
  }

  lemma {:induction false} BoundRun(cfg: Config, es: seq<ClusterEvent>, more: seq<ClusterEvent>, id: nat, u: Url,
                                    st: ServerState)
    requires Bound(ClusterRun(cfg, es), id, u, st) && QuietFor(cfg, es, more, id, u)
    requires NoRepost(ClusterRun(cfg, es + more).log)
    ensures Bound(ClusterRun(cfg, es + more), id, u, st)
    decreases |more|
  {
    if more == [] {
      assert es + more == es;
    } else {
      var front, e := more[..|more| - 1], more[|more| - 1];
      var all := es + front;
      assert (es + more)[..|es + more| - 1] == all;
      LogGrows(cfg, ClusterRun(cfg, all), e);
      BoundRun(cfg, es, front, id, u, st);
      BoundStep(cfg, all, ClusterRun(cfg, all), e, id, u, st);
    }
  }

  lemma {:induction false} MarkAccepted(cfg: Config, es: seq<ClusterEvent>, c: Cluster, e: FleetEvent, id: nat, u: Url,
                                        st: ServerState)
    requires c == ClusterRun(cfg, es) && NoRepost(c.log)
    requires id in c.subscribers && c.subscribers[id] < CAP
    requires Announcement(c.fleet, e, FleetStep(cfg, c.fleet, e)) == Some(MarkMessage(u, st))
    ensures Bound(ManageStep(cfg, c, e), id, u, st)
  {
    InFlightAccounting(cfg, es);
    ManagerDistinct(cfg, es);
    ChronicleRun(cfg, es);
    ManagerMarks(cfg, c.fleet, e, u, st);
    assert LastAt(ManageStep(cfg, c, e).peers[id].queue, u, st, |c.peers[id].queue|);
  }

  /** A worker may have missed any publications; let it then get one mark for a server, because it has
      fewer than five requests open.  After any continuation that publishes nothing more about that
      server and does not lose the mark on its way, the worker's entry for the server, if it has one,
      has the state that the manager's has, as soon as the mark has been delivered. */
  lemma {:induction false} SkippedMarkIsRepaired(cfg: Config, es: seq<ClusterEvent>, e: FleetEvent,
                                                 more: seq<ClusterEvent>, id: nat, u: Url, st: ServerState)
    requires var c := ClusterRun(cfg, es);
      && id in c.subscribers && c.subscribers[id] < CAP
      && Announcement(c.fleet, e, FleetStep(cfg, c.fleet, e)) == Some(MarkMessage(u, st))
    requires QuietFor(cfg, es + [Manage(e)], more, id, u)
    requires NoRepost(ClusterRun(cfg, es + [Manage(e)] + more).log)
    ensures var d := ClusterRun(cfg, es + [Manage(e)] + more);
      && id in d.peers
      && AllIn(d.fleet.backends, Named(u), st)
      && (Silent(d.peers[id].queue, u) ==> AllIn(d.peers[id].pool.backends, Named(u), st))
  {
    var c, all := ClusterRun(cfg, es), es + [Manage(e)];
    assert all[..|es|] == es;
    assert ClusterRun(cfg, all) == ManageStep(cfg, c, e);
    NoRepostBefore(cfg, all, more);
    LogGrows(cfg, c, Manage(e));
    MarkAccepted(cfg, es, c, e, id, u, st);
    BoundRun(cfg, all, more, id, u, st);
    var p := ClusterRun(cfg, all + more).peers[id];
    if Silent(p.queue, u) {
      forall k: nat ensures !LastAt(p.queue, u, st, k) {
      }
    }
  }

  lemma {:induction false} NoRepostBefore(cfg: Config, es: seq<ClusterEvent>, more: seq<ClusterEvent>)
    requires NoRepost(ClusterRun(cfg, es + more).log)
    ensures NoRepost(ClusterRun(cfg, es).log)
    decreases |more|
  {
    if more == [] {
      assert es + more == es;
    } else {
      var front, e := more[..|more| - 1], more[|more| - 1];
      assert (es + more)[..|es + more| - 1] == es + front;
      LogGrows(cfg, ClusterRun(cfg, es + front), e);
      NoRepostBefore(cfg, es, front);
    }
  }
}
