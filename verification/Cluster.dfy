/** What the publisher's functions do to its table of requests in flight, one number per
    subscriber. */
module InFlight {

  /** Most requests a subscriber may have in flight. */
  const CAP := 5

  /** A publication: one more request for every subscriber below the cap. */
  function Offer(subs: map<nat, int>): map<nat, int> {
    map id | id in subs :: if subs[id] < CAP then subs[id] + 1 else subs[id]
  }

  /** A request to `id` succeeded; `id` may have left in the meantime. */
  function Release(subs: map<nat, int>, id: nat): map<nat, int> {
    if id in subs then subs[id := subs[id] - 1] else subs
  }

  /** A request failed or the subscription was dropped. */
  function Leave(subs: map<nat, int>, id: nat): map<nat, int> {
    subs - {id}
  }
}

/** The manager, its subscribers and their workers together.  Every event is one atomic callback in
    one process; any order of events is a run, and an event that is not possible changes nothing.
    Each subscriber's messages arrive in the order sent, and a request succeeds only after its
    message arrived; failures may strike any request that has not ended. */
module Cluster {
  import opened Types
  import opened RoundRobin
  import opened Worker
  import opened Fleet
  import opened InFlight

  datatype Entry = Entry(server: Server, state: ServerState)

  /** The ordered list of servers with their states, without counters. */
  function View(b: seq<BackendValue>): (v: seq<Entry>)
    ensures |v| == |b|
    ensures forall i :: 0 <= i < |b| ==> v[i] == Entry(b[i].server, b[i].state)
  {
    seq(|b|, i requires 0 <= i < |b| => Entry(b[i].server, b[i].state))
  }

  /** One subscriber and its worker.  `queue` was sent and not yet delivered; `awaiting` counts
      requests delivered and not yet ended; `joined` is how much had been published before it
      subscribed; `missed` says that some later publication did not reach it. */
  datatype Peer = Peer(queue: seq<Message>, awaiting: nat, pool: Pool, joined: nat, missed: bool)

  /** `log` and `views` record every publication and the manager's list just after it. */
  datatype Cluster = Cluster(fleet: Fleet, log: seq<Message>, views: seq<seq<Entry>>,
                             subscribers: map<nat, int>, nextId: nat, peers: map<nat, Peer>)

  const START := Cluster(NONE, [], [[]], map[], 0, map[])

  datatype ClusterEvent =
    | Manage(event: FleetEvent)
    | Subscribe
    | Unsubscribe(id: nat)
    | DeliverNext(id: nat)
    | Succeed(id: nat)
    | FailDelivered(id: nat)
    | FailQueued(id: nat, position: nat)
    | TakeRequest(id: nat)
    | EndRequest(id: nat, index: nat, outcome: Outcome)

  function Receive(subs: map<nat, int>, id: nat, p: Peer, m: Message): Peer {
    if id in subs && subs[id] < CAP then p.(queue := p.queue + [m]) else p.(missed := true)
  }

  function Publish(c: Cluster, m: Message): Cluster {
    c.(log := c.log + [m],
    views := c.views + [View(c.fleet.backends)],
    subscribers := Offer(c.subscribers),
    peers := map id | id in c.peers :: Receive(c.subscribers, id, c.peers[id], m))
  }

  function MarkMessage(url: Url, st: ServerState): Message {
    if st == Down then ServerDown(url) else ServerActive(url)
  }

  /** What the manager publishes when its fleet goes from `f` to `g`.  A posted server is published
      whether or not the pool took it. */
  function Announcement(f: Fleet, e: FleetEvent, g: Fleet): Option<Message> {
    if e.Post? then Some(NewServer(e.url))
    else if |g.marks| > |f.marks| && g.marks[|g.marks| - 1].index < |g.backends| then
      var m := g.marks[|g.marks| - 1];
      Some(MarkMessage(g.backends[m.index].server.url, m.state))
    else None
  }

  function ManageStep(cfg: Config, c: Cluster, e: FleetEvent): Cluster {
    var g := FleetStep(cfg, c.fleet, e);
    match Announcement(c.fleet, e, g)
    case Some(m) => Publish(c.(fleet := g), m)
    case None => c.(fleet := g)
  }

  function SetPeer(c: Cluster, id: nat, p: Peer): Cluster {
    c.(peers := c.peers[id := p])
  }

  /** The next message arrives and the worker replays it. */
  function Delivered(p: Peer): Peer
    requires p.queue != []
  {
    p.(queue := p.queue[1..], awaiting := p.awaiting + 1, pool := Apply(p.pool, p.queue[0]))
  }

  predicate Possible(c: Cluster, e: ClusterEvent) {
    match e
    case Manage(_) => true
    case Subscribe => true
    case Unsubscribe(id) => id in c.peers
    case DeliverNext(id) => id in c.peers && c.peers[id].queue != []
    case Succeed(id) => id in c.peers && c.peers[id].awaiting > 0
    case FailDelivered(id) => id in c.peers && c.peers[id].awaiting > 0
    case FailQueued(id, k) => id in c.peers && k < |c.peers[id].queue|
    case TakeRequest(id) => id in c.peers
    case EndRequest(id, _, _) => id in c.peers
  }

  function ClusterStep(cfg: Config, c: Cluster, e: ClusterEvent): Cluster {
    if !Possible(c, e) then c
    else match e
      case Manage(fe) => ManageStep(cfg, c, fe)
      case Subscribe =>
        c.(subscribers := c.subscribers[c.nextId := 0],
        nextId := c.nextId + 1,
        peers := c.peers[c.nextId := Peer([], 0, EMPTY, |c.log|, false)])
      case Unsubscribe(id) => c.(subscribers := Leave(c.subscribers, id))
      case DeliverNext(id) => SetPeer(c, id, Delivered(c.peers[id]))
      case Succeed(id) =>
        var p := c.peers[id];
        SetPeer(c.(subscribers := Release(c.subscribers, id)), id, p.(awaiting := p.awaiting - 1))
      case FailDelivered(id) =>
        var p := c.peers[id];
        SetPeer(c.(subscribers := Leave(c.subscribers, id)), id, p.(awaiting := p.awaiting - 1))
      case FailQueued(id, k) =>
        var p := c.peers[id];
        SetPeer(c.(subscribers := Leave(c.subscribers, id)), id,
                p.(queue := p.queue[..k] + p.queue[k + 1..], missed := true))
      case TakeRequest(id) =>
        var p := c.peers[id];
        SetPeer(c, id, p.(pool := WorkerStep(p.pool, Serve)))
      case EndRequest(id, i, o) =>
        var p := c.peers[id];
        SetPeer(c, id, p.(pool := WorkerStep(p.pool, Settle(i, o))))
  }

  function ClusterRun(cfg: Config, es: seq<ClusterEvent>): Cluster {
    if es == [] then START else ClusterStep(cfg, ClusterRun(cfg, es[..|es| - 1]), es[|es| - 1])
  }

  // ---- requests in flight

  function Uncompleted(p: Peer): nat { |p.queue| + p.awaiting }

  ghost predicate Accounted(c: Cluster) {
    && (forall id :: id in c.peers <==> 0 <= id < c.nextId)
    && (forall id :: id in c.subscribers ==> id in c.peers)
    && (forall id :: id in c.subscribers ==> c.subscribers[id] == Uncompleted(c.peers[id]) <= CAP)
  }

  lemma {:induction false} PublishAccounted(c: Cluster, m: Message)
    requires Accounted(c)
    ensures Accounted(Publish(c, m))
  {
  }

  lemma {:induction false} AccountedStep(cfg: Config, c: Cluster, e: ClusterEvent)
    requires Accounted(c)
    ensures Accounted(ClusterStep(cfg, c, e))
  {
    if e.Manage? {
      var g := FleetStep(cfg, c.fleet, e.event);
      var a := Announcement(c.fleet, e.event, g);
      if a.Some? { PublishAccounted(c.(fleet := g), a.value); }
    }
  }

  /** In every reachable state a subscriber's counter is its number of uncompleted requests, between
      zero and five, and the next id is unused. */
  lemma {:induction false} InFlightAccounting(cfg: Config, es: seq<ClusterEvent>)
    ensures Accounted(ClusterRun(cfg, es))
    ensures forall id :: id in ClusterRun(cfg, es).subscribers ==> 0 <= ClusterRun(cfg, es).subscribers[id] <= 5
    ensures ClusterRun(cfg, es).nextId !in ClusterRun(cfg, es).subscribers
  {
    if es != [] {
      InFlightAccounting(cfg, es[..|es| - 1]);
      AccountedStep(cfg, ClusterRun(cfg, es[..|es| - 1]), es[|es| - 1]);
    }
  }

  /** A publication is sent to a subscriber exactly when fewer than five of its requests are open, and
      is otherwise lost to it. */
  lemma {:induction false} SkippedExactlyAtFive(cfg: Config, es: seq<ClusterEvent>, m: Message, id: nat)
    requires id in ClusterRun(cfg, es).subscribers
    ensures id in ClusterRun(cfg, es).peers
    ensures var p, q := ClusterRun(cfg, es).peers[id], Publish(ClusterRun(cfg, es), m).peers[id];
      && (Uncompleted(p) < 5 ==> q == p.(queue := p.queue + [m]))
      && (Uncompleted(p) == 5 ==> q == p.(missed := true))
      && Uncompleted(p) <= 5
  {
    InFlightAccounting(cfg, es);
  }

  lemma {:induction false} DepartedStep(cfg: Config, c: Cluster, e: ClusterEvent, id: nat)
    requires Accounted(c) && id < c.nextId && id !in c.subscribers
    ensures id < ClusterStep(cfg, c, e).nextId && id !in ClusterStep(cfg, c, e).subscribers
  {
  }

  /** An id that left never comes back. */
  lemma {:induction false} DepartedStaysOut(cfg: Config, es: seq<ClusterEvent>, more: seq<ClusterEvent>, id: nat)
    requires id < ClusterRun(cfg, es).nextId && id !in ClusterRun(cfg, es).subscribers
    ensures id < ClusterRun(cfg, es + more).nextId && id !in ClusterRun(cfg, es + more).subscribers
  {
    if more == [] {
      assert es + more == es;
    } else {
      var front := more[..|more| - 1];
      DepartedStaysOut(cfg, es, front, id);
      assert (es + more)[..|es + more| - 1] == es + front;
      InFlightAccounting(cfg, es + front);
      DepartedStep(cfg, ClusterRun(cfg, es + front), more[|more| - 1], id);
    }
  }

  /** So a completion that arrives late for it changes no subscriber's counter and no other worker. */
  lemma {:induction false} LateCompletion(cfg: Config, es: seq<ClusterEvent>, more: seq<ClusterEvent>, e: ClusterEvent)
    requires e.Succeed? || e.FailDelivered? || e.FailQueued?
    requires e.id < ClusterRun(cfg, es).nextId && e.id !in ClusterRun(cfg, es).subscribers
    ensures ClusterStep(cfg, ClusterRun(cfg, es + more), e).subscribers == ClusterRun(cfg, es + more).subscribers
    ensures var c := ClusterRun(cfg, es + more);
      ClusterStep(cfg, c, e).peers.Keys == c.peers.Keys
      && forall other :: other in c.peers && other != e.id ==> ClusterStep(cfg, c, e).peers[other] == c.peers[other]
  {
    DepartedStaysOut(cfg, es, more, e.id);
    var c := ClusterRun(cfg, es + more);
    assert Leave(c.subscribers, e.id) == c.subscribers;
  }
}
