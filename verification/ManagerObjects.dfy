/** The publisher's table of subscribers. */
module PublisherObjects {
  import opened Worker
  import opened InFlight

  /** A subscriber's connection, with the messages handed to it, and its open requests. */
  datatype SubscriberHandle = SubscriberHandle(sent: seq<Message>, requestsInFlight: int)

  /** A publication reaches the subscribers below the cap and skips the others. */
  function Offered(h: SubscriberHandle, m: Message): SubscriberHandle {
    if h.requestsInFlight < CAP then SubscriberHandle(h.sent + [m], h.requestsInFlight + 1) else h
  }

  function OfferedAll(subs: map<nat, SubscriberHandle>, m: Message): map<nat, SubscriberHandle> {
    map id | id in subs :: Offered(subs[id], m)
  }

  /** The message went to every subscriber with fewer than five requests open, and to no other. */
  ghost predicate SentTo(before: map<nat, SubscriberHandle>, after: map<nat, SubscriberHandle>, m: Message) {
    && after.Keys == before.Keys
    && forall id :: id in before ==>
         after[id] == if before[id].requestsInFlight < 5
                      then SubscriberHandle(before[id].sent + [m], before[id].requestsInFlight + 1)
                      else before[id]
  }

  function Counters(subs: map<nat, SubscriberHandle>): map<nat, int> {
    map id | id in subs :: subs[id].requestsInFlight
  }

  /** What a publication does to the table is what `Offer` does to its counters. */
  lemma {:induction false} OfferedCounters(subs: map<nat, SubscriberHandle>, m: Message)
    ensures Counters(OfferedAll(subs, m)) == Offer(Counters(subs))
  {
  }

  class SubscriberMap {
    var subscribers: map<nat, SubscriberHandle>

    constructor ()
      ensures subscribers == map[]
    {
      subscribers := map[];
    }

    /** The common body of the three publish functions: visits every subscriber, in any order. */
    method Publish(m: Message)
      modifies this
      ensures subscribers == OfferedAll(old(subscribers), m)
      ensures SentTo(old(subscribers), subscribers, m)
      ensures Counters(subscribers) == Offer(old(Counters(subscribers)))
    {
      ghost var before := subscribers;
      var todo := subscribers.Keys;
      while todo != {}
        invariant todo <= subscribers.Keys == before.Keys
        invariant forall id :: id in subscribers ==>
                    subscribers[id] == if id in todo then before[id] else Offered(before[id], m)
        decreases |todo|
      {
        var id :| id in todo;
        var s := subscribers[id];
        if s.requestsInFlight < CAP {
          s := s.(requestsInFlight := s.requestsInFlight + 1);
          s := s.(sent := s.sent + [m]);
          subscribers := subscribers[id := s];
        }
        todo := todo - {id};
      }
      assert subscribers == OfferedAll(before, m);
      OfferedCounters(before, m);
    }

    /** The end of a request to `id`, which may have left in the meantime. */
    method Completed(id: nat, ok: bool)
      modifies this
      ensures Counters(subscribers) ==
              if ok then Release(old(Counters(subscribers)), id) else Leave(old(Counters(subscribers)), id)
      ensures forall x :: x in subscribers ==>
                x in old(subscribers) && subscribers[x].sent == old(subscribers)[x].sent
    {
      if ok {
        if id in subscribers {
          var s := subscribers[id];
          subscribers := subscribers[id := s.(requestsInFlight := s.requestsInFlight - 1)];
        }
      } else {
        subscribers := subscribers - {id};
      }
    }
  }

  class SubscriptionImpl {
    const id: nat
    const subscribers: SubscriberMap

    constructor (id: nat, subscribers: SubscriberMap)
      ensures this.id == id && this.subscribers == subscribers
    {
      this.id := id;
      this.subscribers := subscribers;
    }

    method Drop()
      modifies subscribers
      ensures subscribers.subscribers == old(subscribers.subscribers) - {id}
      ensures Counters(subscribers.subscribers) == Leave(old(Counters(subscribers.subscribers)), id)
    {
      subscribers.subscribers := subscribers.subscribers - {id};
    }
  }

  class PublisherImpl {
    var nextId: nat
    const subscribers: SubscriberMap

    constructor (subscribers: SubscriberMap)
      ensures this.subscribers == subscribers && nextId == 0
    {
      this.subscribers := subscribers;
      nextId := 0;
    }

    method Subscribe() returns (subscription: SubscriptionImpl)
      modifies this`nextId, subscribers
      ensures subscription.id == old(nextId) && subscription.subscribers == subscribers
      ensures nextId == old(nextId) + 1
      ensures subscribers.subscribers == old(subscribers.subscribers)[old(nextId) := SubscriberHandle([], 0)]
    {
      subscribers.subscribers := subscribers.subscribers[nextId := SubscriberHandle([], 0)];
      subscription := new SubscriptionImpl(nextId, subscribers);
      nextId := nextId + 1;
    }
  }
}

/** The manager's health table and its callbacks, on the objects they update. */
module ManagerObjects {
  import opened Types
  import PR = PoolRuns
  import opened Worker
  import opened Health
  import opened Fleet
  import C = Cluster
  import opened PoolObjects
  import opened PublisherObjects

  class BackendHealth {
    /** Entries under the value their key had when a lookup finds them. */
    var healthState: map<BackendValue, HealthState>

    constructor ()
      ensures healthState == map[]
    {
      healthState := map[];
    }

    method ShouldMarkActive(backend: Backend, requiredPasses: nat) returns (mark: bool)
      modifies this
      ensures var v := backend.Value();
        var r := AfterPass(v.state, Lookup(old(healthState), v), requiredPasses);
        healthState == old(healthState)[v := r.0] && mark == r.1
    {
      var key := backend.Value();
      if key !in healthState {
        healthState := healthState[key := Passing(0)];
      }
      var state := healthState[key];
      mark := false;
      if backend.state == Active {
        if state.Failing? {
          healthState := healthState[key := Passing(0)];
        }
      } else {
        match state
        case Passing(n) =>
          var passes := n + 1;
          if passes >= requiredPasses {
            healthState := healthState[key := Passing(0)];
            mark := true;
          } else {
            healthState := healthState[key := Passing(passes)];
          }
        case Failing(_) =>
          healthState := healthState[key := Passing(1)];
      }
    }

    method ShouldMarkDown(backend: Backend, requiredFailures: nat) returns (mark: bool)
      modifies this
      ensures var v := backend.Value();
        var r := AfterFail(v.state, Lookup(old(healthState), v), requiredFailures);
        healthState == old(healthState)[v := r.0] && mark == r.1
    {
      var key := backend.Value();
      if key !in healthState {
        healthState := healthState[key := Passing(0)];
      }
      var state := healthState[key];
      mark := false;
      if backend.state == Down {
        if state.Passing? {
          healthState := healthState[key := Failing(0)];
        }
      } else {
        match state
        case Failing(n) =>
          var failures := n + 1;
          if failures >= requiredFailures {
            healthState := healthState[key := Failing(0)];
            mark := true;
          } else {
            healthState := healthState[key := Failing(failures)];
          }
        case Passing(_) =>
          healthState := healthState[key := Failing(1)];
      }
    }

    method Judge(backend: Backend, th: Thresholds, passed: bool) returns (mark: bool)
      modifies this
      ensures var v := backend.Value();
        var r := After(th, v.state, Lookup(old(healthState), v), passed);
        healthState == old(healthState)[v := r.0] && mark == r.1
    {
      if passed {
        mark := ShouldMarkActive(backend, th.passes);
      } else {
        mark := ShouldMarkDown(backend, th.failures);
      }
    }

    /** The key's value changed under the map: what lookups find from now on. */
    method KeyChanged(before: BackendValue, now: BackendValue, fate: Fate)
      requires before in healthState
      modifies this
      ensures healthState == Rekey(old(healthState), now, old(healthState)[before], fate)
    {
      match fate
      case Kept => healthState := healthState[now := healthState[before]];
      case Reset => healthState := healthState - {now};
      case Restored =>
    }
  }

  /** What the manager's table of subscribers becomes when `f` turned into `g`. */
  function Announced(subs: map<nat, SubscriberHandle>, f: Fleet, e: FleetEvent, g: Fleet): map<nat, SubscriberHandle> {
    match C.Announcement(f, e, g)
    case Some(m) => OfferedAll(subs, m)
    case None => subs
  }

  /** The table and the cluster have the same subscribers with the same numbers of open requests. */
  ghost predicate Mirrors(subs: map<nat, SubscriberHandle>, c: C.Cluster) {
    Counters(subs) == c.subscribers && forall id :: id in subs ==> id in c.peers
  }

  /** While the cluster went from `c` to `d`, each subscriber was handed exactly what was queued for it. */
  ghost predicate HandedOver(before: map<nat, SubscriberHandle>, after: map<nat, SubscriberHandle>,
                             c: C.Cluster, d: C.Cluster)
  {
    && after.Keys == before.Keys
    && forall id :: id in before ==>
         && id in c.peers && id in d.peers && c.peers[id].queue <= d.peers[id].queue
         && after[id].sent == before[id].sent + d.peers[id].queue[|c.peers[id].queue|..]
  }

  lemma {:induction false} PublishHandsOver(subs: map<nat, SubscriberHandle>, c: C.Cluster, m: Message)
    requires Mirrors(subs, c)
    ensures Mirrors(OfferedAll(subs, m), C.Publish(c, m))
    ensures HandedOver(subs, OfferedAll(subs, m), c, C.Publish(c, m))
  {
    OfferedCounters(subs, m);
    forall id | id in subs ensures c.subscribers[id] == subs[id].requestsInFlight {
      assert Counters(subs)[id] == subs[id].requestsInFlight;
    }
  }

  /** Whatever the manager does, its table of subscribers follows the cluster: the counters agree, and the
      messages handed to each connection are those queued for that subscriber, in order. */
  lemma {:induction false} AnnouncedHandsOver(cfg: Config, c: C.Cluster, e: FleetEvent,
                                              subs: map<nat, SubscriberHandle>)
    requires Mirrors(subs, c)
    ensures var d := C.ManageStep(cfg, c, e);
      var after := Announced(subs, c.fleet, e, d.fleet);
      d.fleet == FleetStep(cfg, c.fleet, e) && Mirrors(after, d) && HandedOver(subs, after, c, d)
  {
    var g := FleetStep(cfg, c.fleet, e);
    var a := C.Announcement(c.fleet, e, g);
    if a.Some? { PublishHandsOver(subs, c.(fleet := g), a.value); }
  }

  /** The backends after the synchronous part of a round over the first `k` of them. */
  function Sweep(cfg: Config, f: Fleet, k: nat): Fleet {
    if k == 0 then f else FleetStep(cfg, Sweep(cfg, f, k - 1), Rejected(k - 1))
  }

  /** What the subscribers were sent meanwhile. */
  function SweepSent(cfg: Config, f: Fleet, subs: map<nat, SubscriberHandle>, k: nat): map<nat, SubscriberHandle> {
    if k == 0 then subs
    else Announced(SweepSent(cfg, f, subs, k - 1), Sweep(cfg, f, k - 1), Rejected(k - 1), Sweep(cfg, f, k))
  }

  /** The cluster after the synchronous part of a round. */
  function SweepCluster(cfg: Config, c: C.Cluster, k: nat): C.Cluster {
    if k == 0 then c else C.ManageStep(cfg, SweepCluster(cfg, c, k - 1), Rejected(k - 1))
  }

  lemma {:induction false} HandedOverTwice(subs: map<nat, SubscriberHandle>, mid: map<nat, SubscriberHandle>,
                                           after: map<nat, SubscriberHandle>,
                                           c: C.Cluster, d: C.Cluster, f: C.Cluster)
    requires HandedOver(subs, mid, c, d) && HandedOver(mid, after, d, f)
    ensures HandedOver(subs, after, c, f)
  {
  }

  /** The same for a whole round. */
  lemma {:induction false} SweepHandsOver(cfg: Config, c: C.Cluster, subs: map<nat, SubscriberHandle>, k: nat)
    requires Mirrors(subs, c)
    ensures var d := SweepCluster(cfg, c, k);
      d.fleet == Sweep(cfg, c.fleet, k)
      && Mirrors(SweepSent(cfg, c.fleet, subs, k), d) && HandedOver(subs, SweepSent(cfg, c.fleet, subs, k), c, d)
  {
    if k > 0 {
      SweepHandsOver(cfg, c, subs, k - 1);
      var d, mid := SweepCluster(cfg, c, k - 1), SweepSent(cfg, c.fleet, subs, k - 1);
      AnnouncedHandsOver(cfg, d, Rejected(k - 1), mid);
      HandedOverTwice(subs, mid, SweepSent(cfg, c.fleet, subs, k), c, d, SweepCluster(cfg, c, k));
    }
  }

  ghost predicate Swept(cfg: Config, f: Fleet, subs: map<nat, SubscriberHandle>, k: nat,
                        g: Fleet, s: map<nat, SubscriberHandle>)
  {
    Sweep(cfg, f, k) == g && SweepSent(cfg, f, subs, k) == s
  }

  lemma {:induction false} SweepStep(cfg: Config, f: Fleet, subs: map<nat, SubscriberHandle>, k: nat,
                                     g: Fleet, s: map<nat, SubscriberHandle>,
                                     h: Fleet, t: map<nat, SubscriberHandle>)
    requires Swept(cfg, f, subs, k, g, s)
    requires h == FleetStep(cfg, g, Rejected(k)) && t == Announced(s, g, Rejected(k), h)
    ensures Swept(cfg, f, subs, k + 1, h, t)
  {
  }

  lemma {:induction false} RejectEffect(cfg: Config, g: Fleet, i: nat)
    requires i < |g.backends|
    ensures var h := FleetStep(cfg, g, Rejected(i));
      && h.table == g.table && h.stored == g.stored
      && h.backends == if cfg.validUrl(g.backends[i].server.url) then g.backends else PR.SetStateAt(g.backends, i, Down)
  {
    if !cfg.validUrl(g.backends[i].server.url) && g.backends[i].IsDown() {
      assert PR.SetStateAt(g.backends, i, Down) == g.backends;
    }
  }

  /** Backend `i` of `f` after the first `k` backends had their turn. */
  function Visited(cfg: Config, f: Fleet, k: nat, i: nat): BackendValue
    requires i < |f.backends|
  {
    if i < k && !cfg.validUrl(f.backends[i].server.url) then f.backends[i].(state := Down) else f.backends[i]
  }

  lemma {:induction false} VisitedStep(cfg: Config, f: Fleet, g: Fleet, k: nat, i: nat)
    requires k < |f.backends| == |g.backends| && i < |f.backends|
    requires g.backends[i] == Visited(cfg, f, k, i) && g.backends[k] == Visited(cfg, f, k, k)
    ensures var h := FleetStep(cfg, g, Rejected(k));
      |h.backends| == |f.backends| && h.backends[i] == Visited(cfg, f, k + 1, i)
  {
    RejectEffect(cfg, g, k);
  }

  /** A round takes exactly the backends with an invalid check URL out of service and leaves the
      counters alone. */
  lemma {:induction false} SweepEffect(cfg: Config, f: Fleet, k: nat, i: nat)
    requires k <= |f.backends| && i < |f.backends|
    ensures var g := Sweep(cfg, f, k);
      && |g.backends| == |f.backends| && g.backends[i] == Visited(cfg, f, k, i)
      && g.table == f.table && g.stored == f.stored
    decreases k
  {
    if k > 0 {
      var g := Sweep(cfg, f, k - 1);
      SweepEffect(cfg, f, k - 1, i);
      SweepEffect(cfg, f, k - 1, k - 1);
      VisitedStep(cfg, f, g, k - 1, i);
      RejectEffect(cfg, g, k - 1);
    }
  }

  /** A completed check that decides nothing only touches the table. */
  lemma {:induction false} QuietCheck(cfg: Config, f: Fleet, i: nat, c: Check, subs: map<nat, SubscriberHandle>)
    requires Enabled(cfg, f, Completed(i, c))
    requires var v := f.backends[i]; !After(cfg.thresholds, v.state, Lookup(f.table, v), c.passed).1
    ensures var v, g := f.backends[i], FleetStep(cfg, f, Completed(i, c));
      var h := After(cfg.thresholds, v.state, Lookup(f.table, v), c.passed).0;
      && g == f.(table := f.table[v := h], stored := f.stored + {h})
      && Announced(subs, f, Completed(i, c), g) == subs
  {
  }

  /** A mark is announced under the server's URL. */
  lemma {:induction false} MarkAnnounced(f: Fleet, t: Fleet, i: nat, st: ServerState, e: FleetEvent,
                                         subs: map<nat, SubscriberHandle>)
    requires i < |f.backends| && t.backends == f.backends && t.marks == f.marks && !e.Post?
    ensures Announced(subs, f, e, MarkAt(t, i, st)) ==
            OfferedAll(subs, C.MarkMessage(f.backends[i].server.url, st))
  {
  }

  lemma {:induction false} DecidingCheck(cfg: Config, f: Fleet, i: nat, c: Check)
    requires Enabled(cfg, f, Completed(i, c))
    requires var v := f.backends[i]; After(cfg.thresholds, v.state, Lookup(f.table, v), c.passed).1
    ensures var v := f.backends[i];
      var h := After(cfg.thresholds, v.state, Lookup(f.table, v), c.passed).0;
      var st := if c.passed then Active else Down;
      FleetStep(cfg, f, Completed(i, c)) ==
      MarkAt(f.(table := Rekey(f.table[v := h], v.(state := st), h, c.fate), stored := f.stored + {h}), i, st)
  {
  }

  class Manager {
    const pool: InnerPool
    const health: BackendHealth
    const subscribers: SubscriberMap
    ghost var marks: seq<Mark>
    ghost var stored: set<HealthState>

    constructor (pool: InnerPool, health: BackendHealth, subscribers: SubscriberMap)
      ensures this.pool == pool && this.health == health && this.subscribers == subscribers && marks == []
      ensures stored == {}
    {
      this.pool := pool;
      this.health := health;
      this.subscribers := subscribers;
      marks := [];
      stored := {};
    }

    ghost function FleetView(): Fleet
      reads this, pool, pool.backends, health
    {
      Fleet(Values(pool.backends), health.healthState, stored, marks)
    }

    /** A posted server enters the pool, if the pool takes it, and is published either way. */
    method AddServer(ghost cfg: Config, url: Url)
      requires pool.Valid()
      modifies pool`backends, subscribers
      ensures pool.Valid()
      ensures FleetView() == FleetStep(cfg, old(FleetView()), Post(url))
      ensures subscribers.subscribers ==
              Announced(old(subscribers.subscribers), old(FleetView()), Post(url), FleetView())
      ensures SentTo(old(subscribers.subscribers), subscribers.subscribers, NewServer(url))
    {
      var _ := pool.Add(Named(url));
      subscribers.Publish(NewServer(url));
    }

    /** Marks one backend and publishes the mark. */
    method MarkAndPublish(i: nat, st: ServerState)
      requires pool.Valid() && i < |pool.backends|
      modifies {pool.backends[i]}`state, this`marks, subscribers
      ensures FleetView() == MarkAt(old(FleetView()), i, st)
      ensures subscribers.subscribers ==
              OfferedAll(old(subscribers.subscribers), C.MarkMessage(pool.backends[i].server.url, st))
      ensures SentTo(old(subscribers.subscribers), subscribers.subscribers,
                     if st == Active then ServerActive(pool.backends[i].server.url)
                     else ServerDown(pool.backends[i].server.url))
    {
      ghost var vs := Values(pool.backends);
      var backend := pool.backends[i];
      if st == Active {
        backend.MarkActive();
        subscribers.Publish(ServerActive(backend.server.url));
      } else {
        backend.MarkDown();
        subscribers.Publish(ServerDown(backend.server.url));
      }
      marks := marks + [Mark(i, st)];
      ValuesAre(pool.backends, PR.SetStateAt(vs, i, st));
    }

    /** A health check of backend `i` ends. */
    method CheckCompleted(cfg: Config, i: nat, c: Check)
      requires pool.Valid() && i < |pool.backends| && cfg.validUrl(pool.backends[i].server.url)
      modifies {pool.backends[i]}`state, this`marks, this`stored, health, subscribers
      ensures FleetView() == FleetStep(cfg, old(FleetView()), Completed(i, c))
      ensures subscribers.subscribers ==
              Announced(old(subscribers.subscribers), old(FleetView()), Completed(i, c), FleetView())
      ensures if pool.backends[i].state == old(pool.backends[i].state)
              then subscribers.subscribers == old(subscribers.subscribers)
              else SentTo(old(subscribers.subscribers), subscribers.subscribers,
                          if pool.backends[i].state == Active then ServerActive(pool.backends[i].server.url)
                          else ServerDown(pool.backends[i].server.url))
    {
      var backend := pool.backends[i];
      ghost var f := FleetView();
      var v := backend.Value();
      assert f.backends[i] == v;
      var mark := health.Judge(backend, cfg.thresholds, c.passed);
      stored := stored + {health.healthState[v]};
      if mark {
        var st := if c.passed then Active else Down;
        health.KeyChanged(v, v.(state := st), c.fate);
        DecidingCheck(cfg, f, i, c);
        MarkAnnounced(f, FleetView(), i, st, Completed(i, c), subscribers.subscribers);
        MarkAndPublish(i, st);
      } else {
        QuietCheck(cfg, f, i, c, subscribers.subscribers);
      }
    }

    /** One backend's turn in a round: with an invalid check URL it is taken out of service,
        otherwise a check is started. */
    method Visit(cfg: Config, i: nat) returns (started: bool)
      requires pool.Valid() && i < |pool.backends|
      modifies {pool.backends[i]}`state, this`marks, subscribers
      ensures FleetView() == FleetStep(cfg, old(FleetView()), Rejected(i))
      ensures subscribers.subscribers ==
              Announced(old(subscribers.subscribers), old(FleetView()), Rejected(i), FleetView())
      ensures started == cfg.validUrl(pool.backends[i].server.url)
      ensures if started || old(pool.backends[i].state) == Down
              then subscribers.subscribers == old(subscribers.subscribers)
              else SentTo(old(subscribers.subscribers), subscribers.subscribers,
                          ServerDown(pool.backends[i].server.url))
    {
      var backend := pool.backends[i];
      ghost var f := FleetView();
      assert f.backends[i] == backend.Value();
      started := cfg.validUrl(backend.server.url);
      if !started && backend.state == Active {
        MarkAnnounced(f, f, i, Down, Rejected(i), subscribers.subscribers);
        MarkAndPublish(i, Down);
      }
    }

    /** A round visits every backend that the pool held when it began. */
    method Round(cfg: Config)
      requires pool.Valid()
      modifies pool.backends`state, this`marks, subscribers
      ensures FleetView() == Sweep(cfg, old(FleetView()), |pool.backends|)
      ensures subscribers.subscribers ==
              SweepSent(cfg, old(FleetView()), old(subscribers.subscribers), |pool.backends|)
    {
      ghost var f, subs := FleetView(), subscribers.subscribers;
      ghost var g, s := f, subs;
      var i := 0;
      while i < |pool.backends|
        invariant 0 <= i <= |pool.backends|
        invariant g == FleetView() && s == subscribers.subscribers
        invariant Swept(cfg, f, subs, i, g, s)
      {
        var _ := Visit(cfg, i);
        SweepStep(cfg, f, subs, i, g, s, FleetView(), subscribers.subscribers);
        g, s := FleetView(), subscribers.subscribers;
        i := i + 1;
      }
    }
  }
}
