/** Where exactly a worker's list departs from the manager's. */
module Divergence {
  import opened Types
  import opened RoundRobin
  import opened PoolRuns
  import opened Worker
  import opened Fleet
  import opened InFlight
  import opened Cluster
  import opened Replication

  // ---- what each publication did to the manager's list

  /** The manager has served nothing, so it refuses a posting exactly when an active entry is there. */
  function PostView(v: seq<Entry>, u: Url): seq<Entry> {
    if Entry(Named(u), Active) in v then v else v + [Entry(Named(u), Active)]
  }

  function StateIn(m: Message): ServerState { if m.ServerDown? then Down else Active }

  /** Entry `i` for the server was turned into state `st`. */
  predicate Turned(v: seq<Entry>, w: seq<Entry>, s: Server, st: ServerState, i: nat) {
    i < |v| && v[i] == Entry(s, Opposite(st)) && w == v[i := Entry(s, st)]
  }

  /** The list went from `v` to `w` in the way that `m` announces. */
  ghost predicate Explains(m: Message, v: seq<Entry>, w: seq<Entry>) {
    if m.NewServer? then w == PostView(v, m.url)
    else exists i :: Turned(v, w, Named(m.url), StateIn(m), i)
  }

  /** The manager's backends stem from posted URLs and have served nothing. */
  ghost predicate Plain(b: seq<BackendValue>) {
    forall i :: 0 <= i < |b| ==> b[i].server == Named(b[i].server.url) && b[i].stats == Stats(0, 0)
  }

  /** `views` is the history of the manager's list, from the empty list to the present one. */
  ghost predicate Chronicle(c: Cluster) {
    && |c.views| == |c.log| + 1
    && c.views[0] == [] && c.views[|c.log|] == View(c.fleet.backends)
    && (forall k :: 0 <= k < |c.log| ==> Explains(c.log[k], c.views[k], c.views[k + 1]))
    && Plain(c.fleet.backends)
  }

  lemma {:induction false} PostExplained(b: seq<BackendValue>, u: Url)
    requires Plain(b)
    ensures View(Add(Pool(b, 0), Named(u)).0.backends) == PostView(View(b), u)
  {
    var s := Named(u);
    if Fresh(s) in b {
      var i :| 0 <= i < |b| && b[i] == Fresh(s);
      assert View(b)[i] == Entry(s, Active);
    } else {
      forall i | 0 <= i < |b| ensures View(b)[i] != Entry(s, Active) {
        assert b[i] in b;
      }
      assert View(b + [Fresh(s)]) == View(b) + [Entry(s, Active)];
    }
  }

  lemma {:induction false} MarkExplained(b: seq<BackendValue>, i: nat)
    requires Plain(b) && i < |b|
    ensures var st := Opposite(b[i].state);
      Explains(MarkMessage(b[i].server.url, st), View(b), View(SetStateAt(b, i, st)))
  {
    var st := Opposite(b[i].state);
    assert View(SetStateAt(b, i, st)) == View(b)[i := Entry(b[i].server, st)];
    var m := MarkMessage(b[i].server.url, st);
    assert Named(m.url) == b[i].server && StateIn(m) == st;
    assert Turned(View(b), View(SetStateAt(b, i, st)), Named(m.url), StateIn(m), i);
  }

  lemma {:induction false} ManagerExplained(cfg: Config, f: Fleet, e: FleetEvent)
    requires Plain(f.backends)
    ensures var g := FleetStep(cfg, f, e);
      && Plain(g.backends)
      && match Announcement(f, e, g)
         case Some(m) => Explains(m, View(f.backends), View(g.backends))
         case None => g.backends == f.backends
  {
    var g := FleetStep(cfg, f, e);
    StepMarks(cfg, f, e);
    if e.Post? {
      PostExplained(f.backends, e.url);
    } else if |g.marks| > |f.marks| {
      MarkExplained(f.backends, g.marks[|g.marks| - 1].index);
    }
  }

  lemma {:induction false} ChronicleStep(cfg: Config, c: Cluster, e: ClusterEvent)
    requires Chronicle(c)
    ensures Chronicle(ClusterStep(cfg, c, e))
  {
    if e.Manage? { ManagerExplained(cfg, c.fleet, e.event); }
  }

  lemma {:induction false} ChronicleRun(cfg: Config, es: seq<ClusterEvent>)
    ensures Chronicle(ClusterRun(cfg, es))
  {
    if es != [] {
      ChronicleRun(cfg, es[..|es| - 1]);
      ChronicleStep(cfg, ClusterRun(cfg, es[..|es| - 1]), es[|es| - 1]);
    }
  }

  // ---- one delivery, to a worker that lacks the first `n` entries of the manager's list

  ghost predicate FirstFor(v: seq<Entry>, s: Server, i: nat) {
    i < |v| && v[i].server == s && forall j :: 0 <= j < i ==> v[j].server != s
  }

  /** The worker finds the first entry of its list. */
  lemma {:induction false} FindIsFirst(b: seq<BackendValue>, v: seq<Entry>, s: Server)
    requires View(b) == v
    ensures forall i: nat :: FirstFor(v, s, i) <==> Find(b, s) == Some(i)
  {
    var r := Find(b, s);
    forall j | 0 <= j < |v| ensures v[j].server == b[j].server {
    }
    forall i: nat ensures FirstFor(v, s, i) <==> r == Some(i) {
      if FirstFor(v, s, i) { FindFirst(b, s, i); }
    }
  }

  /** The entry that changed between two lists is the first one for the server. */
  ghost predicate FirstChanged(v: seq<Entry>, w: seq<Entry>, s: Server) {
    exists i: nat :: FirstFor(v, s, i) && |w| == |v| && v[i] != w[i]
  }

  /** There is no entry for the server, or the first one is in that state. */
  ghost predicate FirstIsIn(v: seq<Entry>, s: Server, st: ServerState) {
    forall i: nat :: FirstFor(v, s, i) ==> v[i].state == st
  }

  /** When a message that took the manager's list from `v` to `w` does the same in the worker.  A posting
      has to be taken by both or refused by both; a mark has to be for the first entry that the worker
      has for the server or, if it was for an entry that the worker lacks, has to change nothing. */
  ghost predicate Matches(p: Pool, m: Message, v: seq<Entry>, w: seq<Entry>, n: nat)
    requires n <= |v| <= |w|
  {
    var s := Named(m.url);
    if m.NewServer? then Entry(s, Active) !in v <==> AllUsed(p.backends, s)
    else if v[n..] != w[n..] then FirstChanged(v[n..], w[n..], s)
    else FirstIsIn(v[n..], s, StateIn(m))
  }

  lemma {:induction false} RepostBoundary(p: Pool, u: Url, v: seq<Entry>, n: nat)
    requires n <= |v| && View(p.backends) == v[n..]
    ensures n <= |PostView(v, u)|
    ensures View(Apply(p, NewServer(u)).backends) == PostView(v, u)[n..] <==>
            (Entry(Named(u), Active) !in v <==> AllUsed(p.backends, Named(u)))
  {
    var s, b := Named(u), p.backends;
    AddBoundary(p, s);
    assert View(b + [Fresh(s)]) == View(b) + [Entry(s, Active)];
    assert (v + [Entry(s, Active)])[n..] == v[n..] + [Entry(s, Active)];
    assert |View(b)| != |View(b) + [Entry(s, Active)]|;
  }

  /** A mark that changed the manager's entry `i` changes the worker's list alike exactly when entry `i`
      is the first one for the server there. */
  lemma {:induction false} MarkBoundary(p: Pool, s: Server, st: ServerState, v: seq<Entry>, w: seq<Entry>, i: nat)
    requires View(p.backends) == v && Turned(v, w, s, st, i)
    ensures View(MarkFirst(p, s, st).backends) == w <==> FirstChanged(v, w, s)
  {
    var b := p.backends;
    FindIsFirst(b, v, s);
    assert b[i].server == v[i].server;
    var k := Find(b, s).value;
    var y := View(SetStateAt(b, k, st));
    assert y == v[k := Entry(s, st)];
    assert FirstFor(v, s, k);
    if k == i {
      assert v[i] != w[i];
    } else {
      assert y[i] != w[i];
    }
  }

  /** A mark for an entry that the worker lacks must not change another one there. */
  lemma {:induction false} StrayMarkBoundary(p: Pool, s: Server, st: ServerState, v: seq<Entry>)
    requires View(p.backends) == v
    ensures View(MarkFirst(p, s, st).backends) == v <==> FirstIsIn(v, s, st)
  {
    var b := p.backends;
    FindIsFirst(b, v, s);
    var r := Find(b, s);
    if r.Some? {
      var k := r.value;
      assert FirstFor(v, s, k);
      assert View(SetStateAt(b, k, st)) == v[k := Entry(s, st)];
      assert v[k := Entry(s, st)] == v <==> v[k].state == st;
    }
  }

  lemma {:induction false} DeliveryBoundary(p: Pool, m: Message, v: seq<Entry>, w: seq<Entry>, n: nat)
    requires n <= |v| && View(p.backends) == v[n..] && Explains(m, v, w)
    ensures |v| <= |w|
    ensures View(Apply(p, m).backends) == w[n..] <==> Matches(p, m, v, w, n)
  {
    if m.NewServer? {
      RepostBoundary(p, m.url, v, n);
    } else {
      var s, st := Named(m.url), StateIn(m);
      var i: nat :| Turned(v, w, s, st, i);
      if n <= i {
        assert v[n..][i - n] != w[n..][i - n];
        assert Turned(v[n..], w[n..], s, st, i - n);
        MarkBoundary(p, s, st, v[n..], w[n..], i - n);
      } else {
        assert v[n..] == w[n..];
        StrayMarkBoundary(p, s, st, v[n..]);
      }
    }
  }

  // ---- whole runs

  /** The worker's list is the manager's after what the worker has replayed, less what the manager had
      when the worker subscribed. */
  ghost predicate InStepWith(log: seq<Message>, views: seq<seq<Entry>>, p: Peer) {
    var k := Replayed(log, p);
    && p.joined <= k < |views| && |views[p.joined]| <= |views[k]|
    && View(p.pool.backends) == views[k][|views[p.joined]|..]
  }

  ghost predicate InStep(c: Cluster, id: nat) {
    id in c.peers ==> InStepWith(c.log, c.views, c.peers[id])
  }

  ghost predicate InStepThroughout(cfg: Config, es: seq<ClusterEvent>, id: nat)
    decreases |es|
  {
    InStep(ClusterRun(cfg, es), id) && (es != [] ==> InStepThroughout(cfg, es[..|es| - 1], id))
  }

  /** The next message for the worker will do there what it did at the manager. */
  ghost predicate NextMatches(log: seq<Message>, views: seq<seq<Entry>>, p: Peer) {
    p.queue != [] ==>
      var k := Replayed(log, p);
      && p.joined <= k && k + 1 < |views| && |views[p.joined]| <= |views[k]| <= |views[k + 1]|
      && Matches(p.pool, p.queue[0], views[k], views[k + 1], |views[p.joined]|)
  }

  ghost predicate MatchingDelivery(c: Cluster, id: nat) {
    id in c.peers ==> NextMatches(c.log, c.views, c.peers[id])
  }

  /** Every delivery to the worker along the run is a matching one. */
  ghost predicate MatchingDeliveries(cfg: Config, es: seq<ClusterEvent>, id: nat)
    decreases |es|
  {
    es != [] ==>
      && MatchingDeliveries(cfg, es[..|es| - 1], id)
      && (es[|es| - 1] == DeliverNext(id) ==> MatchingDelivery(ClusterRun(cfg, es[..|es| - 1]), id))
  }

  /** Once subscribed, a worker's joining point is fixed and a loss is never undone. */
  lemma {:induction false} PeerStays(cfg: Config, c: Cluster, e: ClusterEvent, id: nat)
    requires id in c.peers && c.nextId !in c.peers
    ensures var d := ClusterStep(cfg, c, e);
      && id in d.peers && d.peers[id].joined == c.peers[id].joined
      && (c.peers[id].missed ==> d.peers[id].missed)
  {
  }

  lemma {:induction false} DeliveryInStep(log: seq<Message>, views: seq<seq<Entry>>, p: Peer, k: nat)
    requires p.queue != [] && k == Replayed(log, p) && k + 1 < |views|
    requires Explains(p.queue[0], views[k], views[k + 1])
    requires InStepWith(log, views, p)
    ensures InStepWith(log, views, Delivered(p)) <==> NextMatches(log, views, p)
  {
    assert Replayed(log, Delivered(p)) == k + 1;
    DeliveryBoundary(p.pool, p.queue[0], views[k], views[k + 1], |views[p.joined]|);
  }

  lemma {:induction false} NextIsExplained(c: Cluster, p: Peer, k: nat)
    requires Chronicle(c) && QueueIsSuffix(c.log, p) && !p.missed && p.queue != [] && k == Replayed(c.log, p)
    ensures k + 1 < |c.views| && Explains(p.queue[0], c.views[k], c.views[k + 1])
  {
    assert p.queue[0] == c.log[k];
  }

  lemma {:induction false} OtherEventInStep(cfg: Config, c: Cluster, e: ClusterEvent, id: nat)
    requires id in c.peers && c.nextId !in c.peers && QueueIsSuffix(c.log, c.peers[id])
    requires |c.views| == |c.log| + 1 && InStep(c, id) && e != DeliverNext(id)
    requires var d := ClusterStep(cfg, c, e); id in d.peers && !d.peers[id].missed
    ensures InStep(ClusterStep(cfg, c, e), id)
  {
    if e == TakeRequest(id) {
      RequestsLeaveView(c.peers[id].pool, Serve);
    } else if e.EndRequest? {
      RequestsLeaveView(c.peers[id].pool, Settle(e.index, e.outcome));
    }
  }

  lemma {:induction false} DeliverNextInStep(cfg: Config, c: Cluster, id: nat)
    requires id in c.peers && InStep(c, id)
    requires var p := c.peers[id];
      var k := Replayed(c.log, p);
      p.queue != [] ==> 0 <= k && k + 1 < |c.views| && Explains(p.queue[0], c.views[k], c.views[k + 1])
    ensures InStep(ClusterStep(cfg, c, DeliverNext(id)), id) <==> MatchingDelivery(c, id)
  {
    var p := c.peers[id];
    if p.queue != [] {
      DeliveryInStep(c.log, c.views, p, Replayed(c.log, p));
      assert ClusterStep(cfg, c, DeliverNext(id)) == SetPeer(c, id, Delivered(p));
    }
  }

  lemma {:induction false} InStepNext(cfg: Config, c: Cluster, e: ClusterEvent, id: nat)
    requires Chronicle(c) && Synced(c) && Accounted(c) && id in c.peers && InStep(c, id)
    requires var d := ClusterStep(cfg, c, e); id in d.peers && !d.peers[id].missed
    ensures InStep(ClusterStep(cfg, c, e), id) <==> (e == DeliverNext(id) ==> MatchingDelivery(c, id))
  {
    PeerStays(cfg, c, e, id);
    if e == DeliverNext(id) {
      var p := c.peers[id];
      if p.queue != [] { NextIsExplained(c, p, Replayed(c.log, p)); }
      DeliverNextInStep(cfg, c, id);
    } else {
      OtherEventInStep(cfg, c, e, id);
    }
  }

  lemma {:induction false} Arrives(cfg: Config, c: Cluster, e: ClusterEvent, id: nat)
    requires Chronicle(c) && id !in c.peers
    requires id in ClusterStep(cfg, c, e).peers
    ensures InStep(ClusterStep(cfg, c, e), id) && InStep(c, id)
  {
    assert View([]) == [];
  }

  lemma {:induction false} NotYet(cfg: Config, es: seq<ClusterEvent>, id: nat)
    requires id !in ClusterRun(cfg, es).peers
    ensures InStepThroughout(cfg, es, id) && MatchingDeliveries(cfg, es, id)
    decreases |es|
  {
    if es != [] {
      var front, e := es[..|es| - 1], es[|es| - 1];
      InFlightAccounting(cfg, front);
      if id in ClusterRun(cfg, front).peers { PeerStays(cfg, ClusterRun(cfg, front), e, id); }
      NotYet(cfg, front, id);
    }
  }

  /** The exact condition for prefix consistency, reposts included: along any run, a worker that missed
      nothing since it subscribed has at every moment the manager's list after what it has replayed,
      less what the manager had when it subscribed, if and only if every message delivered to it was a
      matching one. */
  lemma {:induction false} PrefixBoundary(cfg: Config, es: seq<ClusterEvent>, id: nat)
    requires var c := ClusterRun(cfg, es); id in c.peers && !c.peers[id].missed
    ensures InStepThroughout(cfg, es, id) <==> MatchingDeliveries(cfg, es, id)
    decreases |es|
  {
    var front, e := es[..|es| - 1], es[|es| - 1];
    var c := ClusterRun(cfg, front);
    SyncedRun(cfg, front);
    ChronicleRun(cfg, front);
    InFlightAccounting(cfg, front);
    if id in c.peers {
      PeerStays(cfg, c, e, id);
      PrefixBoundary(cfg, front, id);
      if InStep(c, id) { InStepNext(cfg, c, e, id); }
    } else {
      Arrives(cfg, c, e, id);
      NotYet(cfg, front, id);
    }
  }

  // ---- the condition does fail

  lemma {:induction false} RunSnoc(cfg: Config, es: seq<ClusterEvent>, e: ClusterEvent, c: Cluster)
    requires c == ClusterRun(cfg, es)
    ensures ClusterRun(cfg, es + [e]) == ClusterStep(cfg, c, e)
  {
    assert (es + [e])[..|es|] == es;
  }

  lemma {:induction false} RunTwo(cfg: Config, es: seq<ClusterEvent>, a: ClusterEvent, b: ClusterEvent, c: Cluster)
    requires ClusterRun(cfg, es) == c
    ensures ClusterRun(cfg, es + [a] + [b]) == ClusterStep(cfg, ClusterStep(cfg, c, a), b)
  {
    RunSnoc(cfg, es, a, c);
    RunSnoc(cfg, es + [a], b, ClusterStep(cfg, c, a));
  }

  /** One subscriber, up to date with one posting, whose pool holds `v`. */
  function Holding(u: Url, v: BackendValue): Cluster {
    Cluster(Fleet([Fresh(Named(u))], map[], {}, []), [NewServer(u)], [[], [Entry(Named(u), Active)]],
            map[0 := 1], 1, map[0 := Peer([], 1, Pool([v], 0), 0, false)])
  }

  /** One subscriber and nothing else. */
  function Joined(): Cluster {
    Cluster(NONE, [], [[]], map[0 := 0], 1, map[0 := Peer([], 0, EMPTY, 0, false)])
  }

  lemma {:induction false} FirstPost(cfg: Config, u: Url)
    ensures ClusterStep(cfg, Joined(), Manage(Post(u))) ==
            Holding(u, Fresh(Named(u))).(peers := map[0 := Peer([NewServer(u)], 0, EMPTY, 0, false)])
  {
    var m, s, c := NewServer(u), Named(u), Joined();
    var d := Holding(u, Fresh(s)).(peers := map[0 := Peer([m], 0, EMPTY, 0, false)]);
    assert FleetStep(cfg, NONE, Post(u)) == d.fleet by { assert Fresh(s) !in NONE.backends; }
    assert View([Fresh(s)]) == [Entry(s, Active)];
    assert c.log + [m] == d.log && c.views + [[Entry(s, Active)]] == d.views;
    assert Receive(c.subscribers, 0, c.peers[0], m) == d.peers[0] by { assert [] + [m] == [m]; }
    assert Offer(c.subscribers) == d.subscribers;
    assert Publish(c.(fleet := d.fleet), m) == d;
  }

  lemma {:induction false} FirstDelivery(cfg: Config, u: Url, c: Cluster)
    requires c == Holding(u, Fresh(Named(u))).(peers := map[0 := Peer([NewServer(u)], 0, EMPTY, 0, false)])
    ensures ClusterStep(cfg, c, DeliverNext(0)) == Holding(u, Fresh(Named(u)))
  {
    assert c.peers[0].queue[1..] == [] && Apply(EMPTY, NewServer(u)) == Pool([Fresh(Named(u))], 0);
  }

  lemma {:induction false} PostAndDeliver(cfg: Config, u: Url) returns (es: seq<ClusterEvent>)
    ensures ClusterRun(cfg, es) == Holding(u, Fresh(Named(u)))
  {
    RunSnoc(cfg, [], Subscribe, START);
    RunTwo(cfg, [] + [Subscribe], Manage(Post(u)), DeliverNext(0), Joined());
    es := [] + [Subscribe] + [Manage(Post(u))] + [DeliverNext(0)];
    FirstPost(cfg, u);
    FirstDelivery(cfg, u, ClusterStep(cfg, Joined(), Manage(Post(u))));
  }

  lemma {:induction false} UseEntry(cfg: Config, u: Url)
    ensures var c := Holding(u, Fresh(Named(u)));
      ClusterStep(cfg, ClusterStep(cfg, c, TakeRequest(0)), EndRequest(0, 0, Response(200)))
      == Holding(u, BackendValue(Named(u), Active, Stats(0, 1)))
  {
    var v := Fresh(Named(u));
    var p := Pool([v], 0);
    assert Get(p).1 == p by { NextIsFirst([v], 0, 0); }
    assert ClusterStep(cfg, Holding(u, v), TakeRequest(0)) == Holding(u, v);
    assert CountAt([v], 0, Response(200)) == [BackendValue(Named(u), Active, Stats(0, 1))];
  }

  /** The worker after the second posting: two entries, where the manager has one. */
  function TwoEntries(u: Url): Cluster {
    var used := BackendValue(Named(u), Active, Stats(0, 1));
    Holding(u, used).(log := [NewServer(u), NewServer(u)],
                      views := [[], [Entry(Named(u), Active)], [Entry(Named(u), Active)]],
                      subscribers := map[0 := 2],
                      peers := map[0 := Peer([], 2, Pool([used, Fresh(Named(u))], 0), 0, false)])
  }

  lemma {:induction false} PostAgain(cfg: Config, u: Url)
    ensures var c := Holding(u, BackendValue(Named(u), Active, Stats(0, 1)));
      ClusterStep(cfg, ClusterStep(cfg, c, Manage(Post(u))), DeliverNext(0)) == TwoEntries(u)
  {
    var used := BackendValue(Named(u), Active, Stats(0, 1));
    var c, m := Holding(u, used), NewServer(u);
    var d := TwoEntries(u).(peers := map[0 := c.peers[0].(queue := [m])]);
    assert FleetStep(cfg, c.fleet, Post(u)) == c.fleet;
    assert View([Fresh(Named(u))]) == [Entry(Named(u), Active)];
    assert Receive(c.subscribers, 0, c.peers[0], m) == d.peers[0];
    assert c.log + [m] == d.log && c.views + [[Entry(Named(u), Active)]] == d.views;
    assert Publish(c, m) == d;
    assert ClusterStep(cfg, c, Manage(Post(u))) == d;
    assert [m][1..] == [] && Apply(Pool([used], 0), m) == Pool([used, Fresh(Named(u))], 0);
  }

  lemma {:induction false} AfterPosting(cfg: Config, u: Url, es: seq<ClusterEvent>) returns (more: seq<ClusterEvent>)
    requires ClusterRun(cfg, es) == Holding(u, Fresh(Named(u)))
    ensures ClusterRun(cfg, more) == TwoEntries(u)
  {
    RunTwo(cfg, es, TakeRequest(0), EndRequest(0, 0, Response(200)), Holding(u, Fresh(Named(u))));
    UseEntry(cfg, u);
    more := es + [TakeRequest(0)] + [EndRequest(0, 0, Response(200))];
    RunTwo(cfg, more, Manage(Post(u)), DeliverNext(0), Holding(u, BackendValue(Named(u), Active, Stats(0, 1))));
    PostAgain(cfg, u);
    more := more + [Manage(Post(u))] + [DeliverNext(0)];
  }

  /** A worker that took a request for a server before the server was posted again ends with a list
      that the manager never had. */
  lemma {:induction false} RepostDiverges(cfg: Config, u: Url) returns (es: seq<ClusterEvent>, c: Cluster)
    ensures c == ClusterRun(cfg, es)
    ensures c.peers.Keys == {0} && c.peers[0].joined == 0 && !c.peers[0].missed && c.peers[0].queue == []
    ensures forall k :: 0 <= k < |c.views| ==> View(c.peers[0].pool.backends) != c.views[k]
  {
    es := PostAndDeliver(cfg, u);
    es := AfterPosting(cfg, u, es);
    c := TwoEntries(u);
    forall k | 0 <= k < |c.views| ensures View(c.peers[0].pool.backends) != c.views[k] {
      assert |View(c.peers[0].pool.backends)| == 2 && |c.views[k]| <= 1;
    }
  }
}
