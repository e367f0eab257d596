/** How closely a worker's pool follows the manager's. */
module Replication {
  import opened Types
  import opened RoundRobin
  import opened PoolRuns
  import opened Worker
  import opened Fleet
  import opened Cluster

  // ---- replaying messages on plain lists

  function MarkView(v: seq<Entry>, s: Server, st: ServerState): (r: seq<Entry>)
    ensures |r| == |v|
    ensures forall i :: 0 <= i < |v| ==> r[i] == if v[i].server == s then v[i].(state := st) else v[i]
  {
    seq(|v|, i requires 0 <= i < |v| => if v[i].server == s then v[i].(state := st) else v[i])
  }

  function ApplyView(v: seq<Entry>, m: Message): seq<Entry> {
    match m
    case NewServer(u) => v + [Entry(Named(u), Active)]
    case ServerDown(u) => MarkView(v, Named(u), Down)
    case ServerActive(u) => MarkView(v, Named(u), Active)
  }

  /** The list that a sequence of messages describes. */
  function Replay(ms: seq<Message>): seq<Entry> {
    if ms == [] then [] else ApplyView(Replay(ms[..|ms| - 1]), ms[|ms| - 1])
  }

  lemma {:induction false} ReplaySnoc(ms: seq<Message>, m: Message)
    ensures Replay(ms + [m]) == ApplyView(Replay(ms), m)
  {
    assert (ms + [m])[..|ms|] == ms;
  }

  /** No URL is posted twice. */
  ghost predicate NoRepost(ms: seq<Message>) {
    forall i, j :: 0 <= i < j < |ms| && ms[i].NewServer? ==> ms[i] != ms[j]
  }

  ghost predicate ViewDistinct(v: seq<Entry>) {
    forall i, j :: 0 <= i < j < |v| ==> v[i].server != v[j].server
  }

  ghost predicate Posted(ms: seq<Message>, s: Server) {
    s.mapHost && NewServer(s.url) in ms
  }

  lemma {:induction false} PostedGrows(ms: seq<Message>, m: Message, s: Server)
    requires Posted(ms, s)
    ensures Posted(ms + [m], s)
  {
  }

  lemma {:induction false} ReplayIsPosted(ms: seq<Message>, i: nat)
    requires i < |Replay(ms)|
    ensures Posted(ms, Replay(ms)[i].server)
  {
    var front, m := ms[..|ms| - 1], ms[|ms| - 1];
    assert ms == front + [m];
    var before := Replay(front);
    assert Replay(ms) == ApplyView(before, m);
    if i < |before| {
      ReplayIsPosted(front, i);
      PostedGrows(front, m, before[i].server);
      assert Replay(ms)[i].server == before[i].server;
    } else {
      assert Replay(ms)[i].server == Named(m.url) && m in ms;
    }
  }

  lemma {:induction false} ReplayIsDistinct(ms: seq<Message>)
    requires NoRepost(ms)
    ensures ViewDistinct(Replay(ms))
  {
    if ms != [] {
      var front, m := ms[..|ms| - 1], ms[|ms| - 1];
      ReplayIsDistinct(front);
      if m.NewServer? {
        forall i | 0 <= i < |Replay(front)| ensures Replay(front)[i].server != Named(m.url) {
          ReplayIsPosted(front, i);
        }
      }
    }
  }

  /** A new server is absent from the list it is added to. */
  lemma {:induction false} NewIsAbsent(ms: seq<Message>, k: nat, b: seq<BackendValue>)
    requires NoRepost(ms) && k < |ms| && ms[k].NewServer? && View(b) == Replay(ms[..k])
    ensures Absent(b, Named(ms[k].url))
  {
    forall i | 0 <= i < |b| ensures b[i].server != Named(ms[k].url) {
      assert View(b)[i].server == b[i].server;
      ReplayIsPosted(ms[..k], i);
    }
  }

  lemma {:induction false} NoRepostSuffix(ms: seq<Message>, k: nat)
    requires NoRepost(ms) && k <= |ms|
    ensures NoRepost(ms[k..])
  {
    var rest := ms[k..];
    forall i, j | 0 <= i < j < |rest| && rest[i].NewServer? ensures rest[i] != rest[j] {
      assert ms[k + i] != ms[k + j];
    }
  }

  lemma {:induction false} NoRepostPrefix(ms: seq<Message>, k: nat)
    requires NoRepost(ms) && k <= |ms|
    ensures NoRepost(ms[..k])
  {
  }

  lemma {:induction false} ViewDistinctIsDistinct(b: seq<BackendValue>)
    requires ViewDistinct(View(b))
    ensures Distinct(b)
  {
    forall i, j | 0 <= i < j < |b| ensures b[i].server != b[j].server {
      assert View(b)[i].server != View(b)[j].server;
    }
  }

  /** Changing the state of one entry of a distinct list is marking its server. */
  lemma {:induction false} MarkOneIsMarkView(b: seq<BackendValue>, i: nat, st: ServerState)
    requires Distinct(b) && i < |b|
    ensures View(SetStateAt(b, i, st)) == MarkView(View(b), b[i].server, st)
  {
  }

  lemma {:induction false} MarkAbsent(b: seq<BackendValue>, s: Server, st: ServerState)
    requires Absent(b, s)
    ensures MarkView(View(b), s, st) == View(b)
  {
  }

  /** What a pool does with a message, seen without its counters and cursor. */
  lemma {:induction false} ApplyMatchesView(p: Pool, m: Message)
    requires Distinct(p.backends)
    requires m.NewServer? ==> Absent(p.backends, Named(m.url))
    ensures View(Apply(p, m).backends) == ApplyView(View(p.backends), m)
  {
    if m.NewServer? {
      assert Fresh(Named(m.url)) !in p.backends;
    } else {
      var st := if m.ServerDown? then Down else Active;
      var r := Find(p.backends, Named(m.url));
      if r.Some? {
        MarkOneIsMarkView(p.backends, r.value, st);
      } else {
        MarkAbsent(p.backends, Named(m.url), st);
      }
    }
  }

  /** Delivering the next message moves a pool that replayed `k` messages on to `k + 1`. */
  lemma {:induction false} ReplayAdvances(p: Pool, ms: seq<Message>, k: nat)
    requires NoRepost(ms) && k < |ms| && View(p.backends) == Replay(ms[..k])
    ensures View(Apply(p, ms[k]).backends) == Replay(ms[..k + 1])
  {
    NoRepostPrefix(ms, k);
    ReplayIsDistinct(ms[..k]);
    ViewDistinctIsDistinct(p.backends);
    if ms[k].NewServer? { NewIsAbsent(ms, k, p.backends); }
    ApplyMatchesView(p, ms[k]);
    assert ms[..k + 1] == ms[..k] + [ms[k]];
    ReplaySnoc(ms[..k], ms[k]);
  }

  lemma {:induction false} ReplayAdvancesSince(p: Pool, log: seq<Message>, j: nat, k: nat)
    requires j <= k < |log| && NoRepost(log[j..]) && View(p.backends) == Replay(log[j..k])
    ensures View(Apply(p, log[k]).backends) == Replay(log[j..k + 1])
  {
    var ms := log[j..];
    assert ms[..k - j] == log[j..k] && ms[..k - j + 1] == log[j..k + 1] && ms[k - j] == log[k];
    ReplayAdvances(p, ms, k - j);
  }

  /** Marks change entries where they are and postings append, so replaying only the later messages
      gives the end of the whole list, with the same states. */
  lemma {:induction false} ReplaySplit(a: seq<Message>, b: seq<Message>)
    ensures |Replay(a)| <= |Replay(a + b)|
    ensures Replay(b) == Replay(a + b)[|Replay(a)|..]
    decreases |b|
  {
    if b == [] {
      assert a + b == a;
    } else {
      var front, m := b[..|b| - 1], b[|b| - 1];
      ReplaySplit(a, front);
      var n := |Replay(a)|;
      ReplayBothSnoc(a + front, front, n, m);
      assert a + front + [m] == a + b && front + [m] == b;
    }
  }

  lemma {:induction false} ReplayBothSnoc(all: seq<Message>, later: seq<Message>, n: nat, m: Message)
    requires n <= |Replay(all)| && Replay(later) == Replay(all)[n..]
    ensures n <= |Replay(all + [m])| && Replay(later + [m]) == Replay(all + [m])[n..]
  {
    ReplaySnoc(all, m);
    ReplaySnoc(later, m);
    ApplyToEnd(Replay(all), n, m);
  }

  lemma {:induction false} ApplyToEnd(v: seq<Entry>, n: nat, m: Message)
    requires n <= |v|
    ensures |v| <= |ApplyView(v, m)| && ApplyView(v[n..], m) == ApplyView(v, m)[n..]
  {
  }

  // ---- the invariant

  /** How much of the log a subscriber's worker has replayed. */
  function Replayed(log: seq<Message>, p: Peer): int { |log| - |p.queue| }

  /** What is still queued for a subscriber that missed nothing is the end of the log. */
  ghost predicate QueueIsSuffix(log: seq<Message>, p: Peer) {
    !p.missed ==> p.joined <= Replayed(log, p) && p.queue == log[Replayed(log, p)..]
  }

  /** Its worker's list is what was published between its joining and what is still queued. */
  ghost predicate PoolIsReplay(log: seq<Message>, p: Peer) {
    !p.missed && p.joined <= Replayed(log, p) ==>
      View(p.pool.backends) == Replay(log[p.joined..Replayed(log, p)])
  }

  lemma {:induction false} PostReplays(b: seq<BackendValue>, u: Url, log: seq<Message>)
    requires View(b) == Replay(log) && NoRepost(log + [NewServer(u)])
    ensures View(Add(Pool(b, 0), Named(u)).0.backends) == Replay(log + [NewServer(u)])
  {
    var ms := log + [NewServer(u)];
    assert ms[..|log|] == log && ms[..|log| + 1] == ms;
    ReplayAdvances(Pool(b, 0), ms, |log|);
  }

  lemma {:induction false} MarkReplays(b: seq<BackendValue>, i: nat, st: ServerState, log: seq<Message>)
    requires View(b) == Replay(log) && NoRepost(log) && i < |b|
    ensures View(SetStateAt(b, i, st)) == Replay(log + [MarkMessage(b[i].server.url, st)])
  {
    ReplayIsDistinct(log);
    ViewDistinctIsDistinct(b);
    assert View(b)[i].server == b[i].server;
    ReplayIsPosted(log, i);
    MarkOneIsMarkView(b, i, st);
    ReplaySnoc(log, MarkMessage(b[i].server.url, st));
  }

  /** The manager's own list follows its log. */
  lemma {:induction false} ManagerReplays(cfg: Config, f: Fleet, e: FleetEvent, log: seq<Message>)
    requires View(f.backends) == Replay(log)
    ensures var g := FleetStep(cfg, f, e);
      match Announcement(f, e, g)
      case Some(m) => NoRepost(log + [m]) ==> View(g.backends) == Replay(log + [m])
      case None => g.backends == f.backends
  {
    var g := FleetStep(cfg, f, e);
    StepMarks(cfg, f, e);
    match Announcement(f, e, g)
    case None =>
    case Some(m) =>
      if NoRepost(log + [m]) {
        if e.Post? {
          PostReplays(f.backends, e.url, log);
        } else {
          NoRepostPrefix(log + [m], |log|);
          assert (log + [m])[..|log|] == log;
          var mark := g.marks[|g.marks| - 1];
          MarkReplays(f.backends, mark.index, mark.state, log);
        }
      }
  }

  lemma {:induction false} PublishSuffix(log: seq<Message>, m: Message, subs: map<nat, int>, id: nat, p: Peer)
    requires p.joined <= |log| && QueueIsSuffix(log, p)
    ensures QueueIsSuffix(log + [m], Receive(subs, id, p, m))
    ensures PoolIsReplay(log, p) ==> PoolIsReplay(log + [m], Receive(subs, id, p, m))
  {
    var q := Receive(subs, id, p, m);
    if !q.missed {
      var k := Replayed(log, p);
      assert (log + [m])[k..] == log[k..] + [m] && (log + [m])[p.joined..k] == log[p.joined..k];
    }
  }

  ghost predicate PeerSynced(log: seq<Message>, p: Peer) {
    p.joined <= |log| && QueueIsSuffix(log, p) && (NoRepost(log[p.joined..]) ==> PoolIsReplay(log, p))
  }

  ghost predicate PeersSynced(log: seq<Message>, peers: map<nat, Peer>) {
    forall id :: id in peers ==> PeerSynced(log, peers[id])
  }

  ghost predicate ViewsSynced(log: seq<Message>, views: seq<seq<Entry>>) {
    |views| == |log| + 1 && (NoRepost(log) ==> forall k :: 0 <= k <= |log| ==> views[k] == Replay(log[..k]))
  }

  ghost predicate Synced(c: Cluster) {
    && ViewsSynced(c.log, c.views)
    && c.views[|c.log|] == View(c.fleet.backends)
    && PeersSynced(c.log, c.peers)
  }

  lemma {:induction false} ViewsSplit(log: seq<Message>, views: seq<seq<Entry>>, j: nat, k: nat)
    requires ViewsSynced(log, views) && NoRepost(log) && j <= k <= |log|
    ensures views[0] == [] && |views[j]| <= |views[k]| && Replay(log[j..k]) == views[k][|views[j]|..]
  {
    assert log[..0] == [];
    assert log[..k] == log[..j] + log[j..k];
    ReplaySplit(log[..j], log[j..k]);
  }

  lemma {:induction false} PublishPeerSynced(log: seq<Message>, m: Message, subs: map<nat, int>, id: nat, p: Peer)
    requires PeerSynced(log, p)
    ensures PeerSynced(log + [m], Receive(subs, id, p, m))
  {
    var all, j := log + [m], p.joined;
    PublishSuffix(log, m, subs, id, p);
    assert all[j..][..|log| - j] == log[j..];
    if NoRepost(all[j..]) { NoRepostPrefix(all[j..], |log| - j); }
  }

  lemma {:induction false} PublishPeersSynced(c: Cluster, m: Message)
    requires PeersSynced(c.log, c.peers)
    ensures PeersSynced(c.log + [m], Publish(c, m).peers)
  {
    var log, peers := c.log + [m], Publish(c, m).peers;
    forall id | id in peers ensures PeerSynced(log, peers[id]) {
      PublishPeerSynced(c.log, m, c.subscribers, id, c.peers[id]);
    }
  }

  lemma {:induction false} PublishViewsSynced(log: seq<Message>, views: seq<seq<Entry>>, m: Message, v: seq<Entry>)
    requires ViewsSynced(log, views) && (NoRepost(log + [m]) ==> v == Replay(log + [m]))
    ensures ViewsSynced(log + [m], views + [v])
  {
    var all := log + [m];
    if NoRepost(all) {
      NoRepostPrefix(all, |log|);
      assert all[..|log|] == log && all[..|all|] == all;
      forall k | 0 <= k <= |all| ensures (views + [v])[k] == Replay(all[..k]) {
        if k < |all| { assert all[..k] == log[..k]; }
      }
    }
  }

  lemma {:induction false} AnnouncedReplays(cfg: Config, f: Fleet, e: FleetEvent, m: Message, log: seq<Message>,
                                            views: seq<seq<Entry>>)
    requires ViewsSynced(log, views) && views[|log|] == View(f.backends)
    requires Announcement(f, e, FleetStep(cfg, f, e)) == Some(m) && NoRepost(log + [m])
    ensures View(FleetStep(cfg, f, e).backends) == Replay(log + [m])
  {
    NoRepostPrefix(log + [m], |log|);
    assert (log + [m])[..|log|] == log && log[..|log|] == log;
    ManagerReplays(cfg, f, e, log);
  }

  lemma {:induction false} ManageSynced(cfg: Config, c: Cluster, e: FleetEvent)
    requires Synced(c)
    ensures Synced(ManageStep(cfg, c, e))
  {
    var g := FleetStep(cfg, c.fleet, e);
    var a := Announcement(c.fleet, e, g);
    if a.Some? {
      var m := a.value;
      if NoRepost(c.log + [m]) { AnnouncedReplays(cfg, c.fleet, e, m, c.log, c.views); }
      PublishViewsSynced(c.log, c.views, m, View(g.backends));
      PublishPeersSynced(c.(fleet := g), m);
    } else {
      StepMarks(cfg, c.fleet, e);
    }
  }

  lemma {:induction false} DeliverSynced(log: seq<Message>, p: Peer)
    requires p.queue != [] && PeerSynced(log, p)
    ensures PeerSynced(log, Delivered(p))
  {
    if !p.missed {
      var k := Replayed(log, p);
      assert p.queue[0] == log[k] && p.queue[1..] == log[k + 1..];
      if NoRepost(log[p.joined..]) { ReplayAdvancesSince(p.pool, log, p.joined, k); }
    }
  }

  /** Serving requests touches the cursor and the counters, which the list does not show. */
  lemma {:induction false} RequestsLeaveView(p: Pool, e: WorkerEvent)
    requires !e.Deliver?
    ensures View(WorkerStep(p, e).backends) == View(p.backends)
  {
  }

  /** The invariant does not look at the counters, and holds of a cluster peer by peer. */
  lemma {:induction false} SetPeerSynced(c: Cluster, id: nat, p: Peer, subs: map<nat, int>)
    requires Synced(c) && PeerSynced(c.log, p)
    ensures Synced(SetPeer(c.(subscribers := subs), id, p))
  {
  }

  lemma {:induction false} SubscribeSynced(cfg: Config, c: Cluster)
    requires Synced(c)
    ensures Synced(ClusterStep(cfg, c, Subscribe))
  {
    var p := Peer([], 0, EMPTY, |c.log|, false);
    assert c.log[|c.log|..] == [] && View([]) == [];
    SetPeerSynced(c, c.nextId, p, c.subscribers);
  }

  lemma {:induction false} RequestSynced(log: seq<Message>, p: Peer, e: WorkerEvent)
    requires PeerSynced(log, p) && !e.Deliver?
    ensures PeerSynced(log, p.(pool := WorkerStep(p.pool, e)))
  {
    RequestsLeaveView(p.pool, e);
  }

  lemma {:induction false} PeerStepSynced(cfg: Config, c: Cluster, e: ClusterEvent)
    requires Possible(c, e) && !e.Manage? && !e.Subscribe? && !e.Unsubscribe?
    requires e.id in c.peers && PeerSynced(c.log, c.peers[e.id])
    ensures e.id in ClusterStep(cfg, c, e).peers && PeerSynced(c.log, ClusterStep(cfg, c, e).peers[e.id])
  {
    var p := c.peers[e.id];
    if e.DeliverNext? {
      DeliverSynced(c.log, p);
    } else if e.TakeRequest? {
      RequestSynced(c.log, p, Serve);
    } else if e.EndRequest? {
      RequestSynced(c.log, p, Settle(e.index, e.outcome));
    }
  }

  lemma {:induction false} SyncedStep(cfg: Config, c: Cluster, e: ClusterEvent)
    requires Synced(c)
    ensures Synced(ClusterStep(cfg, c, e))
  {
    if e.Manage? {
      ManageSynced(cfg, c, e.event);
    } else if e.Subscribe? {
      SubscribeSynced(cfg, c);
    } else if Possible(c, e) && !e.Unsubscribe? {
      PeerStepSynced(cfg, c, e);
      var d := ClusterStep(cfg, c, e);
      SetPeerSynced(c, e.id, d.peers[e.id], d.subscribers);
    }
  }

  lemma {:induction false} SyncedRun(cfg: Config, es: seq<ClusterEvent>)
    ensures Synced(ClusterRun(cfg, es))
  {
    if es != [] {
      SyncedRun(cfg, es[..|es| - 1]);
      SyncedStep(cfg, ClusterRun(cfg, es[..|es| - 1]), es[|es| - 1]);
    } else {
      assert START.log[..0] == [];
    }
  }

  /** In every interleaving in which no URL is posted twice, a worker that missed no publication since
      it subscribed holds exactly the manager's ordered list of servers and states as it stood after a
      prefix of the log, namely all but what is still queued for it, less the entries that the manager
      had when the worker subscribed: no snapshot, and nothing else lost.  For a worker that subscribed
      first, with an empty queue, the two lists are equal. */
  lemma {:induction false} PrefixConsistency(cfg: Config, es: seq<ClusterEvent>, id: nat)
    requires var c := ClusterRun(cfg, es);
      id in c.peers && !c.peers[id].missed && NoRepost(c.log)
    ensures var c := ClusterRun(cfg, es);
      var p := c.peers[id];
      && |c.views| == |c.log| + 1 && c.views[0] == [] && c.views[|c.log|] == View(c.fleet.backends)
      && p.joined <= Replayed(c.log, p) <= |c.log|
      && |c.views[p.joined]| <= |c.views[Replayed(c.log, p)]|
      && View(p.pool.backends) == c.views[Replayed(c.log, p)][|c.views[p.joined]|..]
      && (p.joined == 0 && p.queue == [] ==> View(p.pool.backends) == View(c.fleet.backends))
  {
    SyncedRun(cfg, es);
    var c := ClusterRun(cfg, es);
    NoRepostSuffix(c.log, c.peers[id].joined);
    ViewsSplit(c.log, c.views, c.peers[id].joined, Replayed(c.log, c.peers[id]));
  }

  // ---- no snapshot for latecomers

  /** Everything a peer holds or is owed was published after it subscribed. */
  ghost predicate OnlySinceJoining(log: seq<Message>, p: Peer) {
    && p.joined <= |log|
    && (forall i :: 0 <= i < |p.queue| ==> p.queue[i] in log[p.joined..])
    && (forall i :: 0 <= i < |p.pool.backends| ==> Posted(log[p.joined..], p.pool.backends[i].server))
  }

  lemma {:induction false} LongerLog(log: seq<Message>, m: Message, subs: map<nat, int>, id: nat, p: Peer)
    requires OnlySinceJoining(log, p)
    ensures OnlySinceJoining(log + [m], Receive(subs, id, p, m))
  {
    assert (log + [m])[p.joined..] == log[p.joined..] + [m];
  }

  lemma {:induction false} OnlySincePublish(c: Cluster, m: Message)
    requires forall id :: id in c.peers ==> OnlySinceJoining(c.log, c.peers[id])
    ensures forall id :: id in Publish(c, m).peers ==> OnlySinceJoining(c.log + [m], Publish(c, m).peers[id])
  {
    forall id | id in c.peers ensures OnlySinceJoining(c.log + [m], Receive(c.subscribers, id, c.peers[id], m)) {
      LongerLog(c.log, m, c.subscribers, id, c.peers[id]);
    }
  }

  lemma {:induction false} OnlySinceDelivery(log: seq<Message>, p: Peer)
    requires OnlySinceJoining(log, p) && p.queue != []
    ensures OnlySinceJoining(log, Delivered(p))
  {
    assert p.queue[0] in log[p.joined..];
  }

  lemma {:induction false} OnlySinceStep(cfg: Config, c: Cluster, e: ClusterEvent)
    requires forall id :: id in c.peers ==> OnlySinceJoining(c.log, c.peers[id])
    ensures forall id :: id in ClusterStep(cfg, c, e).peers ==>
              OnlySinceJoining(ClusterStep(cfg, c, e).log, ClusterStep(cfg, c, e).peers[id])
  {
    if e.Manage? {
      var g := FleetStep(cfg, c.fleet, e.event);
      var a := Announcement(c.fleet, e.event, g);
      if a.Some? { OnlySincePublish(c.(fleet := g), a.value); }
    } else if e.DeliverNext? && Possible(c, e) {
      OnlySinceDelivery(c.log, c.peers[e.id]);
    }
  }

  /** A subscriber gets no snapshot: in every run, every server in its worker's pool was posted
      after it subscribed. */
  lemma {:induction false} NoSnapshot(cfg: Config, es: seq<ClusterEvent>, id: nat)
    requires id in ClusterRun(cfg, es).peers
    ensures OnlySinceJoining(ClusterRun(cfg, es).log, ClusterRun(cfg, es).peers[id])
  {
    if es != [] {
      var front := es[..|es| - 1];
      forall x | x in ClusterRun(cfg, front).peers
        ensures OnlySinceJoining(ClusterRun(cfg, front).log, ClusterRun(cfg, front).peers[x])
      {
        NoSnapshot(cfg, front, x);
      }
      OnlySinceStep(cfg, ClusterRun(cfg, front), es[|es| - 1]);
    }
  }
}
