/** Which postings open the way for a worker's list to depart from the manager's. */
module Reposts {
  import opened Types
  import opened RoundRobin
  import opened PoolRuns
  import opened Worker
  import opened Fleet
  import opened Cluster
  import opened Replication
  import opened Divergence
  import opened Deliveries
  import opened Exchanges
  import opened EndToEnd

  // ---- a posting of a server that the worker has

  ghost predicate DownFrom(b: seq<BackendValue>, s: Server, k: nat) {
    forall i :: 0 <= i < k && i < |b| && b[i].server == s ==> b[i].IsDown()
  }

  /** All of the manager's backends for the server are taken down, unless the worker falls out of step
      over that already. */
  lemma {:induction false} SilenceAll(cfg: Config, es: seq<ClusterEvent>, c: Cluster, id: nat, n: nat, u: Url, k: nat)
    returns (all: seq<ClusterEvent>, d: Cluster)
    requires c == ClusterRun(cfg, es) && Ready(c, id) && InStep(c, id) && Behind(c, id, n)
    requires !Absent(c.peers[id].pool.backends, Named(u))
    requires k <= |c.fleet.backends| && DownFrom(c.fleet.backends, Named(u), k)
    ensures GoesOn(es, all, []) && d == ClusterRun(cfg, all) && Ready(d, id) && Behind(d, id, n)
    ensures !Absent(d.peers[id].pool.backends, Named(u))
    ensures InStep(d, id) ==> AllDown(d.fleet.backends, Named(u))
    decreases |c.fleet.backends| - k
  {
    if k == |c.fleet.backends| {
      all, d := es, c;
    } else if c.fleet.backends[k].server == Named(u) && c.fleet.backends[k].IsActive() {
      var more, f := Flip(cfg, es, c, k, id, n);
      ReplayHolds(c.peers[id].pool, ServerDown(u), u);
      all, d := more, f;
      if InStep(f, id) {
        all, d := SilenceAll(cfg, more, f, id, n, u, k + 1);
        GoesOnTwice(es, more, all, [], []);
      }
    } else {
      all, d := SilenceAll(cfg, es, c, id, n, u, k + 1);
    }
  }

  lemma {:induction false} PostAdds(cfg: Config, f: Fleet, u: Url)
    requires Plain(f.backends) && AllDown(f.backends, Named(u))
    ensures FleetStep(cfg, f, Post(u)).backends == f.backends + [Fresh(Named(u))]
    ensures Announcement(f, Post(u), FleetStep(cfg, f, Post(u))) == Some(NewServer(u))
  {
    assert Fresh(Named(u)) !in f.backends;
  }

  /** With every entry down, both take the posting. */
  lemma {:induction false} BothTake(p: Pool, b: seq<BackendValue>, u: Url, n: nat)
    requires n <= |b| && View(p.backends) == View(b)[n..] && AllDown(b, Named(u))
    ensures Matches(p, NewServer(u), View(b), View(b + [Fresh(Named(u))]), n)
  {
    var w := p.backends;
    forall i | 0 <= i < |w| && w[i].server == Named(u) ensures w[i].IsDown() {
      assert View(w)[i] == View(b)[n + i];
      assert View(w)[i].server == b[n + i].server;
    }
    forall i | 0 <= i < |b| ensures View(b)[i] != Entry(Named(u), Active) {
      assert View(b)[i] == Entry(b[i].server, b[i].state);
    }
  }

  /** The mark for the newest entry of the server reaches an older one in the worker. */
  lemma {:induction false} OlderIsMarked(p: Pool, a: seq<BackendValue>, u: Url, n: nat)
    requires n <= |a| && View(p.backends) == View(a + [Fresh(Named(u))])[n..]
    requires exists i :: n <= i < |a| && a[i].server == Named(u)
    ensures var b := a + [Fresh(Named(u))];
      !Matches(p, ServerDown(u), View(b), View(SetStateAt(b, |a|, Down)), n)
  {
    var b, s := a + [Fresh(Named(u))], Named(u);
    var v, w := View(b)[n..], View(SetStateAt(b, |a|, Down))[n..];
    var k :| n <= k < |a| && a[k].server == s;
    assert v[k - n].server == s;
    assert v[|a| - n] != w[|a| - n];
    assert forall i :: 0 <= i < |a| - n ==> v[i] == w[i];
  }

  lemma {:induction false} HeldByManager(w: seq<BackendValue>, b: seq<BackendValue>, s: Server, n: nat)
    requires n <= |b| && View(w) == View(b)[n..] && !Absent(w, s)
    ensures exists i :: n <= i < |b| && b[i].server == s
  {
    var i :| 0 <= i < |w| && w[i].server == s;
    assert |View(w)| == |w| && View(w)[i] == View(b)[n + i];
    assert b[n + i].server == s;
  }

  /** A posting while all entries are down is taken by both. */
  lemma {:induction false} PostTaken(cfg: Config, es: seq<ClusterEvent>, c: Cluster, id: nat, n: nat, u: Url)
    returns (all: seq<ClusterEvent>, d: Cluster)
    requires c == ClusterRun(cfg, es) && Ready(c, id) && InStep(c, id) && Behind(c, id, n)
    requires AllDown(c.fleet.backends, Named(u))
    ensures GoesOn(es, all, [u]) && d == ClusterRun(cfg, all)
    ensures Ready(d, id) && InStep(d, id) && Behind(d, id, n)
    ensures n <= |c.fleet.backends| && View(c.peers[id].pool.backends) == View(c.fleet.backends)[n..]
    ensures d.fleet.backends == c.fleet.backends + [Fresh(Named(u))]
  {
    Guaranteed(cfg, es);
    InStepNow(c, id, n);
    PostAdds(cfg, c.fleet, u);
    BothTake(c.peers[id].pool, c.fleet.backends, u, n);
    all, d := Exchange(cfg, es, c, Post(u), NewServer(u), id, n);
  }

  /** A posting while all entries are down, and then the new entry goes down. */
  lemma {:induction false} PostAndFlip(cfg: Config, es: seq<ClusterEvent>, c: Cluster, id: nat, n: nat, u: Url)
    returns (all: seq<ClusterEvent>, d: Cluster)
    requires c == ClusterRun(cfg, es) && Ready(c, id) && InStep(c, id) && Behind(c, id, n)
    requires !Absent(c.peers[id].pool.backends, Named(u)) && AllDown(c.fleet.backends, Named(u))
    ensures GoesOn(es, all, [u]) && d == ClusterRun(cfg, all) && Ready(d, id) && !InStep(d, id)
  {
    var a := c.fleet.backends;
    var posted, f := PostTaken(cfg, es, c, id, n, u);
    HeldByManager(c.peers[id].pool.backends, a, Named(u), n);
    Guaranteed(cfg, posted);
    InStepNow(f, id, n);
    OlderIsMarked(f.peers[id].pool, a, u, n);
    all, d := Flip(cfg, posted, f, |a|, id, n);
    GoesOnTwice(es, posted, all, [u], []);
  }

  /** Every worker without losses that is still subscribed and has an entry for a server falls out of
      step in some continuation without losses that posts nothing but that server, and that at most
      once. */
  lemma {:induction false} OnePostDiverges(cfg: Config, es: seq<ClusterEvent>, id: nat, u: Url)
    returns (all: seq<ClusterEvent>)
    requires var c := ClusterRun(cfg, es);
      && id in c.subscribers && id in c.peers && !c.peers[id].missed
      && !Absent(c.peers[id].pool.backends, Named(u))
    ensures GoesOn(es, all, []) || GoesOn(es, all, [u])
    ensures var d := ClusterRun(cfg, all); id in d.peers && !d.peers[id].missed && !InStep(d, id)
  {
    all := Drain(cfg, es, id, u);
    var c := ClusterRun(cfg, all);
    Guaranteed(cfg, all);
    if InStep(c, id) {
      var n := |c.views[c.peers[id].joined]|;
      var silent, d := SilenceAll(cfg, all, c, id, n, u, 0);
      GoesOnTwice(es, all, silent, [], []);
      all := silent;
      if InStep(d, id) {
        var last, f := PostAndFlip(cfg, silent, d, id, n, u);
        GoesOnTwice(es, silent, last, [], [u]);
        all := last;
      }
    }
  }

  // ---- what was posted

  function PostedIn(log: seq<Message>): seq<Url> {
    if log == [] then []
    else
      var m := log[|log| - 1];
      PostedIn(log[..|log| - 1]) + if m.NewServer? then [m.url] else []
  }

  lemma {:induction false} PostedInSnoc(log: seq<Message>, m: Message)
    ensures PostedIn(log + [m]) == PostedIn(log) + if m.NewServer? then [m.url] else []
  {
    assert (log + [m])[..|log|] == log;
  }

  lemma {:induction false} PostIsLogged(cfg: Config, c: Cluster, e: ClusterEvent)
    ensures PostedIn(ClusterStep(cfg, c, e).log) ==
            PostedIn(c.log) + if e.Manage? && e.event.Post? then [e.event.url] else []
  {
    if e.Manage? {
      var a := Announcement(c.fleet, e.event, FleetStep(cfg, c.fleet, e.event));
      if a.Some? { PostedInSnoc(c.log, a.value); }
    }
  }

  /** Every posting is published, and nothing else is published as one. */
  lemma {:induction false} PostsAreLogged(cfg: Config, es: seq<ClusterEvent>)
    ensures PostedIn(ClusterRun(cfg, es).log) == Posts(es)
  {
    if es != [] {
      PostsAreLogged(cfg, es[..|es| - 1]);
      PostIsLogged(cfg, ClusterRun(cfg, es[..|es| - 1]), es[|es| - 1]);
    }
  }

  ghost predicate Once(us: seq<Url>) {
    forall i, j :: 0 <= i < j < |us| ==> us[i] != us[j]
  }

  lemma {:induction false} PostedIff(log: seq<Message>, u: Url)
    ensures NewServer(u) in log <==> u in PostedIn(log)
  {
    if log != [] {
      PostedIff(log[..|log| - 1], u);
      assert log == log[..|log| - 1] + [log[|log| - 1]];
    }
  }

  lemma {:induction false} NoRepostSnoc(log: seq<Message>, m: Message)
    ensures NoRepost(log + [m]) <==> NoRepost(log) && (m.NewServer? ==> m !in log)
  {
    var all := log + [m];
    if NoRepost(all) {
      NoRepostPrefix(all, |log|);
      assert all[..|log|] == log;
      forall i | 0 <= i < |log| && m.NewServer? ensures log[i] != m {
        assert all[i] != all[|log|];
      }
    }
  }

  lemma {:induction false} NoRepostIff(log: seq<Message>)
    ensures NoRepost(log) <==> Once(PostedIn(log))
  {
    if log != [] {
      var front, m := log[..|log| - 1], log[|log| - 1];
      assert log == front + [m];
      NoRepostIff(front);
      NoRepostSnoc(front, m);
      PostedInSnoc(front, m);
      if m.NewServer? {
        var us := PostedIn(front);
        assert m == NewServer(m.url) && PostedIn(log) == us + [m.url];
        PostedIff(front, m.url);
        OnceSnoc(us, m.url);
      } else {
        assert PostedIn(log) == PostedIn(front);
      }
    }
  }

  lemma {:induction false} OnceSnoc(us: seq<Url>, u: Url)
    ensures Once(us + [u]) <==> Once(us) && u !in us
  {
    var all := us + [u];
    if Once(all) {
      forall i, j | 0 <= i < j < |us| ensures us[i] != us[j] {
        assert all[i] != all[j];
      }
      forall i | 0 <= i < |us| ensures us[i] != u {
        assert all[i] != all[|us|];
      }
    }
  }

  /** After one more posting there is still no repeated one exactly when that server is new. */
  lemma {:induction false} NoRepostAfter(cfg: Config, es: seq<ClusterEvent>, all: seq<ClusterEvent>, u: Url)
    requires NoRepost(ClusterRun(cfg, es).log)
    ensures GoesOn(es, all, []) ==> NoRepost(ClusterRun(cfg, all).log)
    ensures GoesOn(es, all, [u]) ==>
              (NoRepost(ClusterRun(cfg, all).log) <==> NewServer(u) !in ClusterRun(cfg, es).log)
  {
    var l, k := ClusterRun(cfg, es).log, ClusterRun(cfg, all).log;
    PostsAreLogged(cfg, es);
    PostsAreLogged(cfg, all);
    NoRepostIff(l);
    NoRepostIff(k);
    PostedIff(l, u);
    OnceSnoc(PostedIn(l), u);
    assert GoesOn(es, all, []) ==> PostedIn(k) == PostedIn(l);
  }

  lemma {:induction false} ReplayHasPosted(ms: seq<Message>, u: Url)
    requires NewServer(u) in ms
    ensures exists i :: 0 <= i < |Replay(ms)| && Replay(ms)[i].server == Named(u)
  {
    var front, m := ms[..|ms| - 1], ms[|ms| - 1];
    assert ms == front + [m];
    var v := Replay(front);
    if m == NewServer(u) {
      assert Replay(ms)[|v|].server == Named(u);
    } else {
      ReplayHasPosted(front, u);
      var i :| 0 <= i < |v| && v[i].server == Named(u);
      assert Replay(ms)[i].server == Named(u);
    }
  }

  // ---- the exact condition, where nothing was posted twice so far

  /** A continuation without losses that posts at most `u`, once, and ends out of step. */
  ghost predicate Diverges(cfg: Config, es: seq<ClusterEvent>, all: seq<ClusterEvent>, id: nat, u: Url) {
    && (GoesOn(es, all, []) || GoesOn(es, all, [u]))
    && var d := ClusterRun(cfg, all); id in d.peers && !d.peers[id].missed && !InStep(d, id)
  }

  ghost predicate PostedSince(c: Cluster, id: nat, u: Url)
    requires id in c.peers
  {
    exists k :: c.peers[id].joined <= k < |c.log| && c.log[k] == NewServer(u)
  }

  ghost predicate PostedBefore(c: Cluster, id: nat, u: Url)
    requires id in c.peers
  {
    exists k :: 0 <= k < c.peers[id].joined && k < |c.log| && c.log[k] == NewServer(u)
  }

  /** Without repeated posts a worker without losses is in step. */
  lemma {:induction false} InStepUnrepeated(cfg: Config, es: seq<ClusterEvent>, id: nat)
    requires var c := ClusterRun(cfg, es); id in c.peers && !c.peers[id].missed && NoRepost(c.log)
    ensures InStep(ClusterRun(cfg, es), id)
  {
    PrefixConsistency(cfg, es, id);
  }

  lemma {:induction false} ViewHasPosted(b: seq<BackendValue>, ms: seq<Message>, u: Url)
    requires View(b) == Replay(ms) && NewServer(u) in ms
    ensures !Absent(b, Named(u))
  {
    ReplayHasPosted(ms, u);
    var i :| 0 <= i < |View(b)| && View(b)[i].server == Named(u);
    assert b[i].server == Named(u);
  }

  /** A worker that has caught up has what was posted since it joined. */
  lemma {:induction false} PeerHasPosted(log: seq<Message>, p: Peer, k: nat, u: Url)
    requires PeerSynced(log, p) && !p.missed && p.queue == [] && NoRepost(log)
    requires p.joined <= k < |log| && log[k] == NewServer(u)
    ensures !Absent(p.pool.backends, Named(u))
  {
    var since := log[p.joined..];
    NoRepostSuffix(log, p.joined);
    assert log[p.joined..Replayed(log, p)] == since;
    assert since[k - p.joined] == NewServer(u);
    ViewHasPosted(p.pool.backends, since, u);
  }

  lemma {:induction false} HasPosted(cfg: Config, es: seq<ClusterEvent>, c: Cluster, id: nat, u: Url)
    requires c == ClusterRun(cfg, es) && Ready(c, id) && NoRepost(c.log) && PostedSince(c, id, u)
    ensures !Absent(c.peers[id].pool.backends, Named(u))
  {
    SyncedRun(cfg, es);
    var k :| c.peers[id].joined <= k < |c.log| && c.log[k] == NewServer(u);
    PeerHasPosted(c.log, c.peers[id], k, u);
  }

  lemma {:induction false} PostedSinceDiverges(cfg: Config, es: seq<ClusterEvent>, id: nat, u: Url)
    returns (all: seq<ClusterEvent>)
    requires var c := ClusterRun(cfg, es);
      && id in c.subscribers && id in c.peers && !c.peers[id].missed && NoRepost(c.log) && PostedSince(c, id, u)
    ensures Diverges(cfg, es, all, id, u)
  {
    var drained := Drain(cfg, es, id, u);
    HasPosted(cfg, drained, ClusterRun(cfg, drained), id, u);
    all := OnePostDiverges(cfg, drained, id, u);
    if GoesOn(drained, all, []) { GoesOnTwice(es, drained, all, [], []); }
    if GoesOn(drained, all, [u]) { GoesOnTwice(es, drained, all, [], [u]); }
  }

  /** What was posted is at the manager. */
  lemma {:induction false} ManagerHasPosted(cfg: Config, es: seq<ClusterEvent>, c: Cluster, u: Url) returns (i: nat)
    requires c == ClusterRun(cfg, es) && NoRepost(c.log) && NewServer(u) in c.log
    ensures i < |c.fleet.backends| && c.fleet.backends[i].server == Named(u)
  {
    SyncedRun(cfg, es);
    assert c.log[..|c.log|] == c.log;
    ViewHasPosted(c.fleet.backends, c.log, u);
    i :| 0 <= i < |c.fleet.backends| && c.fleet.backends[i].server == Named(u);
  }

  lemma {:induction false} NotIn(log: seq<Message>, j: nat, u: Url)
    requires j <= |log| && forall k :: j <= k < |log| ==> log[k] != NewServer(u)
    ensures NewServer(u) !in log[j..]
  {
  }

  /** What was posted only before the worker joined is not in the worker. */
  lemma {:induction false} LacksPosted(cfg: Config, es: seq<ClusterEvent>, c: Cluster, id: nat, u: Url)
    requires c == ClusterRun(cfg, es) && id in c.peers && !PostedSince(c, id, u)
    ensures Absent(c.peers[id].pool.backends, Named(u))
  {
    NoSnapshot(cfg, es, id);
    var p := c.peers[id];
    NotIn(c.log, p.joined, u);
    forall i | 0 <= i < |p.pool.backends| ensures p.pool.backends[i].server != Named(u) {
      assert Posted(c.log[p.joined..], p.pool.backends[i].server);
    }
  }

  /** The manager refuses the posting, and the worker, which lacks the server, takes it. */
  lemma {:induction false} OnlyWorkerTakes(cfg: Config, es: seq<ClusterEvent>, c: Cluster, id: nat, u: Url)
    returns (all: seq<ClusterEvent>)
    requires c == ClusterRun(cfg, es) && Ready(c, id) && InStep(c, id)
    requires !AllDown(c.fleet.backends, Named(u)) && Absent(c.peers[id].pool.backends, Named(u))
    ensures GoesOn(es, all, [u])
    ensures var d := ClusterRun(cfg, all); id in d.peers && !d.peers[id].missed && !InStep(d, id)
  {
    var b := c.fleet.backends;
    var i :| 0 <= i < |b| && b[i].server == Named(u) && !b[i].IsDown();
    assert View(b)[i] == Entry(Named(u), Active);
    var d;
    all, d := Exchange(cfg, es, c, Post(u), NewServer(u), id, |c.views[c.peers[id].joined]|);
  }

  lemma {:induction false} PostedBeforeDiverges(cfg: Config, es: seq<ClusterEvent>, id: nat, u: Url)
    returns (all: seq<ClusterEvent>)
    requires var c := ClusterRun(cfg, es);
      && id in c.subscribers && id in c.peers && !c.peers[id].missed && NoRepost(c.log)
      && PostedBefore(c, id, u) && !PostedSince(c, id, u)
      && (cfg.validUrl(u) || !AllDown(c.fleet.backends, Named(u)))
    ensures Diverges(cfg, es, all, id, u)
  {
    var run := Drain(cfg, es, id, u);
    var c := ClusterRun(cfg, run);
    InStepUnrepeated(cfg, run, id);
    LacksPosted(cfg, run, c, id, u);
    if AllDown(c.fleet.backends, Named(u)) {
      var i := ManagerHasPosted(cfg, run, c, u);
      var up, d := Flip(cfg, run, c, i, id, |c.views[c.peers[id].joined]|);
      GoesOnTwice(es, run, up, [], []);
      assert d.fleet.backends[i].IsActive() && d.fleet.backends[i].server == Named(u);
      ReplayHolds(c.peers[id].pool, ServerActive(u), u);
      NoRepostAfter(cfg, es, up, u);
      InStepUnrepeated(cfg, up, id);
      run, c := up, d;
    }
    all := OnlyWorkerTakes(cfg, run, c, id, u);
    GoesOnTwice(es, run, all, [], [u]);
  }

  // ---- a server that is down for good, posted before the worker joined

  /** From the worker's joining on, the end of the manager's list is what was published since. */
  ghost predicate EndIsReplay(log: seq<Message>, views: seq<seq<Entry>>, j: nat, n: nat) {
    && |views| == |log| + 1 && j <= |log|
    && forall k :: j <= k <= |log| ==> n <= |views[k]| && views[k][n..] == Replay(log[j..k])
  }

  /** The entries from before the joining share no server with the later ones but `s`, and those for
      `s` are down. */
  ghost predicate Apart(b: seq<BackendValue>, n: nat, s: Server) {
    && n <= |b|
    && (forall i :: 0 <= i < n && b[i].server == s ==> b[i].IsDown())
    && (forall i, x :: 0 <= i < n <= x < |b| && b[i].server == b[x].server ==> b[i].server == s)
  }

  ghost predicate Muted(c: Cluster, j: nat, n: nat, u: Url) {
    EndIsReplay(c.log, c.views, j, n) && NoRepost(c.log[j..]) && Apart(c.fleet.backends, n, Named(u))
  }

  lemma {:induction false} EndGrows(log: seq<Message>, views: seq<seq<Entry>>, j: nat, n: nat,
                                    m: Message, v: seq<Entry>)
    requires EndIsReplay(log, views, j, n) && n <= |v| && v[n..] == ApplyView(Replay(log[j..]), m)
    ensures EndIsReplay(log + [m], views + [v], j, n)
  {
    var all := log + [m];
    forall k | j <= k <= |all| ensures n <= |(views + [v])[k]| && (views + [v])[k][n..] == Replay(all[j..k]) {
      if k < |all| {
        assert all[j..k] == log[j..k];
      } else {
        assert all[j..k] == all[j..] == log[j..] + [m];
        ReplaySnoc(log[j..], m);
      }
    }
  }

  /** The manager takes the posting. */
  lemma {:induction false} MutedPost(b: seq<BackendValue>, v: seq<Entry>, ms: seq<Message>, n: nat, u: Url)
    requires Apart(b, n, Named(u)) && v == View(b) && v[n..] == Replay(ms) && NewServer(u) !in ms
    ensures Fresh(Named(u)) !in b
    ensures View(b + [Fresh(Named(u))])[n..] == ApplyView(Replay(ms), NewServer(u))
    ensures Apart(b + [Fresh(Named(u))], n, Named(u))
  {
    forall i | 0 <= i < |b| ensures b[i] != Fresh(Named(u)) {
      if i >= n {
        ReplayIsPosted(ms, i - n);
        assert v[i].server == b[i].server && Replay(ms)[i - n] == v[i];
      }
    }
    var s := Fresh(Named(u));
    assert View(b + [s]) == View(b) + [Entry(Named(u), Active)];
  }

  /** A mark stays on its side of the list. */
  lemma {:induction false} MutedMark(b: seq<BackendValue>, ms: seq<Message>, n: nat, u: Url, x: nat, st: ServerState)
    requires Apart(b, n, Named(u)) && View(b)[n..] == Replay(ms) && NoRepost(ms)
    requires x < |b| && b[x].server == Named(b[x].server.url) && (x < n ==> b[x].server != Named(u))
    ensures View(SetStateAt(b, x, st))[n..] == ApplyView(Replay(ms), MarkMessage(b[x].server.url, st))
    ensures Apart(SetStateAt(b, x, st), n, Named(u))
  {
    var v, s := Replay(ms), b[x].server;
    var w := View(SetStateAt(b, x, st))[n..];
    ReplayIsDistinct(ms);
    forall i | 0 <= i < |v| ensures v[i] == Entry(b[n + i].server, b[n + i].state) {
      assert v[i] == View(b)[n + i];
    }
    assert |w| == |v| && (x >= n ==> v[x - n].server == s);
    forall i | 0 <= i < |v| ensures w[i] == MarkView(v, s, st)[i] {
      assert w[i] == Entry(b[n + i].server, if n + i == x then st else b[n + i].state);
      assert b[n + i].server == s ==> n + i == x;
    }
    assert w == MarkView(v, s, st);
  }

  lemma {:induction false} MutedManage(cfg: Config, c: Cluster, e: FleetEvent, j: nat, n: nat, u: Url)
    requires Chronicle(c) && Muted(c, j, n, u) && !cfg.validUrl(u)
    requires e.Post? ==> e.url == u && NewServer(u) !in c.log[j..]
    ensures Muted(ManageStep(cfg, c, e), j, n, u)
  {
    var g := FleetStep(cfg, c.fleet, e);
    var a := Announcement(c.fleet, e, g);
    var b := c.fleet.backends;
    StepMarks(cfg, c.fleet, e);
    assert c.log[j..|c.log|] == c.log[j..];
    if a.Some? {
      var m := a.value;
      if e.Post? {
        MutedPost(b, View(b), c.log[j..], n, u);
        assert g.backends == b + [Fresh(Named(u))];
      } else {
        var mark := g.marks[|g.marks| - 1];
        MarkedIsAnother(cfg, c.fleet, e, n, u);
        MutedMark(b, c.log[j..], n, u, mark.index, mark.state);
      }
      EndGrows(c.log, c.views, j, n, m, View(g.backends));
      assert (c.log + [m])[j..] == c.log[j..] + [m];
      NoRepostSnoc(c.log[j..], m);
    }
  }

  /** A backend that is down and has an invalid check URL is never marked. */
  lemma {:induction false} MarkedIsAnother(cfg: Config, f: Fleet, e: FleetEvent, n: nat, u: Url)
    requires Apart(f.backends, n, Named(u)) && !cfg.validUrl(u)
    requires |FleetStep(cfg, f, e).marks| > |f.marks|
    ensures var g := FleetStep(cfg, f, e);
      var x := g.marks[|g.marks| - 1].index;
      x < n ==> f.backends[x].server != Named(u)
  {
  }

  lemma {:induction false} MutedStep(cfg: Config, c: Cluster, e: ClusterEvent, j: nat, n: nat, u: Url)
    requires Chronicle(c) && Muted(c, j, n, u) && !cfg.validUrl(u)
    requires e.Manage? && e.event.Post? ==> e.event.url == u && NewServer(u) !in c.log[j..]
    ensures Muted(ClusterStep(cfg, c, e), j, n, u)
  {
    if e.Manage? { MutedManage(cfg, c, e.event, j, n, u); }
  }

  lemma {:induction false} NotPostedYet(cfg: Config, c: Cluster, e: ClusterEvent, j: nat, u: Url)
    requires j <= |c.log| && NewServer(u) !in c.log[j..] && !(e.Manage? && e.event.Post?)
    ensures j <= |ClusterStep(cfg, c, e).log| && NewServer(u) !in ClusterStep(cfg, c, e).log[j..]
  {
    var l := ClusterStep(cfg, c, e).log;
    if l != c.log {
      assert l == c.log + [l[|c.log|]] && l[|c.log|] != NewServer(u);
      assert l[j..] == c.log[j..] + [l[|c.log|]];
    }
  }

  /** A worker's joining point stays. */
  lemma {:induction false} JoinedStays(cfg: Config, es: seq<ClusterEvent>, all: seq<ClusterEvent>, id: nat)
    requires es <= all && id in ClusterRun(cfg, es).peers
    ensures id in ClusterRun(cfg, all).peers
    ensures ClusterRun(cfg, all).peers[id].joined == ClusterRun(cfg, es).peers[id].joined
    decreases |all|
  {
    if |all| == |es| {
      assert all == es;
    } else {
      var front := all[..|all| - 1];
      JoinedStays(cfg, es, front, id);
      InFlightAccounting(cfg, front);
      PeerStays(cfg, ClusterRun(cfg, front), all[|all| - 1], id);
    }
  }

  lemma {:induction false} PostsGrow(es: seq<ClusterEvent>, all: seq<ClusterEvent>)
    requires es <= all
    ensures Posts(es) <= Posts(all)
    decreases |all|
  {
    if |all| == |es| { assert all == es; } else { PostsGrow(es, all[..|all| - 1]); }
  }

  /** A continuation with at most one post has none before that one. */
  lemma {:induction false} FirstPost(es: seq<ClusterEvent>, all: seq<ClusterEvent>, u: Url)
    requires |all| > |es| && (GoesOn(es, all, []) || GoesOn(es, all, [u]))
    ensures var front, e := all[..|all| - 1], all[|all| - 1];
      && (GoesOn(es, front, []) || GoesOn(es, front, [u]))
      && (GoesOn(es, all, []) ==> GoesOn(es, front, []) && !(e.Manage? && e.event.Post?))
      && (e.Manage? && e.event.Post? ==> GoesOn(es, front, []) && e.event.url == u)
  {
    var front, e := all[..|all| - 1], all[|all| - 1];
    PostsGrow(es, front);
    var a, b, c := Posts(es), Posts(front), Posts(all);
    if e.Manage? && e.event.Post? {
      assert c == b + [e.event.url];
      assert |b| == |a| && b == a;
      assert c[|a|] == u;
    } else {
      assert c == b;
    }
  }

  lemma {:induction false} MutedRun(cfg: Config, es: seq<ClusterEvent>, all: seq<ClusterEvent>, j: nat, n: nat, u: Url)
    requires var c := ClusterRun(cfg, es); Muted(c, j, n, u) && NewServer(u) !in c.log[j..]
    requires !cfg.validUrl(u) && (GoesOn(es, all, []) || GoesOn(es, all, [u]))
    ensures Muted(ClusterRun(cfg, all), j, n, u)
    ensures GoesOn(es, all, []) ==> NewServer(u) !in ClusterRun(cfg, all).log[j..]
    decreases |all|
  {
    if |all| == |es| {
      assert all == es;
    } else {
      var front, e := all[..|all| - 1], all[|all| - 1];
      FirstPost(es, all, u);
      MutedRun(cfg, es, front, j, n, u);
      ChronicleRun(cfg, front);
      MutedStep(cfg, ClusterRun(cfg, front), e, j, n, u);
      if GoesOn(es, all, []) { NotPostedYet(cfg, ClusterRun(cfg, front), e, j, u); }
    }
  }

  lemma {:induction false} MutedInStep(c: Cluster, id: nat, n: nat, u: Url)
    requires Synced(c) && id in c.peers && !c.peers[id].missed && Muted(c, c.peers[id].joined, n, u)
    ensures InStep(c, id)
  {
    var p := c.peers[id];
    var k := Replayed(c.log, p);
    assert c.views[p.joined][n..] == Replay(c.log[p.joined..p.joined]) == [];
    assert n == |c.views[p.joined]|;
    assert View(p.pool.backends) == Replay(c.log[p.joined..k]) == c.views[k][n..];
  }

  /** Where it starts: nothing posted twice, the server posted before the worker joined and down. */
  lemma {:induction false} MutedAtFirst(cfg: Config, es: seq<ClusterEvent>, c: Cluster, j: nat, u: Url)
    requires c == ClusterRun(cfg, es) && NoRepost(c.log) && j <= |c.log| && AllDown(c.fleet.backends, Named(u))
    ensures j < |c.views| && Muted(c, j, |c.views[j]|, u)
  {
    SyncedRun(cfg, es);
    var n := |c.views[j]|;
    forall k | j <= k <= |c.log| ensures n <= |c.views[k]| && c.views[k][n..] == Replay(c.log[j..k]) {
      ViewsSplit(c.log, c.views, j, k);
    }
    NoRepostSuffix(c.log, j);
    ManagerDistinct(cfg, es);
    assert |View(c.fleet.backends)| == |c.fleet.backends|;
  }

  lemma {:induction false} StaysInStep(cfg: Config, es: seq<ClusterEvent>, all: seq<ClusterEvent>, id: nat, u: Url)
    requires var c := ClusterRun(cfg, es);
      && id in c.peers && NoRepost(c.log) && !PostedSince(c, id, u)
      && AllDown(c.fleet.backends, Named(u)) && !cfg.validUrl(u)
    requires GoesOn(es, all, []) || GoesOn(es, all, [u])
    requires var d := ClusterRun(cfg, all); id in d.peers && !d.peers[id].missed
    ensures InStep(ClusterRun(cfg, all), id)
  {
    var c := ClusterRun(cfg, es);
    var j := c.peers[id].joined;
    SyncedRun(cfg, es);
    MutedAtFirst(cfg, es, c, j, u);
    NotIn(c.log, j, u);
    MutedRun(cfg, es, all, j, |c.views[j]|, u);
    JoinedStays(cfg, es, all, id);
    SyncedRun(cfg, all);
    MutedInStep(ClusterRun(cfg, all), id, |c.views[j]|, u);
  }

  lemma {:induction false} NewPostKeepsStep(cfg: Config, es: seq<ClusterEvent>, all: seq<ClusterEvent>, id: nat, u: Url)
    requires NoRepost(ClusterRun(cfg, es).log) && NewServer(u) !in ClusterRun(cfg, es).log
    requires GoesOn(es, all, []) || GoesOn(es, all, [u])
    requires var d := ClusterRun(cfg, all); id in d.peers && !d.peers[id].missed
    ensures InStep(ClusterRun(cfg, all), id)
  {
    NoRepostAfter(cfg, es, all, u);
    InStepUnrepeated(cfg, all, id);
  }

  /** Exactly which postings open the way.  Take any run in which nothing was posted twice, and a worker
      without losses that is still subscribed.  Some continuation without losses that posts at most
      `u`, once, puts the worker out of step if and only if `u` was posted since the worker joined, or
      was posted before and is still checked or active at the manager. */
  lemma {:induction false} PostBoundary(cfg: Config, es: seq<ClusterEvent>, id: nat, u: Url)
    requires var c := ClusterRun(cfg, es);
      id in c.subscribers && id in c.peers && !c.peers[id].missed && NoRepost(c.log)
    ensures var c := ClusterRun(cfg, es);
      (exists all :: Diverges(cfg, es, all, id, u)) <==>
      || PostedSince(c, id, u)
      || (PostedBefore(c, id, u) && (cfg.validUrl(u) || !AllDown(c.fleet.backends, Named(u))))
  {
    var c := ClusterRun(cfg, es);
    if PostedSince(c, id, u) {
      var all := PostedSinceDiverges(cfg, es, id, u);
    } else if PostedBefore(c, id, u) && (cfg.validUrl(u) || !AllDown(c.fleet.backends, Named(u))) {
      var all := PostedBeforeDiverges(cfg, es, id, u);
    } else {
      forall all | GoesOn(es, all, []) || GoesOn(es, all, [u]) ensures !Diverges(cfg, es, all, id, u) {
        var d := ClusterRun(cfg, all);
        if id in d.peers && !d.peers[id].missed {
          if PostedBefore(c, id, u) {
            StaysInStep(cfg, es, all, id, u);
          } else {
            NeverPosted(c, id, u);
            NewPostKeepsStep(cfg, es, all, id, u);
          }
        }
      }
    }
  }

  lemma {:induction false} NeverPosted(c: Cluster, id: nat, u: Url)
    requires id in c.peers && !PostedSince(c, id, u) && !PostedBefore(c, id, u)
    ensures NewServer(u) !in c.log
  {
    forall k | 0 <= k < |c.log| ensures c.log[k] != NewServer(u) {
      assert k < c.peers[id].joined || c.peers[id].joined <= k;
    }
  }
}
