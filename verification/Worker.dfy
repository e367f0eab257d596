/** A worker replays the manager's messages into its own pool while it serves requests. */
module Worker {
  import opened Types
  import opened RoundRobin
  import opened PoolRuns
  import opened Fairness

  datatype Message = NewServer(url: Url) | ServerDown(url: Url) | ServerActive(url: Url)

  /** Changes the first entry for the server, if there is one. */
  function MarkFirst(p: Pool, s: Server, st: ServerState): Pool {
    match Find(p.backends, s)
    case Some(i) => p.(backends := SetStateAt(p.backends, i, st))
    case None => p
  }

  function Apply(p: Pool, m: Message): Pool {
    match m
    case NewServer(u) => Add(p, Named(u)).0
    case ServerDown(u) => MarkFirst(p, Named(u), Down)
    case ServerActive(u) => MarkFirst(p, Named(u), Active)
  }

  datatype WorkerEvent =
    | Deliver(message: Message)
    | Serve                                   // a request asks the pool for a backend
    | Settle(index: nat, outcome: Outcome)    // a request to one backend ends

  function WorkerStep(p: Pool, e: WorkerEvent): Pool {
    match e
    case Deliver(m) => Apply(p, m)
    case Serve => Get(p).1
    case Settle(i, o) => p.(backends := CountAt(p.backends, i, o))
  }

  function WorkerRun(p: Pool, es: seq<WorkerEvent>): Pool
    decreases |es|
  {
    if es == [] then p else WorkerRun(WorkerStep(p, es[0]), es[1..])
  }

  /** The servers that requests are sent to along a run. */
  function Served(p: Pool, es: seq<WorkerEvent>): seq<Server>
    decreases |es|
  {
    if es == [] then []
    else
      (if es[0].Serve? && Get(p).0.Some? then [p.backends[Get(p).0.value].server] else [])
      + Served(WorkerStep(p, es[0]), es[1..])
  }

  /** Nothing a worker does removes a backend, so its scan always ends. */
  lemma {:induction false} WorkerNeverHangs(p: Pool, es: seq<WorkerEvent>)
    requires CursorInRange(p)
    ensures CursorInRange(WorkerRun(p, es)) && ScanEnds(WorkerRun(p, es))
    decreases |es|
  {
    if es != [] { WorkerNeverHangs(WorkerStep(p, es[0]), es[1..]); }
  }

  // ---- a single entry follows the last mark

  ghost predicate OnlyEntry(b: seq<BackendValue>, s: Server, i: nat) {
    i < |b| && forall j :: 0 <= j < |b| ==> (b[j].server == s <==> j == i)
  }

  ghost predicate NotPosted(es: seq<WorkerEvent>, u: Url) {
    Deliver(NewServer(u)) !in es
  }

  function StateNamed(e: WorkerEvent, u: Url, st: ServerState): ServerState {
    if e == Deliver(ServerDown(u)) then Down
    else if e == Deliver(ServerActive(u)) then Active
    else st
  }

  /** The state that the last mark for the server gives, or `st` if there is none. */
  function LastMark(es: seq<WorkerEvent>, u: Url, st: ServerState): ServerState {
    if es == [] then st else StateNamed(es[|es| - 1], u, LastMark(es[..|es| - 1], u, st))
  }

  lemma {:induction false} FindOnly(b: seq<BackendValue>, s: Server, i: nat)
    requires OnlyEntry(b, s, i)
    ensures Find(b, s) == Some(i)
  {
    FindFirst(b, s, i);
  }

  lemma {:induction false} ApplyOnOnlyEntry(p: Pool, m: Message, u: Url, i: nat)
    requires OnlyEntry(p.backends, Named(u), i) && m != NewServer(u)
    ensures var b := Apply(p, m).backends;
      OnlyEntry(b, Named(u), i) && b[i].state == StateNamed(Deliver(m), u, p.backends[i].state)
  {
    FindOnly(p.backends, Named(u), i);
  }

  lemma {:induction false} StepOnOnlyEntry(p: Pool, e: WorkerEvent, u: Url, i: nat)
    requires OnlyEntry(p.backends, Named(u), i) && e != Deliver(NewServer(u))
    ensures var b := WorkerStep(p, e).backends;
      OnlyEntry(b, Named(u), i) && b[i].state == StateNamed(e, u, p.backends[i].state)
  {
    if e.Deliver? { ApplyOnOnlyEntry(p, e.message, u, i); }
  }

  lemma {:induction false} LastMarkCons(e: WorkerEvent, es: seq<WorkerEvent>, u: Url, st: ServerState)
    ensures LastMark([e] + es, u, st) == LastMark(es, u, StateNamed(e, u, st))
  {
    var all := [e] + es;
    if es != [] {
      assert all[..|all| - 1] == [e] + es[..|es| - 1];
      LastMarkCons(e, es[..|es| - 1], u, st);
    } else {
      assert all[..0] == [];
    }
  }

  /** The only entry for a server stands as the last mark delivered for it says, whatever other
      messages and requests come in between. */
  lemma {:induction false} EntryFollowsLastMark(p: Pool, es: seq<WorkerEvent>, u: Url, i: nat)
    requires OnlyEntry(p.backends, Named(u), i) && NotPosted(es, u)
    ensures var b := WorkerRun(p, es).backends;
      OnlyEntry(b, Named(u), i) && b[i].state == LastMark(es, u, p.backends[i].state)
    decreases |es|
  {
    if es != [] {
      assert es == [es[0]] + es[1..] && es[0] in es;
      StepOnOnlyEntry(p, es[0], u, i);
      LastMarkCons(es[0], es[1..], u, p.backends[i].state);
      EntryFollowsLastMark(WorkerStep(p, es[0]), es[1..], u, i);
    }
  }

  // ---- down means undispatched

  ghost predicate AllDown(b: seq<BackendValue>, s: Server) {
    forall i :: 0 <= i < |b| && b[i].server == s ==> b[i].IsDown()
  }

  /** A mark-down silences the server exactly when every entry but the first was down already;
      with distinct servers it always does. */
  lemma {:induction false} MarkDownBoundary(p: Pool, u: Url)
    ensures AllDown(Apply(p, ServerDown(u)).backends, Named(u)) <==>
            forall i, j :: 0 <= i < j < |p.backends| && p.backends[i].server == Named(u) == p.backends[j].server
                           ==> p.backends[j].IsDown()
    ensures Distinct(p.backends) ==> AllDown(Apply(p, ServerDown(u)).backends, Named(u))
  {
    var b, c := p.backends, Apply(p, ServerDown(u)).backends;
    if AllDown(c, Named(u)) {
      forall i, j | 0 <= i < j < |b| && b[i].server == Named(u) == b[j].server ensures b[j].IsDown() {
        assert c[j].IsDown();
      }
    }
  }

  lemma {:induction false} StaysDown(p: Pool, es: seq<WorkerEvent>, u: Url)
    requires AllDown(p.backends, Named(u))
    requires NotPosted(es, u) && Deliver(ServerActive(u)) !in es
    ensures AllDown(WorkerRun(p, es).backends, Named(u)) && Named(u) !in Served(p, es)
    decreases |es|
  {
    if es != [] {
      assert es[0] in es;
      StaysDown(WorkerStep(p, es[0]), es[1..], u);
    }
  }

  /** In a pool of distinct servers, once a server is marked down no request reaches it until it is
      marked active, through any requests, marks for others and additions of others. */
  lemma {:induction false} DownMeansUndispatched(p: Pool, es: seq<WorkerEvent>, u: Url)
    requires Distinct(p.backends)
    requires NotPosted(es, u) && Deliver(ServerActive(u)) !in es
    ensures Named(u) !in Served(Apply(p, ServerDown(u)), es)
  {
    MarkDownBoundary(p, u);
    StaysDown(Apply(p, ServerDown(u)), es, u);
  }

  // ---- posting a server again while it is down

  /** An active entry for the server stands behind another entry for it. */
  ghost predicate ActiveBehind(b: seq<BackendValue>, s: Server) {
    exists i, j :: 0 <= i < j < |b| && b[i].server == s && b[j].server == s && b[j].IsActive()
  }

  lemma {:induction false} BehindApply(p: Pool, m: Message, s: Server)
    requires ActiveBehind(p.backends, s)
    ensures ActiveBehind(Apply(p, m).backends, s)
  {
    var b, c := p.backends, Apply(p, m).backends;
    var i, j :| 0 <= i < j < |b| && b[i].server == s && b[j].server == s && b[j].IsActive();
    assert c[i].server == s && c[j].server == s && c[j].IsActive();
  }

  lemma {:induction false} BehindStep(p: Pool, e: WorkerEvent, s: Server)
    requires ActiveBehind(p.backends, s)
    ensures ActiveBehind(WorkerStep(p, e).backends, s)
  {
    if e.Deliver? {
      BehindApply(p, e.message, s);
    } else {
      var b, c := p.backends, WorkerStep(p, e).backends;
      var i, j :| 0 <= i < j < |b| && b[i].server == s && b[j].server == s && b[j].IsActive();
      assert c[i].server == s && c[j].server == s && c[j].IsActive();
    }
  }

  /** Messages for a server reach only its first entry: an active entry behind it is never taken out
      of service, by any messages and requests. */
  lemma {:induction false} BehindIsOutOfReach(p: Pool, es: seq<WorkerEvent>, s: Server)
    requires ActiveBehind(p.backends, s)
    ensures ActiveBehind(WorkerRun(p, es).backends, s) && !AllDown(WorkerRun(p, es).backends, s)
    decreases |es|
  {
    if es != [] {
      BehindStep(p, es[0], s);
      BehindIsOutOfReach(WorkerStep(p, es[0]), es[1..], s);
    }
  }

  lemma {:induction false} PostPutsBehind(p: Pool, u: Url)
    requires AllDown(p.backends, Named(u)) && !Absent(p.backends, Named(u))
    ensures ActiveBehind(Apply(p, NewServer(u)).backends, Named(u))
  {
    var b, c := p.backends, Apply(p, NewServer(u)).backends;
    var i :| 0 <= i < |b| && b[i].server == Named(u);
    assert Fresh(Named(u)) !in b;
    assert c[i].server == Named(u) && c[|b|] == Fresh(Named(u));
  }

  /** Down until marked active fails exactly by posting: a server that is down stays down, as long as
      it is not marked active, if and only if it is not posted again. */
  lemma {:induction false} RevivalBoundary(p: Pool, es: seq<WorkerEvent>, u: Url)
    requires AllDown(p.backends, Named(u)) && !Absent(p.backends, Named(u))
    requires Deliver(ServerActive(u)) !in es
    ensures AllDown(WorkerRun(p, es).backends, Named(u)) <==> NotPosted(es, u)
    decreases |es|
  {
    if es != [] {
      var q := WorkerStep(p, es[0]);
      assert es == [es[0]] + es[1..];
      if es[0] == Deliver(NewServer(u)) {
        PostPutsBehind(p, u);
        BehindIsOutOfReach(q, es[1..], Named(u));
      } else {
        var i :| 0 <= i < |p.backends| && p.backends[i].server == Named(u);
        assert q.backends[i].server == Named(u);
        RevivalBoundary(q, es[1..], u);
      }
    }
  }

  /** `n` requests in a row. */
  function Requests(n: nat): (r: seq<WorkerEvent>)
    ensures |r| == n
    ensures forall i :: 0 <= i < n ==> r[i] == Serve
  {
    if n == 0 then [] else [Serve] + Requests(n - 1)
  }

  lemma {:induction false} DispatchedIsServed(p: Pool, n: nat, i: nat)
    requires SomeActive(p.backends) && i in Dispatched(p, n) && i < |p.backends|
    ensures p.backends[i].server in Served(p, Requests(n))
    decreases n
  {
    var es := Requests(n);
    assert es[1..] == Requests(n - 1);
    if i != Get(p).0.value { DispatchedIsServed(Get(p).1, n - 1, i); }
  }

  /** Some number of requests reaches the server exactly when an entry for it is active. */
  lemma {:induction false} ReachedWhenActive(p: Pool, s: Server)
    ensures (exists n :: s in Served(p, Requests(n))) <==> !AllDown(p.backends, s)
  {
    if AllDown(p.backends, s) {
      forall n: nat ensures s !in Served(p, Requests(n)) {
        NeverServed(p, n, s);
      }
    } else {
      var i :| 0 <= i < |p.backends| && p.backends[i].server == s && p.backends[i].IsActive();
      var a := ActiveIndices(p.backends);
      assert i in a;
      EachOncePerLap(p);
      assert i in multiset(Dispatched(p, |a|));
      DispatchedIsServed(p, |a|, i);
    }
  }

  lemma {:induction false} NeverServed(p: Pool, n: nat, s: Server)
    requires AllDown(p.backends, s)
    ensures s !in Served(p, Requests(n))
    decreases n
  {
    if n > 0 {
      assert Requests(n)[1..] == Requests(n - 1);
      NeverServed(Get(p).1, n - 1, s);
    }
  }

  /** So requests reach a server that is down and not marked active again, sooner or later, exactly
      when it was posted again. */
  lemma {:induction false} PostingAgainRevives(p: Pool, es: seq<WorkerEvent>, u: Url)
    requires AllDown(p.backends, Named(u)) && !Absent(p.backends, Named(u))
    requires Deliver(ServerActive(u)) !in es
    ensures (exists n :: Named(u) in Served(WorkerRun(p, es), Requests(n))) <==> Deliver(NewServer(u)) in es
  {
    RevivalBoundary(p, es, u);
    ReachedWhenActive(WorkerRun(p, es), Named(u));
  }
}
