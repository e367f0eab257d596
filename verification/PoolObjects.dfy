/** The pool and its backends as the objects that the program shares and updates in place.
    `View` gives the value that `RoundRobin` reasons about. */
module PoolObjects {
  import opened Types
  import RR = RoundRobin

  /** A backend cell; pools, requests in progress and health checks hold references to it. */
  class Backend {
    const server: Server
    var state: ServerState
    var stats: Stats

    constructor (server: Server)
      ensures Value() == Fresh(server)
    {
      this.server := server;
      state := Active;
      stats := Stats(0, 0);
    }

    function Value(): BackendValue
      reads this
    {
      BackendValue(server, state, stats)
    }

    method MarkActive()
      modifies this`state
      ensures Value() == old(Value()).(state := Active)
    {
      state := Active;
    }

    method MarkDown()
      modifies this`state
      ensures Value() == old(Value()).(state := Down)
    {
      state := Down;
    }

    /** The end of a request that was sent to this backend. */
    method Finish(o: Outcome)
      modifies this`stats
      ensures Value() == old(Value()).(stats := Count(old(stats), o))
      ensures if o == Failed || 500 <= o.status < 600
              then stats.failure == old(stats.failure) + 1 && stats.success == old(stats.success)
              else stats.success == old(stats.success) + 1 && stats.failure == old(stats.failure)
    {
      match o
      case Response(status) =>
        if IsServerError(status) {
          stats := stats.(failure := stats.failure + 1);
        } else {
          stats := stats.(success := stats.success + 1);
        }
      case Failed =>
        stats := stats.(failure := stats.failure + 1);
    }
  }

  ghost function Values(bs: seq<Backend>): (vs: seq<BackendValue>)
    reads bs
    ensures |vs| == |bs| && forall i :: 0 <= i < |bs| ==> vs[i] == bs[i].Value()
  {
    seq(|bs|, i requires 0 <= i < |bs| reads bs => bs[i].Value())
  }

  lemma {:induction false} ValuesAre(bs: seq<Backend>, vs: seq<BackendValue>)
    requires |vs| == |bs| && forall i :: 0 <= i < |bs| ==> vs[i] == bs[i].Value()
    ensures Values(bs) == vs
  {
  }

  /** Whether some backend equals this one in server, state and counters. */
  method Contains(bs: seq<Backend>, backend: Backend) returns (found: bool)
    ensures found <==> backend.Value() in Values(bs)
  {
    ghost var vs := Values(bs);
    for i := 0 to |bs|
      invariant forall j :: 0 <= j < i ==> vs[j] != backend.Value()
    {
      if bs[i].Value() == backend.Value() {
        assert vs[i] == backend.Value();
        return true;
      }
    }
    return false;
  }

  /** The backends of other servers, in order. */
  function Others(bs: seq<Backend>, server: Server): seq<Backend> {
    if bs == [] then []
    else if bs[0].server != server then [bs[0]] + Others(bs[1..], server)
    else Others(bs[1..], server)
  }

  ghost predicate NoAlias(bs: seq<Backend>) {
    forall i, j :: 0 <= i < j < |bs| ==> bs[i] != bs[j]
  }

  lemma {:induction false} OthersNoAlias(bs: seq<Backend>, server: Server)
    requires NoAlias(bs)
    ensures NoAlias(Others(bs, server))
    ensures forall b :: b in Others(bs, server) ==> b in bs
  {
    if bs != [] {
      OthersNoAlias(bs[1..], server);
      var rest := Others(bs[1..], server);
      assert bs == [bs[0]] + bs[1..];
      forall j | 0 <= j < |rest| ensures rest[j] != bs[0] {
        assert rest[j] in rest && rest[j] in bs[1..];
      }
    }
  }

  lemma {:induction false} OthersValues(bs: seq<Backend>, server: Server)
    ensures Values(Others(bs, server)) == RR.Retain(Values(bs), server)
  {
    if bs != [] {
      var vs, rest := Values(bs), Others(bs[1..], server);
      OthersValues(bs[1..], server);
      ValuesAre(bs[1..], vs[1..]);
      assert vs[0] == bs[0].Value();
      if bs[0].server != server { ValuesAre([bs[0]] + rest, [vs[0]] + Values(rest)); }
    }
  }

  class InnerPool {
    var backends: seq<Backend>
    var lastUsed: nat

    /** No backend is in the pool twice. */
    ghost predicate Valid()
      reads this
    {
      NoAlias(backends)
    }

    ghost function View(): RR.Pool
      reads this, backends
    {
      RR.Pool(Values(backends), lastUsed)
    }

    constructor ()
      ensures Valid() && View() == RR.EMPTY && backends == []
    {
      backends := [];
      lastUsed := 0;
    }

    /** The loop of `Get`: moves the cursor on until it meets an active backend or its start. */
    method Scan() returns (r: Option<Backend>)
      requires backends != [] && RR.ScanAfter(Values(backends), lastUsed, |backends|).Halted?
      modifies this`lastUsed
      ensures var end := old(RR.ScanAfter(Values(backends), lastUsed, |backends|));
        lastUsed == end.cursor < |backends| && r == if end.found.Some? then Some(backends[lastUsed]) else None
    {
      var n, start := |backends|, lastUsed;
      ghost var vs := Values(backends);
      ghost var end := RR.ScanAfter(vs, start, n);
      ghost var k := 0;
      while true
        invariant 0 <= k <= n && RR.ScanAfter(vs, start, k) == RR.Running(lastUsed)
        decreases n - k
      {
        RR.ScanTurn(vs, start, k, lastUsed, end);
        k := k + 1;
        lastUsed := (lastUsed + 1) % n;
        var backend := backends[lastUsed];
        assert vs[lastUsed].state == backend.state;
        if backend.state == Down {
          if start == lastUsed {
            return None;
          }
          continue;
        }
        return Some(backend);
      }
    }

    /** Selects the next active backend.  Outside `ScanEnds` the scan does not terminate
        (`RoundRobin.TerminationBoundary`). */
    method Get() returns (r: Option<Backend>)
      requires Valid() && RR.ScanEnds(View())
      modifies this`lastUsed
      ensures View() == RR.Get(old(View())).1
      ensures match RR.Get(old(View())).0
              case Some(i) => i < |backends| && r == Some(backends[i])
              case None => r == None
    {
      if |backends| == 0 {
        return None;
      }
      RR.ScanMeetsGet(View());
      r := Scan();
    }

    /** Adds a new backend for the server unless an equal one is present; equality covers state and
        counters. */
    method Add(server: Server) returns (added: bool)
      requires Valid()
      modifies this`backends
      ensures Valid()
      ensures (View(), added) == RR.Add(old(View()), server)
      ensures added ==> |backends| == |old(backends)| + 1 && backends[..|old(backends)|] == old(backends)
                        && fresh(backends[|old(backends)|])
      ensures !added ==> backends == old(backends)
    {
      var backend := new Backend(server);
      var present := Contains(backends, backend);
      if present {
        return false;
      }
      ghost var vs := Values(backends);
      backends := backends + [backend];
      ValuesAre(backends, vs + [Fresh(server)]);
      return true;
    }

    /** Drops every entry for the server and leaves the cursor alone. */
    method Remove(server: Server)
      requires Valid()
      modifies this`backends
      ensures Valid() && View() == RR.Remove(old(View()), server)
      ensures forall b :: b in backends ==> b in old(backends)
    {
      var kept := Others(backends, server);
      OthersNoAlias(backends, server);
      OthersValues(backends, server);
      backends := kept;
    }

    /** The first entry for the server. */
    method Find(server: Server) returns (r: Option<Backend>)
      ensures match RR.Find(View().backends, server)
              case Some(i) => r == Some(backends[i])
              case None => r == None
    {
      var i := 0;
      while i < |backends|
        invariant 0 <= i <= |backends|
        invariant forall j :: 0 <= j < i ==> backends[j].server != server
      {
        if backends[i].server == server {
          RR.FindFirst(Values(backends), server, i);
          return Some(backends[i]);
        }
        i := i + 1;
      }
      RR.FindNone(Values(backends), server);
      return None;
    }
  }
}
