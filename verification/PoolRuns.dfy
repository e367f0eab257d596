/** Whole runs of one pool: dispatches, additions, removals, and changes that other parts of the
    program make through the shared backend cells. */
module PoolRuns {
  import opened Types
  import opened RoundRobin

  datatype Event =
    | Dispatch
    | AddServer(server: Server)
    | RemoveServer(server: Server)
    | SetState(index: nat, state: ServerState)
    | Finish(index: nat, outcome: Outcome)

  function SetStateAt(b: seq<BackendValue>, i: nat, st: ServerState): (r: seq<BackendValue>)
    ensures |r| == |b|
    ensures forall j :: 0 <= j < |b| ==> r[j] == if j == i then b[j].(state := st) else b[j]
  {
    if i < |b| then b[i := b[i].(state := st)] else b
  }

  function CountAt(b: seq<BackendValue>, i: nat, o: Outcome): (r: seq<BackendValue>)
    ensures |r| == |b|
    ensures forall j :: 0 <= j < |b| ==> r[j] == if j == i then b[j].(stats := Count(b[j].stats, o)) else b[j]
  {
    if i < |b| then b[i := b[i].(stats := Count(b[i].stats, o))] else b
  }

  function Step(p: Pool, e: Event): Pool {
    match e
    case Dispatch => Get(p).1
    case AddServer(s) => Add(p, s).0
    case RemoveServer(s) => Remove(p, s)
    case SetState(i, st) => p.(backends := SetStateAt(p.backends, i, st))
    case Finish(i, o) => p.(backends := CountAt(p.backends, i, o))
  }

  function Run(p: Pool, es: seq<Event>): Pool
    decreases |es|
  {
    if es == [] then p else Run(Step(p, es[0]), es[1..])
  }

  /** The indices dispatched along a run. */
  function Dispatches(p: Pool, es: seq<Event>): seq<nat>
    decreases |es|
  {
    if es == [] then []
    else
      (if es[0].Dispatch? && Get(p).0.Some? then [Get(p).0.value] else [])
      + Dispatches(Step(p, es[0]), es[1..])
  }

  ghost predicate NoRemovals(es: seq<Event>) {
    forall e :: e in es ==> !e.RemoveServer?
  }

  // ---- starvation freedom

  /** The backend at `c` is present and active at every point of the run. */
  ghost predicate ActiveThroughout(p: Pool, es: seq<Event>, c: nat)
    decreases |es|
  {
    && c < |p.backends| && p.backends[c].IsActive()
    && (es != [] ==> ActiveThroughout(Step(p, es[0]), es[1..], c))
  }

  /** Walking forward from `i`, the cursor has not yet reached `c`. */
  predicate Before(i: nat, cursor: nat, c: nat) {
    if i < c then i <= cursor < c else cursor >= i || cursor < c
  }

  /** A dispatch cannot jump over an active backend. */
  lemma {:induction false} DispatchStopsAtActive(p: Pool, i: nat, c: nat)
    requires i < |p.backends| && c < |p.backends| && i != c && p.lastUsed < |p.backends|
    requires p.backends[c].IsActive() && Before(i, p.lastUsed, c)
    ensures Get(p).0.Some?
    ensures var j := Get(p).0.value; j == c || (j != i && Before(i, j, c))
  {
    var b := p.backends;
    var next := Next(b, p.lastUsed);
    NextIsFirst(b, p.lastUsed, 0);
    assert SomeActive(b);
    NextIsFirst(b, p.lastUsed, next.value);
    NextSlot(|b|, p.lastUsed);
  }

  lemma {:induction false} UntilServed(p: Pool, es: seq<Event>, i: nat, c: nat)
    requires NoRemovals(es) && ActiveThroughout(p, es, c)
    requires i < |p.backends| && i != c && p.lastUsed < |p.backends| && Before(i, p.lastUsed, c)
    requires c !in Dispatches(p, es)
    ensures i !in Dispatches(p, es)
    ensures var q := Run(p, es);
      && |q.backends| >= |p.backends|
      && q.lastUsed < |q.backends| && Before(i, q.lastUsed, c)
      && c < |q.backends| && q.backends[c].IsActive()
    decreases |es|
  {
    if es != [] {
      assert es[0] in es;
      if es[0].Dispatch? { DispatchStopsAtActive(p, i, c); }
      UntilServed(Step(p, es[0]), es[1..], i, c);
    }
  }

  /** Between two dispatches to one backend, every other backend that was present and active
      throughout is dispatched, whatever is added or happens to the rest of the pool. */
  lemma {:induction false} StarvationFreedom(p: Pool, es: seq<Event>, i: nat, c: nat)
    requires Get(p).0 == Some(i)
    requires var q := Get(p).1;
      NoRemovals(es) && ActiveThroughout(q, es, c) && Get(Run(q, es)).0 == Some(i)
    ensures c == i || c in Dispatches(Get(p).1, es)
  {
    var q := Get(p).1;
    if c != i && c !in Dispatches(q, es) {
      UntilServed(q, es, i, c);
      DispatchStopsAtActive(Run(q, es), i, c);
    }
  }

  // ---- where the scan terminates

  predicate CursorInRange(p: Pool) {
    if p.backends == [] then p.lastUsed == 0 else p.lastUsed < |p.backends|
  }

  /** Without removals the cursor of a pool that started empty stays in range, so every
      dispatch terminates. */
  lemma {:induction false} NoRemovalsNoHang(p: Pool, es: seq<Event>)
    requires CursorInRange(p) && NoRemovals(es)
    ensures CursorInRange(Run(p, es)) && ScanEnds(Run(p, es))
    decreases |es|
  {
    if es != [] {
      assert es[0] in es;
      NoRemovalsNoHang(Step(p, es[0]), es[1..]);
    }
  }

  /** Removing the last entry under the cursor while the rest is down leaves a pool whose scan
      never halts. */
  lemma {:induction false} RemovalCanHang(a: Server, b: Server)
    requires a != b
    ensures var es := [AddServer(a), AddServer(b), Dispatch, SetState(0, Down), RemoveServer(b)];
      !ScanEnds(Run(EMPTY, es))
    ensures var es := [AddServer(a), AddServer(b), Dispatch, SetState(0, Down), RemoveServer(b)];
      var p := Run(EMPTY, es);
      p.backends != [] && forall k :: ScanAfter(p.backends, p.lastUsed, k).Running?
  {
    var p0 := Pool([Fresh(a)], 0);
    var p1 := Pool([Fresh(a), Fresh(b)], 0);
    var p2 := p1.(lastUsed := 1);
    var p3 := Pool([Fresh(a).(state := Down), Fresh(b)], 1);
    var p4 := Pool([Fresh(a).(state := Down)], 1);
    assert Step(EMPTY, AddServer(a)) == p0;
    assert Step(p0, AddServer(b)) == p1;
    assert Step(p1, Dispatch) == p2 by { NextIsFirst(p1.backends, 0, 1); }
    assert Step(p2, SetState(0, Down)) == p3;
    assert Step(p3, RemoveServer(b)) == p4 by {
      assert p3.backends[1..] == [Fresh(b)];
      assert Retain([Fresh(b)], b) == [];
      assert Retain(p3.backends, b) == [p3.backends[0]];
    }
    var e1 := [AddServer(b), Dispatch, SetState(0, Down), RemoveServer(b)];
    var e2 := [Dispatch, SetState(0, Down), RemoveServer(b)];
    var e3 := [SetState(0, Down), RemoveServer(b)];
    assert ([AddServer(a)] + e1)[1..] == e1 && e1[1..] == e2 && e2[1..] == e3;
    assert e3[1..] == [RemoveServer(b)];
    assert Run(p3, [RemoveServer(b)]) == p4;
    assert Run(p2, e3) == p4;
    assert Run(p1, e2) == p4;
    assert Run(p0, e1) == p4;
    assert Run(EMPTY, [AddServer(a)] + e1) == p4;
    TerminationBoundary(p4);
  }

  /** Marking every entry from `from` on as down, one after the other. */
  lemma {:induction false} AllGoDown(p: Pool, from: nat) returns (es: seq<Event>)
    requires from <= |p.backends|
    requires forall j :: 0 <= j < from ==> p.backends[j].IsDown()
    ensures NoRemovals(es)
    ensures var q := Run(p, es);
      |q.backends| == |p.backends| && q.lastUsed == p.lastUsed && !SomeActive(q.backends)
    decreases |p.backends| - from
  {
    if from == |p.backends| {
      es := [];
    } else {
      var first := SetState(from, Down);
      var rest := AllGoDown(Step(p, first), from + 1);
      es := [first] + rest;
      assert es[1..] == rest;
    }
  }

  lemma {:induction false} StrayCursorHangs(p: Pool) returns (es: seq<Event>)
    requires !CursorInRange(p)
    ensures NoRemovals(es) && !ScanEnds(Run(p, es))
  {
    if p.backends != [] {
      es := AllGoDown(p, 0);
    } else {
      var post := AddServer(Named("a"));
      var rest := AllGoDown(Step(p, post), 0);
      es := [post] + rest;
      assert es[1..] == rest;
    }
  }

  /** A pool can still come to hang, without any further removal, exactly when its cursor is out of
      range. */
  lemma {:induction false} HangBoundary(p: Pool)
    ensures (exists es :: NoRemovals(es) && !ScanEnds(Run(p, es))) <==> !CursorInRange(p)
  {
    if CursorInRange(p) {
      forall es | NoRemovals(es) ensures ScanEnds(Run(p, es)) {
        NoRemovalsNoHang(p, es);
      }
    } else {
      var es := StrayCursorHangs(p);
    }
  }

  /** Exactly which removals open the way to a scan that never halts: those that leave no more entries
      than the cursor's number, unless the cursor is at the first slot. */
  lemma {:induction false} RemovalBoundary(p: Pool, s: Server)
    ensures (exists es :: NoRemovals(es) && !ScanEnds(Run(Remove(p, s), es))) <==>
            0 < p.lastUsed && |Retain(p.backends, s)| <= p.lastUsed
  {
    HangBoundary(Remove(p, s));
  }

  // ---- uniqueness of servers

  ghost predicate Distinct(b: seq<BackendValue>) {
    forall i, j :: 0 <= i < j < |b| ==> b[i].server != b[j].server
  }

  ghost predicate Absent(b: seq<BackendValue>, s: Server) {
    forall i :: 0 <= i < |b| ==> b[i].server != s
  }

  /** Every entry for the server has been marked down or has served a request. */
  ghost predicate AllUsed(b: seq<BackendValue>, s: Server) {
    forall i :: 0 <= i < |b| && b[i].server == s ==> b[i].IsDown() || b[i].stats != Stats(0, 0)
  }

  /** `add` accepts exactly when no entry for the server is still fresh; the list stays free of
      duplicates exactly when the server was absent or a fresh entry made `add` refuse. */
  lemma {:induction false} AddBoundary(p: Pool, s: Server)
    ensures Add(p, s).1 <==> AllUsed(p.backends, s)
    ensures Distinct(p.backends) ==>
              (Distinct(Add(p, s).0.backends) <==> Absent(p.backends, s) || !AllUsed(p.backends, s))
  {
    var b := p.backends;
    if AllUsed(b, s) {
      assert Fresh(s) !in b;
      var r := b + [Fresh(s)];
      if !Absent(b, s) {
        var i :| 0 <= i < |b| && b[i].server == s;
        assert r[i].server == r[|b|].server;
      }
    } else {
      var i :| 0 <= i < |b| && b[i].server == s && !(b[i].IsDown() || b[i].stats != Stats(0, 0));
      assert b[i] == Fresh(s);
    }
  }

  /** Duplicates do arise: a server that has served one request, however it ended, is accepted again. */
  lemma {:induction false} ServedIsAddedAgain(s: Server, o: Outcome)
    ensures var b := Run(EMPTY, [AddServer(s), Dispatch, Finish(0, o), AddServer(s)]).backends;
      |b| == 2 && b[0].server == s && b[1] == Fresh(s)
  {
    var p := Pool([Fresh(s)], 0);
    var q := Pool([Fresh(s).(stats := Count(Stats(0, 0), o))], 0);
    assert Step(EMPTY, AddServer(s)) == p;
    assert Step(p, Dispatch) == p by { NextIsFirst(p.backends, 0, 0); }
    assert Step(p, Finish(0, o)) == q;
    assert Fresh(s) !in q.backends;
    var e3 := [AddServer(s)];
    var e2 := [Finish(0, o)] + e3;
    var e1 := [Dispatch] + e2;
    assert Run(q, e3) == Step(q, AddServer(s)) by { assert e3[1..] == []; }
    assert Run(p, e2) == Run(q, e3) by { assert e2[1..] == e3; }
    assert Run(p, e1) == Run(p, e2) by { assert e1[1..] == e2; }
    var all := [AddServer(s)] + e1;
    assert Run(EMPTY, all) == Run(p, e1) by { assert all[1..] == e1; }
    assert all == [AddServer(s), Dispatch, Finish(0, o), AddServer(s)];
  }

  /** Every addition along the run meets an absent server or a fresh entry. */
  ghost predicate WellTimedAdds(p: Pool, es: seq<Event>)
    decreases |es|
  {
    es != [] ==>
      && (es[0].AddServer? ==> Absent(p.backends, es[0].server) || !AllUsed(p.backends, es[0].server))
      && WellTimedAdds(Step(p, es[0]), es[1..])
  }

  lemma {:induction false} RetainKeepsDistinct(b: seq<BackendValue>, s: Server)
    requires Distinct(b)
    ensures Distinct(Retain(b, s))
  {
    if b != [] {
      RetainKeepsDistinct(b[1..], s);
      RetainMembers(b[1..], s);
      var t := Retain(b[1..], s);
      forall j | 0 <= j < |t| ensures t[j].server != b[0].server {
        assert t[j] in b[1..];
      }
    }
  }

  lemma {:induction false} StepKeepsServer(p: Pool, e: Event, i: nat)
    requires !e.RemoveServer? && i < |p.backends|
    ensures i < |Step(p, e).backends| && Step(p, e).backends[i].server == p.backends[i].server
  {
  }

  /** Duplicates, once in, stay until something is removed. */
  lemma {:induction false} DuplicateStays(p: Pool, es: seq<Event>)
    requires NoRemovals(es) && !Distinct(p.backends)
    ensures !Distinct(Run(p, es).backends)
    decreases |es|
  {
    if es != [] {
      assert es[0] in es;
      var i, j :| 0 <= i < j < |p.backends| && p.backends[i].server == p.backends[j].server;
      var q := Step(p, es[0]);
      StepKeepsServer(p, es[0], i);
      StepKeepsServer(p, es[0], j);
      DuplicateStays(q, es[1..]);
    }
  }

  /** Over every run, well-timed additions keep the servers pairwise distinct; and in a run
      without removals nothing less does. */
  lemma {:induction false} UniquenessBoundary(p: Pool, es: seq<Event>)
    requires Distinct(p.backends)
    ensures WellTimedAdds(p, es) ==> Distinct(Run(p, es).backends)
    ensures NoRemovals(es) ==> (Distinct(Run(p, es).backends) <==> WellTimedAdds(p, es))
    decreases |es|
  {
    if es != [] {
      var q := Step(p, es[0]);
      assert es[0] in es;
      if es[0].AddServer? { AddBoundary(p, es[0].server); }
      if es[0].RemoveServer? { RetainKeepsDistinct(p.backends, es[0].server); }
      if Distinct(q.backends) {
        UniquenessBoundary(q, es[1..]);
      } else if NoRemovals(es) {
        DuplicateStays(q, es[1..]);
      }
    }
  }

  /** The servers are pairwise distinct at every moment of the run. */
  ghost predicate AlwaysDistinct(p: Pool, es: seq<Event>)
    decreases |es|
  {
    Distinct(p.backends) && (es != [] ==> AlwaysDistinct(Step(p, es[0]), es[1..]))
  }

  /** Over every run, removals included: there is never a duplicate if and only if every addition is
      well timed. */
  lemma {:induction false} AlwaysDistinctBoundary(p: Pool, es: seq<Event>)
    requires Distinct(p.backends)
    ensures AlwaysDistinct(p, es) <==> WellTimedAdds(p, es)
    decreases |es|
  {
    if es != [] {
      if es[0].AddServer? { AddBoundary(p, es[0].server); }
      if es[0].RemoveServer? { RetainKeepsDistinct(p.backends, es[0].server); }
      if Distinct(Step(p, es[0]).backends) { AlwaysDistinctBoundary(Step(p, es[0]), es[1..]); }
    }
  }
}
