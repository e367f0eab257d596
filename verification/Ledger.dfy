/** Request accounting with backend identity: `all` lists every backend ever created, the pool holds
    references into it, and a request in progress holds on to the backend it was given, whether or
    not the pool still has it.  Requests are numbered in the order in which they are sent. */
module Ledger {
  import opened Types
  import opened RoundRobin
  import opened PoolRuns

  datatype Ledger = Ledger(all: seq<BackendValue>, members: seq<nat>, lastUsed: nat,
                           pending: map<nat, nat>, sent: nat, completed: nat)

  const BLANK := Ledger([], [], 0, map[], 0, 0)

  datatype LedgerEvent =
    | Enter(server: Server)
    | Expel(server: Server)
    | SetTo(server: Server, state: ServerState)
    | Send
    | Arrive(request: nat, outcome: Outcome)   // one of the requests in progress ends

  ghost predicate References(n: nat, refs: seq<nat>) {
    forall i :: 0 <= i < |refs| ==> refs[i] < n
  }

  function Values(all: seq<BackendValue>, refs: seq<nat>): (r: seq<BackendValue>)
    requires References(|all|, refs)
    ensures |r| == |refs| && forall i :: 0 <= i < |r| ==> r[i] == all[refs[i]]
  {
    if refs == [] then [] else Values(all, refs[..|refs| - 1]) + [all[refs[|refs| - 1]]]
  }

  /** The references to backends of other servers. */
  function KeepOthers(all: seq<BackendValue>, refs: seq<nat>, s: Server): (r: seq<nat>)
    requires References(|all|, refs)
    ensures forall x :: x in r ==> x in refs
  {
    if refs == [] then []
    else if all[refs[0]].server == s then KeepOthers(all, refs[1..], s)
    else [refs[0]] + KeepOthers(all, refs[1..], s)
  }

  ghost predicate NoAlias(refs: seq<nat>) {
    forall i, j :: 0 <= i < j < |refs| ==> refs[i] != refs[j]
  }

  lemma {:induction false} KeepOthersNoAlias(all: seq<BackendValue>, refs: seq<nat>, s: Server)
    requires References(|all|, refs) && NoAlias(refs)
    ensures var r := KeepOthers(all, refs, s); References(|all|, r) && NoAlias(r)
  {
    if refs != [] {
      KeepOthersNoAlias(all, refs[1..], s);
      var rest := KeepOthers(all, refs[1..], s);
      forall j | 0 <= j < |rest| ensures rest[j] != refs[0] {
        assert rest[j] in refs[1..];
      }
    }
  }

  lemma {:induction false} ValuesCons(all: seq<BackendValue>, x: nat, rest: seq<nat>)
    requires x < |all| && References(|all|, rest)
    ensures References(|all|, [x] + rest) && Values(all, [x] + rest) == [all[x]] + Values(all, rest)
  {
  }

  lemma {:induction false} KeepOthersRetains(all: seq<BackendValue>, refs: seq<nat>, s: Server)
    requires References(|all|, refs) && References(|all|, KeepOthers(all, refs, s))
    ensures Values(all, KeepOthers(all, refs, s)) == Retain(Values(all, refs), s)
  {
    if refs != [] {
      var x, rest := refs[0], refs[1..];
      assert refs == [x] + rest;
      ValuesCons(all, x, rest);
      var kept := KeepOthers(all, rest, s);
      forall i | 0 <= i < |kept| ensures kept[i] < |all| {
        assert kept[i] in rest;
      }
      KeepOthersRetains(all, rest, s);
      ValuesCons(all, x, kept);
      assert ([all[x]] + Values(all, rest))[1..] == Values(all, rest);
    }
  }

  ghost predicate Wellformed(l: Ledger) {
    && References(|l.all|, l.members) && NoAlias(l.members)
    && forall k :: k in l.pending ==> k < l.sent && l.pending[k] < |l.all|
  }

  function PoolOf(l: Ledger): Pool
    requires Wellformed(l)
  {
    Pool(Values(l.all, l.members), l.lastUsed)
  }

  function LedgerStep(l: Ledger, e: LedgerEvent): Ledger
    requires Wellformed(l)
  {
    match e
    case Enter(s) =>
      if Add(PoolOf(l), s).1 then l.(all := l.all + [Fresh(s)], members := l.members + [|l.all|]) else l
    case Expel(s) => l.(members := KeepOthers(l.all, l.members, s))
    case SetTo(s, st) =>
      (match Find(PoolOf(l).backends, s)
       case Some(i) => l.(all := SetStateAt(l.all, l.members[i], st))
       case None => l)
    case Send =>
      (match Get(PoolOf(l)).0
       case Some(i) => l.(lastUsed := i, pending := l.pending[l.sent := l.members[i]], sent := l.sent + 1)
       case None => l)
    case Arrive(k, o) =>
      if k in l.pending then
        l.(all := CountAt(l.all, l.pending[k], o),
        pending := l.pending - {k},
        completed := l.completed + 1)
      else l
  }

  lemma {:induction false} StepWellformed(l: Ledger, e: LedgerEvent)
    requires Wellformed(l)
    ensures Wellformed(LedgerStep(l, e))
  {
    if e.Expel? { KeepOthersNoAlias(l.all, l.members, e.server); }
  }

  /** The pool inside the ledger is the round-robin pool: each event does to it what the pool's own
      operation does, and the end of a request counts in the entry of its backend, if there is one. */
  ghost predicate Inside(l: Ledger, e: LedgerEvent, p: Pool, q: Pool)
    requires Wellformed(l) && |p.backends| == |l.members|
  {
    match e
    case Enter(s) => q == Add(p, s).0
    case Expel(s) => q == Remove(p, s)
    case Send => q == Get(p).1
    case SetTo(s, st) =>
      q == (match Find(p.backends, s)
            case Some(i) => p.(backends := SetStateAt(p.backends, i, st))
            case None => p)
    case Arrive(k, o) =>
      && |q.backends| == |p.backends| && q.lastUsed == p.lastUsed
      && forall i :: 0 <= i < |p.backends| ==>
           q.backends[i] == if k in l.pending && l.members[i] == l.pending[k]
                            then p.backends[i].(stats := Count(p.backends[i].stats, o))
                            else p.backends[i]
  }

  lemma {:induction false} EnterInside(l: Ledger, s: Server)
    requires Wellformed(l) && Wellformed(LedgerStep(l, Enter(s)))
    ensures Inside(l, Enter(s), PoolOf(l), PoolOf(LedgerStep(l, Enter(s))))
  {
    if Add(PoolOf(l), s).1 {
      assert PoolOf(LedgerStep(l, Enter(s))).backends == PoolOf(l).backends + [Fresh(s)];
    }
  }

  lemma {:induction false} SetInside(l: Ledger, s: Server, st: ServerState)
    requires Wellformed(l) && Wellformed(LedgerStep(l, SetTo(s, st)))
    ensures Inside(l, SetTo(s, st), PoolOf(l), PoolOf(LedgerStep(l, SetTo(s, st))))
  {
    var p, q := PoolOf(l), PoolOf(LedgerStep(l, SetTo(s, st)));
    var r := Find(p.backends, s);
    if r.Some? { assert q.backends == SetStateAt(p.backends, r.value, st); }
  }

  lemma {:induction false} PoolInside(l: Ledger, e: LedgerEvent)
    requires Wellformed(l)
    ensures Wellformed(LedgerStep(l, e)) && Inside(l, e, PoolOf(l), PoolOf(LedgerStep(l, e)))
  {
    StepWellformed(l, e);
    if e.Enter? {
      EnterInside(l, e.server);
    } else if e.Expel? {
      KeepOthersRetains(l.all, l.members, e.server);
    } else if e.SetTo? {
      SetInside(l, e.server, e.state);
    }
  }

  /** The ledger after `es`, starting from `l`. */
  function LedgerRun(l: Ledger, es: seq<LedgerEvent>): (r: Ledger)
    requires Wellformed(l)
    ensures Wellformed(r)
    decreases |es|
  {
    if es == [] then l
    else
      var front := LedgerRun(l, es[..|es| - 1]);
      StepWellformed(front, es[|es| - 1]);
      LedgerStep(front, es[|es| - 1])
  }

  function Total(all: seq<BackendValue>): nat {
    if all == [] then 0
    else
      var v := all[|all| - 1];
      Total(all[..|all| - 1]) + v.stats.success + v.stats.failure
  }

  lemma {:induction false} TotalSnoc(all: seq<BackendValue>, v: BackendValue)
    ensures Total(all + [v]) == Total(all) + v.stats.success + v.stats.failure
  {
    assert (all + [v])[..|all|] == all;
  }

  lemma {:induction false} TotalCount(all: seq<BackendValue>, i: nat, o: Outcome)
    requires i < |all|
    ensures Total(CountAt(all, i, o)) == Total(all) + 1
  {
    var n := |all| - 1;
    var front := all[..n];
    if i < n {
      TotalCount(front, i, o);
      assert CountAt(all, i, o)[..n] == CountAt(front, i, o);
    } else {
      assert CountAt(all, i, o)[..n] == front;
    }
  }

  lemma {:induction false} TotalState(all: seq<BackendValue>, i: nat, st: ServerState)
    ensures Total(SetStateAt(all, i, st)) == Total(all)
  {
    if all != [] {
      var n := |all| - 1;
      TotalState(all[..n], i, st);
      assert SetStateAt(all, i, st)[..n] == SetStateAt(all[..n], i, st);
    }
  }

  ghost predicate Balanced(l: Ledger) {
    Total(l.all) == l.completed && l.sent == l.completed + |l.pending|
  }

  lemma {:induction false} BalancedStep(l: Ledger, e: LedgerEvent)
    requires Wellformed(l) && Balanced(l)
    ensures Balanced(LedgerStep(l, e))
  {
    if e.Enter? {
      TotalSnoc(l.all, Fresh(e.server));
    } else if e.SetTo? {
      var r := Find(PoolOf(l).backends, e.server);
      if r.Some? { TotalState(l.all, l.members[r.value], e.state); }
    } else if e.Arrive? && e.request in l.pending {
      assert l.pending == (l.pending - {e.request})[e.request := l.pending[e.request]];
      TotalCount(l.all, l.pending[e.request], e.outcome);
    }
  }

  /** Over every interleaving from the start, successes and failures summed over all backends ever
      created count the completed requests exactly, and what was sent is completed or in progress. */
  lemma {:induction false} Conservation(es: seq<LedgerEvent>)
    ensures Balanced(LedgerRun(BLANK, es))
  {
    if es != [] {
      Conservation(es[..|es| - 1]);
      BalancedStep(LedgerRun(BLANK, es[..|es| - 1]), es[|es| - 1]);
    }
  }

  lemma {:induction false} StepIdentity(l: Ledger, e: LedgerEvent, j: nat)
    requires Wellformed(l) && j < |l.all|
    ensures var b := LedgerStep(l, e).all; j < |b| && b[j].server == l.all[j].server
  {
  }

  /** A backend keeps its number and its server for good. */
  lemma {:induction false} IdentityStays(l: Ledger, es: seq<LedgerEvent>, j: nat)
    requires Wellformed(l) && j < |l.all|
    ensures var b := LedgerRun(l, es).all; j < |b| && b[j].server == l.all[j].server
    decreases |es|
  {
    if es != [] {
      IdentityStays(l, es[..|es| - 1], j);
      StepIdentity(LedgerRun(l, es[..|es| - 1]), es[|es| - 1], j);
    }
  }

  /** The backend that a request sent now is given: the one in the slot that the pool selects. */
  function Chosen(l: Ledger): Option<nat>
    requires Wellformed(l)
  {
    match Get(PoolOf(l)).0
    case Some(i) => Some(l.members[i])
    case None => None
  }

  ghost predicate Ends(es: seq<LedgerEvent>, k: nat) {
    exists o :: Arrive(k, o) in es
  }

  /** Request `k` was sent, and is in progress with backend `i` unless it has ended. */
  ghost predicate Carries(l: Ledger, k: nat, i: nat, ended: bool) {
    && k < l.sent && (k in l.pending <==> !ended)
    && (k in l.pending ==> l.pending[k] == i)
  }

  lemma {:induction false} CarriesStep(l: Ledger, e: LedgerEvent, k: nat, i: nat, ended: bool)
    requires Wellformed(l) && Carries(l, k, i, ended)
    ensures Carries(LedgerStep(l, e), k, i, ended || (e.Arrive? && e.request == k))
  {
  }

  lemma {:induction false} CarriesRun(l: Ledger, es: seq<LedgerEvent>, k: nat, i: nat)
    requires Wellformed(l) && Carries(l, k, i, false)
    ensures Carries(LedgerRun(l, es), k, i, Ends(es, k))
    decreases |es|
  {
    if es != [] {
      var front, e := es[..|es| - 1], es[|es| - 1];
      CarriesRun(l, front, k, i);
      CarriesStep(LedgerRun(l, front), e, k, i, Ends(front, k));
      assert es == front + [e];
      if e.Arrive? && e.request == k { assert e == Arrive(k, e.outcome) && e in es; }
    }
  }

  /** Only backend `i` changed, by one count for `o`. */
  ghost predicate CountedOnly(a: seq<BackendValue>, b: seq<BackendValue>, i: nat, o: Outcome) {
    && i < |a| == |b|
    && b[i] == a[i].(stats := Count(a[i].stats, o))
    && forall j :: 0 <= j < |a| && j != i ==> b[j] == a[j]
  }

  /** Follow one request from the moment it is sent through every continuation, removals included.  It
      is in progress until its own end and never again after, with the backend that was chosen for it;
      its end adds one to one counter of that backend and touches no other, and a second end does
      nothing. */
  lemma {:induction false} ArrivalHitsChosen(l: Ledger, es: seq<LedgerEvent>, o: Outcome)
    requires Wellformed(l) && Chosen(l).Some?
    ensures Wellformed(LedgerStep(l, Send))
    ensures var k, i, m := l.sent, Chosen(l).value, LedgerRun(LedgerStep(l, Send), es);
      && i < |l.all| && l.all[i].IsActive()
      && i < |m.all| && m.all[i].server == l.all[i].server
      && (k in m.pending <==> !Ends(es, k))
      && (if Ends(es, k) then LedgerStep(m, Arrive(k, o)) == m
          else m.pending[k] == i && CountedOnly(m.all, LedgerStep(m, Arrive(k, o)).all, i, o))
  {
    StepWellformed(l, Send);
    var sent := LedgerStep(l, Send);
    CarriesRun(sent, es, l.sent, Chosen(l).value);
    IdentityStays(sent, es, Chosen(l).value);
  }

  // ---- conservation, backend by backend

  /** The requests in progress with backend `i`. */
  function With(pending: map<nat, nat>, i: nat): set<nat> {
    set k | k in pending && pending[k] == i
  }

  /** How many requests were given to backend `i` along a run. */
  function Given(l: Ledger, es: seq<LedgerEvent>, i: nat): nat
    requires Wellformed(l)
    decreases |es|
  {
    if es == [] then 0
    else
      var front, e := es[..|es| - 1], es[|es| - 1];
      Given(l, front, i) + if e.Send? && Chosen(LedgerRun(l, front)) == Some(i) then 1 else 0
  }

  function CountOf(all: seq<BackendValue>, i: nat): nat {
    if i < |all| then all[i].stats.success + all[i].stats.failure else 0
  }

  ghost predicate Settles(l: Ledger, i: nat, given: nat) {
    given == CountOf(l.all, i) + |With(l.pending, i)|
  }

  lemma {:induction false} OneMoreWith(pending: map<nat, nat>, k: nat, x: nat, i: nat)
    requires k !in pending
    ensures |With(pending[k := x], i)| == |With(pending, i)| + if x == i then 1 else 0
  {
    assert With(pending[k := x], i) == With(pending, i) + if x == i then {k} else {};
  }

  lemma {:induction false} SettlesSend(l: Ledger, i: nat, given: nat)
    requires Wellformed(l) && Settles(l, i, given)
    ensures Settles(LedgerStep(l, Send), i, given + if Chosen(l) == Some(i) then 1 else 0)
  {
    if Chosen(l).Some? { OneMoreWith(l.pending, l.sent, Chosen(l).value, i); }
  }

  lemma {:induction false} SettlesArrive(l: Ledger, k: nat, o: Outcome, i: nat, given: nat)
    requires Wellformed(l) && Settles(l, i, given)
    ensures Settles(LedgerStep(l, Arrive(k, o)), i, given)
  {
    if k in l.pending {
      assert With(l.pending - {k}, i) == With(l.pending, i) - {k};
    }
  }

  lemma {:induction false} SettlesStep(l: Ledger, e: LedgerEvent, i: nat, given: nat)
    requires Wellformed(l) && Settles(l, i, given)
    ensures Settles(LedgerStep(l, e), i, given + if e.Send? && Chosen(l) == Some(i) then 1 else 0)
  {
    if e.Send? {
      SettlesSend(l, i, given);
    } else if e.Arrive? {
      SettlesArrive(l, e.request, e.outcome, i, given);
    }
  }

  /** Over every interleaving, each backend ever created has counted exactly the requests it was
      given, less those it still has in progress. */
  lemma {:induction false} BackendConservation(es: seq<LedgerEvent>, i: nat)
    ensures var l := LedgerRun(BLANK, es);
      CountOf(l.all, i) + |With(l.pending, i)| == Given(BLANK, es, i)
  {
    if es != [] {
      var front, e := es[..|es| - 1], es[|es| - 1];
      BackendConservation(front, i);
      SettlesStep(LedgerRun(BLANK, front), e, i, Given(BLANK, front, i));
    }
  }

  // ---- each counter on its own

  /** How many requests given to backend `i` ended along a run with a failed connection or a 5xx
      response (`badly`), or in any other way. */
  function Ended(l: Ledger, es: seq<LedgerEvent>, i: nat, badly: bool): nat
    requires Wellformed(l)
    decreases |es|
  {
    if es == [] then 0
    else
      var front, e := es[..|es| - 1], es[|es| - 1];
      Ended(l, front, i, badly) + if EndsAt(LedgerRun(l, front), e, i, badly) then 1 else 0
  }

  predicate EndsAt(l: Ledger, e: LedgerEvent, i: nat, badly: bool) {
    && e.Arrive? && e.request in l.pending && l.pending[e.request] == i
    && badly == (e.outcome == Failed || 500 <= e.outcome.status < 600)
  }

  function CounterOf(all: seq<BackendValue>, i: nat, badly: bool): nat {
    if i >= |all| then 0 else if badly then all[i].stats.failure else all[i].stats.success
  }

  lemma {:induction false} CounterStep(l: Ledger, e: LedgerEvent, i: nat, badly: bool)
    requires Wellformed(l)
    ensures CounterOf(LedgerStep(l, e).all, i, badly) ==
            CounterOf(l.all, i, badly) + if EndsAt(l, e, i, badly) then 1 else 0
  {
  }

  lemma {:induction false} CounterRun(es: seq<LedgerEvent>, i: nat, badly: bool)
    ensures CounterOf(LedgerRun(BLANK, es).all, i, badly) == Ended(BLANK, es, i, badly)
  {
    if es != [] {
      CounterRun(es[..|es| - 1], i, badly);
      CounterStep(LedgerRun(BLANK, es[..|es| - 1]), es[|es| - 1], i, badly);
    }
  }

  /** Over every interleaving each backend's failure counter is the number of its requests that ended
      with a failed connection or a 5xx response, and its success counter the number of the others. */
  lemma {:induction false} CounterConservation(es: seq<LedgerEvent>, i: nat)
    requires i < |LedgerRun(BLANK, es).all|
    ensures var stats := LedgerRun(BLANK, es).all[i].stats;
      stats.failure == Ended(BLANK, es, i, true) && stats.success == Ended(BLANK, es, i, false)
  {
    CounterRun(es, i, true);
    CounterRun(es, i, false);
  }
}
