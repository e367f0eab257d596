# Weldr in Dafny

Weldr is a reverse proxy made of one manager process and several worker processes. The manager owns
a pool of servers, checks their health and publishes every change of the pool to the workers; each
worker replays the changes into its own round-robin pool and dispatches requests from it. This
project models that core and proves what holds over every run of it.

Check everything with `dafny verify dfyconfig.toml`.

## How the model is laid out

- `RoundRobin.dfy`: the pool as a value. `Get` says "first active entry in cyclic order after the
  cursor" without a loop; `ScanAfter` is the scan loop one iteration at a time.
- `PoolRuns.dfy`, `Fairness.dfy`, `Ledger.dfy`: whole runs of one pool (starvation, termination,
  uniqueness), exact fairness, and request accounting with backend identity.
- `Health.dfy`: the health counters of one backend against a reference that counts consecutive
  results on the history. `Fleet.dfy`: all backends of the manager with the one table they share.
- `Worker.dfy`: the replay of messages in a worker. `Cluster.dfy`: manager, subscribers and workers as one
  state machine. `Replication.dfy`, `EndToEnd.dfy`: what workers then hold and dispatch to.
  `Divergence.dfy`, `Exchanges.dfy`, `Reposts.dfy`: where their lists depart from the manager's, and which
  postings open the way to that. `Deliveries.dfy`, `Repair.dfy`: what becomes of messages that are sent,
  and how a lost mark, but not a lost posting, is made up for.
- `PoolObjects.dfy`, `WorkerObjects.dfy`, `ManagerObjects.dfy`: the same operations as classes with
  the program's mutable fields; each method is proved to do to the object what the value function
  does to its view.
- `Proxy.dfy`: header rewriting, after sections 5.7.1 and 6.1 of RFC 7230.

## Modelling decisions

- Weldr runs on single-threaded event loops, so each callback is one atomic event and any order of
  events is a run. An event that is not possible in a state changes nothing.
- The counter table is a hash map whose key is a backend, and a backend's hash and equality cover its
  own state. After a change of state a lookup may find the old entry (`Kept`), none (`Reset`) or the
  entry left from the last time in that state (`Restored`); all three are allowed at every change. An
  absent entry reads as `Passing(0)`, which is what is inserted for it.
- In src/mgmt/health.rs:38-40 the key of an entry is the cell of the backend that inserted it. Where
  several backends are for one server, each change of state of one of them may hide its entries from the
  others or bring them back. The event `Aliased` therefore lets a lookup for any of them find any entry
  that was ever stored, or none, at any time; every result about runs covers it. It is something that the
  hash map does between callbacks, so no method of `ManagerObjects` stands for it.
- Messages to one subscriber arrive in the order sent, and a request succeeds only after its message
  arrived. Failures may strike any request that has not ended, delivered or not.
- `log`, `views`, `joined` and `missed` in `Cluster` are a record of what happened and steer nothing.
- Counters, ids and cursors are unbounded. `CounterBound` shows the health counters cannot overflow.
- A header map holds each name once, up to case, in order; that is an invariant of the HTTP library.
- URLs are values with equality; whether a health check URL parses, how Connection options are read
  and how a Via line is read are parameters.

## Where the code does less than its documentation

- The comment on `Pool::add` says a server cannot be added twice. It can, once every copy has been
  marked down or has served a request (`AddBoundary`, `UniquenessBoundary`). Posting a server again
  brings a down server back into service, out of reach of later marks (`PostingAgainRevives`,
  `RevivalBoundary`, `BehindIsOutOfReach`), can make a worker's list differ from every list the manager
  had (`RepostDiverges`; `PrefixBoundary` says exactly in which runs, `PostBoundary` after exactly which
  postings), and lets two backends count into one entry (`SharedEntryMiscounts`, with `AloneBoundary` and
  `DistinctBoundary` for the exact condition).
- `remove` does not move the cursor, and a later `get` may never return (`RemovalCanHang`).
  `HangBoundary` says that a pool can still come to that, without another removal, exactly when its
  cursor is out of range, and `RemovalBoundary` after which removals it is.
- Thresholds below two do not act as configured: all thresholds do on every history exactly when both are
  at least two (`ConfiguredBoundary`). Below, they act as two when the counter entry is kept, and
  otherwise the outcome depends on the hash map (`IndependenceBoundary`).
- The response filter leaves the Connection header and the headers it nominates in place
  (`NominatedGoesThrough`), against section 6.1 of RFC 7230; it does what that section asks for exactly
  when the response has no Connection header (`ResponseBoundary`).
- A request with several Via lines loses all its earlier Via entries (`TwoLinesLost`), against section
  5.7.1, if Via is read as a single line, which is how the program declares it; the entries are kept
  exactly when they come in at most one line, or all lines are empty (`ViaBoundary`).

## Model

| member | source | states |
|---|---|---|
| RoundRobin.NextIsFirst | src/pool.rs:163-188 | an index is selected exactly when it is active and everything passed on the way from the cursor is down; nothing is selected exactly when all are down |
| RoundRobin.ScanMeetsGet | src/pool.rs:163-188 | wherever the scan ends, it ends within one lap with exactly the selection and the cursor that the loop-free definition gives |
| RoundRobin.TerminationBoundary | src/pool.rs:169-187 | the scan halts after some number of iterations if and only if the cursor is in range or some backend is active |
| RoundRobin.RetainInOrder | src/pool.rs:210-212 | a removal keeps every entry for another server, each once and in the order they had, and nothing else |
| Fairness.EachOncePerLap | src/pool.rs:163-188 | with k active backends any k consecutive calls return each of them exactly once, from any cursor |
| Fairness.ExactFairness | src/pool.rs:163-188 | over m calls each active backend is returned floor(m/k) or ceil(m/k) times and no other at all |
| PoolRuns.StarvationFreedom | src/pool.rs:163-208 | between two dispatches to one backend every other backend present and active throughout is dispatched, whatever is added or changed meanwhile |
| PoolRuns.NoRemovalsNoHang | src/pool.rs:163-208 | in every run without removals the cursor stays in range and every scan ends |
| PoolRuns.RemovalCanHang | src/pool.rs:210-212 | a concrete run whose last step is a removal and after which the scan goes on for every number of iterations |
| PoolRuns.HangBoundary | src/pool.rs:163-188 | some run without further removals ends in a scan that never halts if and only if the cursor is out of range now |
| PoolRuns.RemovalBoundary | src/pool.rs:210-212 | a removal opens the way to a scan that never halts, at once or after later additions and mark-downs, exactly when it leaves no more entries than the number of the cursor's slot and that slot is not the first |
| PoolRuns.AddBoundary | src/pool.rs:200-208 | `add` accepts exactly when every entry for the server is down or has served; the list stays free of duplicates exactly when the server was absent or `add` refused |
| PoolRuns.ServedIsAddedAgain | src/pool.rs:61-67 | a concrete run: a server that has served one request, however it ended, is accepted a second time |
| PoolRuns.UniquenessBoundary | src/pool.rs:61-67 | over every run well-timed additions keep servers pairwise distinct, and without removals only those do |
| PoolRuns.AlwaysDistinctBoundary | src/pool.rs:61-67 | over every run, removals included, servers are pairwise distinct at every moment if and only if every addition met an absent server or a fresh entry |
| Ledger.PoolInside | src/pool.rs:27-54 | with backend identity, every operation does to the pool what the value model says, and the end of a request counts in its backend's entry if there is one |
| Ledger.Conservation | src/stats.rs:15-21 | over every interleaving successes plus failures over all backends ever created equal the completed requests, and sent equals completed plus pending |
| Ledger.BackendConservation | src/pool.rs:27-54 | over every interleaving each backend ever created has counted exactly the requests it was given less those still in progress with it |
| Ledger.CounterConservation | src/pool.rs:33-46 | over every interleaving each backend's failure counter is the number of its requests that ended with a failed connection or a status from 500 to 599, and its success counter the number of the others |
| Ledger.ArrivalHitsChosen | src/pool.rs:27-54 | a request followed from its dispatch through every continuation is in progress until its own end and not after, with the active backend chosen for it; its end adds one count to that backend and to nothing else, even if the backend was removed, and a second end does nothing |
| Health.StreakRefinement | src/mgmt/health.rs:36-106 | over every check history the counter machine has the state that the trailing run of results since the last change gives, with thresholds below two acting as two |
| Health.KeyMutationIndependence | src/mgmt/health.rs:36-106 | with both thresholds at least two, histories with equal results have equal states at every point, whatever the table does at each change |
| Health.IndependenceBoundary | src/mgmt/health.rs:36-106 | that independence holds for all histories if and only if both thresholds are at least two |
| Health.ConfiguredBoundary | src/config.rs:17-33 | the state is the one that the configured thresholds call for on every history if and only if both are at least two |
| Health.DefaultAsDocumented | src/config.rs:24-33 | with the default thresholds a server goes down after three consecutive failures and comes back after two consecutive passes, on every history |
| Health.FlapBound | src/mgmt/health.rs:144-170 | t changes of state take at least ceil(t/2)*failures + floor(t/2)*passes completed checks |
| Fleet.Alternation | src/mgmt/health.rs:122-170 | in every run, duplicates with aliased entries and invalid check URLs included, the marks published for a backend alternate down, active, down, and fix its state |
| Fleet.CounterBound | src/mgmt/health.rs:53-102 | in every run, duplicates with aliased entries included, no counter that is ever stored exceeds its threshold less one, or one |
| Fleet.Projection | src/mgmt/health.rs:109-175 | a backend that is the only one for its server has the state and the entries in the shared table that its own checks alone produce |
| Fleet.FleetFollowsStreaks | src/mgmt/health.rs:109-175 | over every run a checked backend that is the only one for its server is down or active as the consecutive results of its own checks say |
| Fleet.AloneBoundary | src/mgmt/health.rs:36-106 | with thresholds of at least two, a checked backend stands as its own results say after every continuation without posts if and only if no other backend is for the same server |
| Fleet.DistinctBoundary | src/pool.rs:87-105 | the same for the whole fleet, whose check URLs are valid: all backends keep to their own checks in every continuation without posts if and only if the servers are pairwise distinct |
| Fleet.SharedEntryMiscounts | src/pool.rs:87-105 | for every configuration with thresholds of at least two, posting a server, letting its checks take it down and posting it again leads to a backend that its own results do not account for |
| Worker.WorkerNeverHangs | src/mgmt/worker.rs:32-99 | over every mix of messages and requests a worker's scan ends |
| Worker.EntryFollowsLastMark | src/mgmt/worker.rs:50-98 | the only entry for a server stands as the last mark delivered for it says, through any other messages and requests |
| Worker.MarkDownBoundary | src/mgmt/worker.rs:50-73 | a mark-down silences a server exactly when every entry but the first was down already; with distinct servers always |
| Worker.DownMeansUndispatched | src/mgmt/worker.rs:50-98 | after a mark-down no request reaches the server until it is marked active or posted again |
| Worker.RevivalBoundary | src/mgmt/worker.rs:33-98 | a server that is down in a pool stays down, over any events but its mark-active, if and only if it is not posted again |
| Worker.BehindIsOutOfReach | src/mgmt/worker.rs:50-98 | an active entry behind another one for the same server is never taken out of service by any messages and requests |
| Worker.ReachedWhenActive | src/pool.rs:163-188 | some number of further requests reaches a server exactly when an entry for it is active |
| Worker.PostingAgainRevives | src/mgmt/worker.rs:33-48 | further requests reach a server that was down and not marked active again exactly when it was posted again |
| Cluster.InFlightAccounting | src/mgmt/manager.rs:252-284 | in every reachable state a subscriber's counter is its number of uncompleted requests, between zero and five, and the next id is unused |
| Cluster.SkippedExactlyAtFive | src/mgmt/manager.rs:252-258 | in every reachable state a publication is queued for a subscriber exactly when fewer than five of its requests are open, and is otherwise lost to it |
| Cluster.DepartedStaysOut | src/mgmt/manager.rs:164-211 | an id that left never appears among the subscribers again |
| Deliveries.DepartureIsFinal | src/mgmt/manager.rs:265-280 | in every run a dropped subscription, and a failed request whether delivered or not, takes the id out of the subscribers for good, and nothing more is sent to it in any continuation |
| Cluster.LateCompletion | src/mgmt/manager.rs:265-280 | a completion for an id that left changes no counter and no other worker, however much later it arrives |
| Replication.PrefixConsistency | src/mgmt/api.rs:116-128 | where no URL is posted twice, a worker that missed nothing since it subscribed holds exactly the manager's list after the log less its queue, less the entries the manager had when it subscribed; a worker that subscribed first and has an empty queue holds the manager's list |
| Divergence.PrefixBoundary | src/mgmt/worker.rs:33-98 | reposts included, a worker that missed nothing since it subscribed has at every moment of a run the manager's list after what it has replayed, less what the manager had when it subscribed, if and only if every delivered posting was taken by both or refused by both and every delivered mark was for the first entry the worker has for that server, or changed nothing when it was for an entry the worker lacks |
| Divergence.RepostDiverges | src/mgmt/api.rs:116-128 | a concrete run without losses after which the worker's list is none the manager ever had |
| Reposts.OnePostDiverges | src/mgmt/api.rs:116-128 | in every run, reposts included, a subscribed worker without losses that has an entry for a server is put out of step by some continuation without losses that posts at most that server, once |
| Reposts.PostBoundary | src/mgmt/api.rs:116-128 | after a run in which nothing was posted twice, at most one posting of a server can put a subscribed worker without losses out of step if and only if the server was posted since the worker joined, or was posted before and is active at the manager or still checked |
| Deliveries.MessageConservation | src/mgmt/manager.rs:252-284 | over every run each message sent to a worker was delivered, was lost with its request or is waiting, exactly as often as it was sent |
| Deliveries.HoldsExactlyDelivered | src/mgmt/worker.rs:33-48 | over every run a worker has an entry for a server if and only if some posting of it was delivered to the worker |
| Deliveries.SkippedAddIsNotRepaired | src/mgmt/manager.rs:252-254 | a worker whose subscriber had five requests open at every posting of a server has no entry for it and sends it no request, whatever else it was sent |
| Replication.NoSnapshot | src/mgmt/manager.rs:188-211 | in every run, losses and reposts included, every server in a worker's pool was posted after that worker subscribed; what exactly a worker without losses then holds is `PrefixConsistency` |
| Repair.SkippedMarkIsRepaired | src/mgmt/manager.rs:296-298 | where no URL is posted twice, whatever a worker missed before: once a mark for a server was accepted for it and delivered, and nothing more was published about the server, its entry has the state that the manager's has |
| EndToEnd.WorkersFollowChecks | src/mgmt/health.rs:139-171 | end to end, each entry of a worker that has missed nothing since it subscribed and has caught up belongs to a backend of the manager, is active or down as the results of that backend's checks say, and is dispatched to only if they call for it |
| EndToEnd.NoWorkerHangs | src/pool.rs:163-188 | in every reachable state of the whole system every worker's scan ends |
| EndToEnd.WorkersAreFair | src/pool.rs:163-188 | in every reachable state of the whole system any k requests in a row to a worker with k active entries are given each of them exactly once |
| EndToEnd.WorkerCounters | src/pool.rs:33-46 | over every run of the whole system the counters of a worker's entry are the numbers of its requests that ended badly and otherwise |
| PoolObjects.InnerPool.Scan | src/pool.rs:169-187 | the loop leaves the cursor and returns the backend that the scan machine halts with |
| PoolObjects.InnerPool.Get | src/pool.rs:163-188 | selects what the value model selects and changes nothing but the cursor |
| PoolObjects.Contains | src/pool.rs:202-204 | true exactly when some backend equals this one in server, state and counters |
| PoolObjects.InnerPool.Add | src/pool.rs:200-208 | new view and result are those of the value model; an accepted backend is a new object at the end |
| PoolObjects.InnerPool.Remove | src/pool.rs:210-212 | keeps exactly the entries of other servers in order and leaves the cursor |
| PoolObjects.InnerPool.Find | src/pool.rs:214-219 | returns the first entry for the server, or none when there is none |
| PoolObjects.Backend.Finish | src/pool.rs:33-46 | a status from 500 to 599 or a failed connection adds one to the failure counter, anything else one to the success counter, and the other counter stays |
| WorkerObjects.SubscriberImpl.AddServer | src/mgmt/worker.rs:33-48 | the pool becomes what the replay of a new-server message makes of it |
| WorkerObjects.SubscriberImpl.MarkServerDown | src/mgmt/worker.rs:50-73 | the pool becomes what the replay of a mark-down makes of it |
| WorkerObjects.SubscriberImpl.MarkServerActive | src/mgmt/worker.rs:75-98 | the pool becomes what the replay of a mark-active makes of it |
| PublisherObjects.SubscriberMap.Publish | src/mgmt/manager.rs:247-285 | every subscriber with fewer than five requests open is handed the message after the earlier ones and has one more request open, every other handle is as it was, in any visiting order |
| PublisherObjects.SubscriberMap.Completed | src/mgmt/manager.rs:265-280 | success takes one from the id's counter if it is still there, failure removes the id |
| PublisherObjects.SubscriptionImpl.Drop | src/mgmt/manager.rs:164-169 | removes the id and nothing else |
| PublisherObjects.PublisherImpl.Subscribe | src/mgmt/manager.rs:188-211 | enters the next id with no open request and moves the id on |
| ManagerObjects.BackendHealth.ShouldMarkActive | src/mgmt/health.rs:36-70 | decision and new entry are those of the counter machine, no other entry changes |
| ManagerObjects.BackendHealth.ShouldMarkDown | src/mgmt/health.rs:72-106 | decision and new entry are those of the counter machine, no other entry changes |
| ManagerObjects.Manager.AddServer | src/mgmt/api.rs:116-128 | the pool takes the server or not, and either way the new server is handed to every subscriber with fewer than five requests open |
| ManagerObjects.AnnouncedHandsOver | src/mgmt/manager.rs:247-285 | whatever the manager does, its table of subscribers follows the cluster: the same counters, and to each connection the messages queued for that subscriber, in order |
| ManagerObjects.SweepHandsOver | src/mgmt/health.rs:109-134 | the same for a whole round |
| ManagerObjects.Manager.CheckCompleted | src/mgmt/health.rs:139-171 | decision, mark and publication are one step of the fleet machine; the new state is handed to the subscribers exactly when the state changed |
| ManagerObjects.Manager.Visit | src/mgmt/health.rs:116-134 | a backend with an invalid check URL is marked down and published if it was active, otherwise a check starts |
| ManagerObjects.Manager.Round | src/mgmt/health.rs:109-134 | the loop over all backends takes them in order, each with its publication |
| ManagerObjects.SweepEffect | src/mgmt/health.rs:116-134 | a round takes exactly the backends with an invalid check URL out of service and leaves the counters alone |
| Proxy.FilterFrontendRequestHeaders | src/proxy.rs:68-100 | the removal loop and the fixed removals equal the declarative filter |
| Proxy.PassedOn | src/proxy.rs:68-100 | a header is passed on exactly when no Connection option nominates it and the fixed list does not name it, up to case |
| Proxy.RequestPassedOn | src/proxy.rs:68-100 | with the actual names: a header passes exactly when it is none of the six and no option read from Connection nominates it, where close nominates Close, keep-alive Keep-Alive, and any other option the header of that name, up to case |
| Proxy.WithoutInOrder | src/proxy.rs:68-128 | the headers that pass keep their order and lines, each once |
| Proxy.SameUpToCase | src/proxy.rs:68-128 | header names are compared up to the case of letters |
| Proxy.FilterIdempotent | src/proxy.rs:68-100 | filtering a request twice is filtering it once, with the actual names |
| Proxy.FilterBackendResponseHeaders | src/proxy.rs:119-128 | equals the filter by the four fixed response names |
| Proxy.ResponsePassedOn | src/proxy.rs:119-128 | exactly the headers with none of the four names pass |
| Proxy.ResponseBoundary | src/proxy.rs:119-128 | the Connection header of a response always passes as it is, and the filter does what section 6.1 of RFC 7230 asks for if and only if there is none |
| Proxy.NominatedGoesThrough | src/proxy.rs:119-128 | a response whose Connection header nominates another header: both pass, where section 6.1 lets neither pass |
| Proxy.MapRequestHeaders | src/proxy.rs:106-117 | the outgoing headers are the filtered ones with one Via line: the text read from the incoming Via, if any, and then the received version and the name |
| Proxy.OutgoingText | src/proxy.rs:41-62 | what is written is the incoming text, if any, a comma, and "0.9 weldr", "1.0 weldr", "1.1 weldr" or "2 weldr" for the received version |
| Proxy.StrippingReadsOwnVia | src/proxy.rs:20-35 | a reader that takes one non-empty line and strips the spaces around it reads back every Via line the proxy writes, as `ViaRecordsHops` asks |
| Proxy.ViaRecordsHops | src/proxy.rs:27-62 | after any number of hops Via reads as the text that was read originally followed by one entry per hop in order, even when Connection names Via, for every reader that reads back the lines the proxy writes |
| Proxy.ViaBoundary | src/proxy.rs:106-114 | with a reader of one line, after one or more hops Via lists all original entries followed by one entry per hop if and only if the request had at most one Via line or only empty ones; otherwise it lists the hops alone |
| Proxy.TwoLinesLost | src/proxy.rs:106-114 | a request with two Via lines leaves with the proxy's own entry alone |
| Proxy.LaterHopsKeepTheRest | src/proxy.rs:106-117 | apart from Via, further hops leave a request's headers as the first hop left them, and Connection stays away |

## Left out

- PoolObjects.InnerPool.Scan: may be called only where the scan ends, for the same reason as `Get`.
- PoolObjects.InnerPool.Get: may be called only where the scan ends, because elsewhere the program loops forever; `RoundRobin.TerminationBoundary` proves both directions.
- Cluster.ClusterStep: a request that a worker ends may count in any of its entries, which includes every real run; the accounting per request is in `Ledger`.
- Fleet.AloneBoundary: is for thresholds of at least two; below, what a lone backend does depends on the hash map (`IndependenceBoundary`).
- Sockets, the event loop, timers, TLS, HTTP clients and servers: input and output.
- The RPC encoding and connection set-up, process forking, signal and error logging.
- The management API's JSON bodies, links and routing; its DELETE route changes no pool.
- URL parsing and the panic on an unparsable posted URL; the rewriting of the Host header and of the request URL.
- The hash function and bucket layout of the counter table, and integer widths other than the health counters.
- The HTTP library's reading of header lines; `ViaBoundary` is about a reader as `Strips` describes it, of one line and its surrounding spaces.
- Getters and configuration records on their own.
