/** The manager's side of health checking: all its backends, one shared counter table keyed by the
    backend's value, and the marks it publishes.  Every event is one callback, which runs to its
    end before the next one starts. */
module Fleet {
  import opened Types
  import opened Health
  import opened RoundRobin
  import opened PoolRuns

  /** The health check settings; `validUrl` says whether a server's check URL parses. */
  datatype Config = Config(thresholds: Thresholds, validUrl: Url -> bool)

  datatype Mark = Mark(index: nat, state: ServerState)

  /** `table` holds what a lookup under each value finds; `stored` records every value that an entry ever
      got. */
  datatype Fleet = Fleet(backends: seq<BackendValue>, table: map<BackendValue, HealthState>,
                         stored: set<HealthState>, marks: seq<Mark>)

  const NONE := Fleet([], map[], {}, [])

  datatype FleetEvent =
    | Post(url: Url)                        // a server is posted to the management API
    | Completed(index: nat, check: Check)   // a health check of one backend ends
    | Rejected(index: nat)                  // a round meets a backend whose check URL is invalid
    | Aliased(index: nat, found: HealthState)   // see `Enabled`

  /** No other backend is for the server of backend `i`. */
  predicate Alone(b: seq<BackendValue>, i: nat) {
    i < |b| ==> forall j :: 0 <= j < |b| && j != i ==> b[j].server != b[i].server
  }

  function Lookup(table: map<BackendValue, HealthState>, v: BackendValue): HealthState {
    if v in table then table[v] else Passing(0)
  }

  /** What lookups under the new value find after a change of state. */
  function Rekey(table: map<BackendValue, HealthState>, v: BackendValue, h: HealthState, fate: Fate):
    map<BackendValue, HealthState>
  {
    match fate
    case Kept => table[v := h]
    case Reset => table - {v}
    case Restored => table
  }

  function MarkAt(f: Fleet, i: nat, st: ServerState): Fleet
    requires i < |f.backends|
  {
    f.(backends := SetStateAt(f.backends, i, st), marks := f.marks + [Mark(i, st)])
  }

  function Complete(th: Thresholds, f: Fleet, i: nat, c: Check): Fleet
    requires i < |f.backends|
  {
    var v := f.backends[i];
    var (h, change) := After(th, v.state, Lookup(f.table, v), c.passed);
    var g := f.(table := f.table[v := h], stored := f.stored + {h});
    if !change then g
    else
      var st := if c.passed then Active else Down;
      MarkAt(g.(table := Rekey(g.table, v.(state := st), h, c.fate)), i, st)
  }

  /** The key of an entry is the cell of the backend that inserted it.  Where several backends are for one
      server, each change of state of one of them may hide its entries from the others or bring them
      back, so a lookup for any of them may find any entry that was ever stored, or none. */
  predicate Enabled(cfg: Config, f: Fleet, e: FleetEvent) {
    match e
    case Post(_) => true
    case Completed(i, _) => i < |f.backends| && cfg.validUrl(f.backends[i].server.url)
    case Rejected(i) => i < |f.backends| && !cfg.validUrl(f.backends[i].server.url)
    case Aliased(i, h) => i < |f.backends| && !Alone(f.backends, i) && (h in f.stored || h == Passing(0))
  }

  function FleetStep(cfg: Config, f: Fleet, e: FleetEvent): Fleet {
    if !Enabled(cfg, f, e) then f
    else match e
      case Post(u) => f.(backends := Add(Pool(f.backends, 0), Named(u)).0.backends)
      case Completed(i, c) => Complete(cfg.thresholds, f, i, c)
      case Rejected(i) => if f.backends[i].IsActive() then MarkAt(f, i, Down) else f
      case Aliased(i, h) => f.(table := f.table[f.backends[i] := h])
  }

  function FleetRun(cfg: Config, es: seq<FleetEvent>): Fleet {
    if es == [] then NONE else FleetStep(cfg, FleetRun(cfg, es[..|es| - 1]), es[|es| - 1])
  }

  lemma {:induction false} FleetRunSnoc(cfg: Config, es: seq<FleetEvent>, e: FleetEvent)
    ensures FleetRun(cfg, es + [e]) == FleetStep(cfg, FleetRun(cfg, es), e)
  {
    assert (es + [e])[..|es|] == es;
  }

  // ---- what every step does to one backend

  /** Only a down backend is marked active and only an active one is marked down. */
  lemma {:induction false} ChangeIsOpposite(th: Thresholds, st: ServerState, h: HealthState, passed: bool)
    ensures After(th, st, h, passed).1 ==> (if passed then Active else Down) == Opposite(st)
  {
  }

  lemma {:induction false} StepKeepsBackend(cfg: Config, f: Fleet, e: FleetEvent, i: nat)
    requires i < |f.backends|
    ensures var g := FleetStep(cfg, f, e);
      && i < |g.backends|
      && g.backends[i].server == f.backends[i].server && g.backends[i].stats == f.backends[i].stats
  {
  }

  /** A step adds no mark and changes no state, or adds one mark and reverses that backend's state. */
  ghost predicate OneMark(f: Fleet, g: Fleet, m: Mark) {
    && g.marks == f.marks + [m] && m.index < |f.backends|
    && m.state == Opposite(f.backends[m.index].state)
    && g.backends == SetStateAt(f.backends, m.index, m.state)
  }

  lemma {:induction false} StepMarks(cfg: Config, f: Fleet, e: FleetEvent)
    ensures var g := FleetStep(cfg, f, e);
      if |g.marks| > |f.marks| then !e.Post? && OneMark(f, g, g.marks[|g.marks| - 1])
      else g.marks == f.marks && if e.Post? then f.backends <= g.backends else g.backends == f.backends
  {
    if Enabled(cfg, f, e) && e.Completed? {
      var v := f.backends[e.index];
      ChangeIsOpposite(cfg.thresholds, v.state, Lookup(f.table, v), e.check.passed);
    }
  }

  // ---- alternation

  function MarksOf(marks: seq<Mark>, i: nat): seq<ServerState> {
    if marks == [] then []
    else
      var m := marks[|marks| - 1];
      MarksOf(marks[..|marks| - 1], i) + if m.index == i then [m.state] else []
  }

  lemma {:induction false} MarksOfSnoc(marks: seq<Mark>, m: Mark, i: nat)
    ensures MarksOf(marks + [m], i) == MarksOf(marks, i) + if m.index == i then [m.state] else []
  {
    assert (marks + [m])[..|marks|] == marks;
  }

  /** Down, active, down, and so on. */
  ghost predicate Alternates(s: seq<ServerState>) {
    forall k :: 0 <= k < |s| ==> s[k] == StateAfter(k + 1)
  }

  ghost predicate AlternatesAt(f: Fleet, i: nat) {
    var s := MarksOf(f.marks, i);
    Alternates(s) && if i < |f.backends| then f.backends[i].state == StateAfter(|s|) else s == []
  }

  lemma {:induction false} MarkAlternates(f: Fleet, g: Fleet, m: Mark, i: nat)
    requires AlternatesAt(f, i) && OneMark(f, g, m)
    ensures AlternatesAt(g, i)
  {
    MarksOfSnoc(f.marks, m, i);
  }

  lemma {:induction false} PostAlternates(f: Fleet, s: Server, i: nat)
    requires AlternatesAt(f, i)
    ensures AlternatesAt(f.(backends := Add(Pool(f.backends, 0), s).0.backends), i)
  {
  }

  lemma {:induction false} AlternationStep(cfg: Config, f: Fleet, e: FleetEvent, i: nat)
    requires AlternatesAt(f, i)
    ensures AlternatesAt(FleetStep(cfg, f, e), i)
  {
    var g := FleetStep(cfg, f, e);
    StepMarks(cfg, f, e);
    if |g.marks| > |f.marks| {
      MarkAlternates(f, g, g.marks[|g.marks| - 1], i);
    } else if e.Post? {
      PostAlternates(f, Named(e.url), i);
    }
  }

  /** For every backend, in every run and under every behaviour of the table, the marks published
      for it alternate down, active, down, ..., and their number fixes its present state. */
  lemma {:induction false} Alternation(cfg: Config, es: seq<FleetEvent>, i: nat)
    ensures AlternatesAt(FleetRun(cfg, es), i)
  {
    if es != [] {
      Alternation(cfg, es[..|es| - 1], i);
      AlternationStep(cfg, FleetRun(cfg, es[..|es| - 1]), es[|es| - 1], i);
    }
  }

  // ---- counters stay small

  function Limit(threshold: nat): nat {
    if threshold < 2 then 1 else threshold - 1
  }

  predicate WithinLimit(th: Thresholds, h: HealthState) {
    h.count <= Limit(if h.Passing? then th.passes else th.failures)
  }

  ghost predicate CountersBounded(th: Thresholds, f: Fleet) {
    && (forall h :: h in f.stored ==> WithinLimit(th, h))
    && (forall v :: v in f.table ==> WithinLimit(th, f.table[v]))
  }

  /** No counter ever exceeds its threshold less one, or one, so none of them can overflow. */
  lemma {:induction false} CounterBound(cfg: Config, es: seq<FleetEvent>)
    ensures CountersBounded(cfg.thresholds, FleetRun(cfg, es))
  {
    if es != [] {
      CounterBound(cfg, es[..|es| - 1]);
      var f, e := FleetRun(cfg, es[..|es| - 1]), es[|es| - 1];
      if Enabled(cfg, f, e) && e.Completed? {
        var v := f.backends[e.index];
        assert WithinLimit(cfg.thresholds, After(cfg.thresholds, v.state, Lookup(f.table, v), e.check.passed).0);
      }
    }
  }

  // ---- each backend of a fleet with distinct servers is its own health machine

  /** The completed checks of backend `i`, in order. */
  function ChecksOf(cfg: Config, es: seq<FleetEvent>, i: nat): seq<Check> {
    if es == [] then []
    else
      var front, e := es[..|es| - 1], es[|es| - 1];
      var cs := ChecksOf(cfg, front, i);
      if e.Completed? && e.index == i && Enabled(cfg, FleetRun(cfg, front), e) then cs + [e.check] else cs
  }

  /** The tracker that backend `i` and its entries in the shared table make up. */
  function TrackerOf(f: Fleet, i: nat): Tracker
    requires i < |f.backends|
  {
    var v := f.backends[i];
    Tracker(v.state, Lookup(f.table, v.(state := Active)), Lookup(f.table, v.(state := Down)))
  }

  /** Nothing is served by the manager, and the table knows only servers of the fleet. */
  ghost predicate Tidy(f: Fleet) {
    && (forall i :: 0 <= i < |f.backends| ==> f.backends[i].stats == Stats(0, 0))
    && (forall v :: v in f.table ==> !Absent(f.backends, v.server))
  }

  lemma {:induction false} TidyStep(cfg: Config, f: Fleet, e: FleetEvent)
    requires Tidy(f)
    ensures Tidy(FleetStep(cfg, f, e))
  {
    var g := FleetStep(cfg, f, e);
    forall v | v in g.table ensures !Absent(g.backends, v.server) {
      var i :| 0 <= i < |f.backends| && f.backends[i].server == v.server;
      StepKeepsBackend(cfg, f, e, i);
    }
  }

  /** A completed check of another backend leaves this backend's tracker alone. */
  lemma {:induction false} OthersLeaveTracker(th: Thresholds, f: Fleet, j: nat, c: Check, i: nat)
    requires i < |f.backends| && j < |f.backends| && f.backends[i].server != f.backends[j].server
    ensures i < |Complete(th, f, j, c).backends| && TrackerOf(Complete(th, f, j, c), i) == TrackerOf(f, i)
  {
  }

  lemma {:induction false} OwnCheckObserved(th: Thresholds, f: Fleet, i: nat, c: Check)
    requires i < |f.backends|
    ensures i < |Complete(th, f, i, c).backends|
    ensures TrackerOf(Complete(th, f, i, c), i) == Observe(th, TrackerOf(f, i), c)
  {
    var v := f.backends[i];
    assert v == v.(state := v.state);
    ChangeIsOpposite(th, v.state, Lookup(f.table, v), c.passed);
  }

  lemma {:induction false} AloneBefore(cfg: Config, f: Fleet, e: FleetEvent, i: nat)
    requires Alone(FleetStep(cfg, f, e).backends, i)
    ensures Alone(f.backends, i)
  {
    var g := FleetStep(cfg, f, e);
    if i < |f.backends| {
      StepKeepsBackend(cfg, f, e, i);
      forall j | 0 <= j < |f.backends| && j != i ensures f.backends[j].server != f.backends[i].server {
        StepKeepsBackend(cfg, f, e, j);
      }
    }
  }

  /** A backend just posted starts as a new machine. */
  lemma {:induction false} PostedIsNew(cfg: Config, f: Fleet, u: Url)
    requires Tidy(f) && Alone(FleetStep(cfg, f, Post(u)).backends, |f.backends|)
    requires |FleetStep(cfg, f, Post(u)).backends| > |f.backends|
    ensures TrackerOf(FleetStep(cfg, f, Post(u)), |f.backends|) == NEW
  {
    var g := FleetStep(cfg, f, Post(u));
    forall i | 0 <= i < |f.backends| ensures f.backends[i].server != Named(u) {
      assert g.backends[i].server != g.backends[|f.backends|].server;
    }
  }

  /** Backend `i`, once it exists and is checked at all, is what the checks `cs` make of a new one. */
  ghost predicate Projected(cfg: Config, f: Fleet, i: nat, cs: seq<Check>) {
    if i < |f.backends|
    then cfg.validUrl(f.backends[i].server.url) ==> TrackerOf(f, i) == Track(cfg.thresholds, cs)
    else cs == []
  }

  lemma {:induction false} ProjectionStep(cfg: Config, f: Fleet, e: FleetEvent, i: nat, cs: seq<Check>)
    requires Tidy(f) && Alone(f.backends, i) && Alone(FleetStep(cfg, f, e).backends, i)
    requires Projected(cfg, f, i, cs)
    ensures var own := e.Completed? && e.index == i && Enabled(cfg, f, e);
      Projected(cfg, FleetStep(cfg, f, e), i, if own then cs + [e.check] else cs)
  {
    if i >= |f.backends| {
      if e.Post? && i < |FleetStep(cfg, f, e).backends| { PostedIsNew(cfg, f, e.url); }
    } else {
      assert |FleetStep(cfg, f, e).backends| >= |f.backends|
        && FleetStep(cfg, f, e).backends[i].server == f.backends[i].server by {
        StepKeepsBackend(cfg, f, e, i);
      }
      if Enabled(cfg, f, e) && e.Completed? {
        if e.index == i {
          OwnCheckObserved(cfg.thresholds, f, i, e.check);
          TrackSnoc(cfg.thresholds, cs, e.check);
        } else {
          OthersLeaveTracker(cfg.thresholds, f, e.index, e.check, i);
        }
      }
    }
  }

  lemma {:induction false} TidyRun(cfg: Config, es: seq<FleetEvent>)
    ensures Tidy(FleetRun(cfg, es))
  {
    if es != [] {
      TidyRun(cfg, es[..|es| - 1]);
      TidyStep(cfg, FleetRun(cfg, es[..|es| - 1]), es[|es| - 1]);
    }
  }

  /** The state and the two table entries of a backend that is the only one for its server are what
      its own completed checks alone would produce, whatever else the fleet holds. */
  lemma {:induction false} Projection(cfg: Config, es: seq<FleetEvent>, i: nat)
    requires Alone(FleetRun(cfg, es).backends, i)
    ensures Projected(cfg, FleetRun(cfg, es), i, ChecksOf(cfg, es, i))
  {
    if es != [] {
      var front, e := es[..|es| - 1], es[|es| - 1];
      var f := FleetRun(cfg, front);
      AloneBefore(cfg, f, e, i);
      Projection(cfg, front, i);
      TidyRun(cfg, front);
      ProjectionStep(cfg, f, e, i, ChecksOf(cfg, front, i));
    }
  }

  /** Over every run of the manager, a checked backend that is the only one for its server is down or
      active exactly as the consecutive results of its own checks say. */
  lemma {:induction false} FleetFollowsStreaks(cfg: Config, es: seq<FleetEvent>, i: nat)
    requires var f := FleetRun(cfg, es);
      i < |f.backends| && Alone(f.backends, i) && cfg.validUrl(f.backends[i].server.url)
    requires Settled(cfg.thresholds, ChecksOf(cfg, es, i))
    ensures FleetRun(cfg, es).backends[i].state ==
            Reference(AtLeastTwo(cfg.thresholds), Results(ChecksOf(cfg, es, i))).state
  {
    Projection(cfg, es, i);
    StreakRefinement(cfg.thresholds, ChecksOf(cfg, es, i));
  }

  // ---- and of no other backend can that be said

  ghost predicate NoPosts(es: seq<FleetEvent>) {
    forall e :: e in es ==> !e.Post?
  }

  /** Backend `i` stands as the results of its own checks say. */
  ghost predicate AsChecked(cfg: Config, es: seq<FleetEvent>, i: nat) {
    i < |FleetRun(cfg, es).backends| &&
    FleetRun(cfg, es).backends[i].state == Reference(cfg.thresholds, Results(ChecksOf(cfg, es, i))).state
  }

  /** The results counted towards the next change of a backend in state `st`. */
  function Progress(st: ServerState, h: HealthState): nat {
    if (st == Active) == h.Failing? then h.count else 0
  }

  function ProgressOf(f: Fleet, i: nat): nat
    requires i < |f.backends|
  {
    Progress(f.backends[i].state, Lookup(f.table, f.backends[i]))
  }

  /** A check that counts towards a change from state `st`, and one that breaks the count. */
  function Toward(st: ServerState): Check { Check(st == Down, Kept) }

  function Away(st: ServerState): Check { Check(st == Active, Kept) }

  predicate TwoOrMore(th: Thresholds) { th.failures >= 2 && th.passes >= 2 }

  lemma {:induction false} AwayClears(th: Thresholds, f: Fleet, i: nat)
    requires i < |f.backends|
    ensures var g := Complete(th, f, i, Away(f.backends[i].state));
      g.backends == f.backends && ProgressOf(g, i) == 0
  {
  }

  lemma {:induction false} TowardCounts(th: Thresholds, f: Fleet, i: nat)
    requires i < |f.backends| && TwoOrMore(th)
    ensures var st := f.backends[i].state;
      var g := Complete(th, f, i, Toward(st));
      if ProgressOf(f, i) + 1 < Needed(th, st)
      then g.backends == f.backends && ProgressOf(g, i) == ProgressOf(f, i) + 1
      else g.backends == SetStateAt(f.backends, i, Opposite(st))
  {
  }

  /** What one more completed check does to the fleet and to the record of every backend. */
  lemma {:induction false} OneMore(cfg: Config, es: seq<FleetEvent>, i: nat, c: Check, j: nat)
    requires var b := FleetRun(cfg, es).backends; i < |b| && cfg.validUrl(b[i].server.url)
    ensures FleetRun(cfg, es + [Completed(i, c)]) == Complete(cfg.thresholds, FleetRun(cfg, es), i, c)
    ensures ChecksOf(cfg, es + [Completed(i, c)], j) == ChecksOf(cfg, es, j) + if j == i then [c] else []
  {
    assert (es + [Completed(i, c)])[..|es|] == es;
  }

  /** Backend `j` has the checks it had. */
  ghost predicate SpareChecks(cfg: Config, es: seq<FleetEvent>, all: seq<FleetEvent>, j: nat) {
    ChecksOf(cfg, all, j) == ChecksOf(cfg, es, j)
  }

  /** Checks of backend `i` alone that take its count to `k`, short of a change. */
  lemma {:induction false} WindUp(cfg: Config, es: seq<FleetEvent>, i: nat, k: nat, j: nat)
    returns (more: seq<FleetEvent>)
    requires var f := FleetRun(cfg, es);
      && i < |f.backends| && cfg.validUrl(f.backends[i].server.url) && i != j
      && TwoOrMore(cfg.thresholds) && k < Needed(cfg.thresholds, f.backends[i].state)
    ensures NoPosts(more) && SpareChecks(cfg, es, es + more, j)
    ensures var f, g := FleetRun(cfg, es), FleetRun(cfg, es + more);
      g.backends == f.backends && ProgressOf(g, i) == k
  {
    var st := FleetRun(cfg, es).backends[i].state;
    if k == 0 {
      more := [Completed(i, Away(st))];
      OneMore(cfg, es, i, Away(st), j);
      AwayClears(cfg.thresholds, FleetRun(cfg, es), i);
    } else {
      var front := WindUp(cfg, es, i, k - 1, j);
      OneMore(cfg, es + front, i, Toward(st), j);
      TowardCounts(cfg.thresholds, FleetRun(cfg, es + front), i);
      more := front + [Completed(i, Toward(st))];
      assert es + more == es + front + [Completed(i, Toward(st))];
    }
  }

  /** Checks of backend `i` alone that change its state. */
  lemma {:induction false} TurnOver(cfg: Config, es: seq<FleetEvent>, i: nat, j: nat) returns (more: seq<FleetEvent>)
    requires var f := FleetRun(cfg, es);
      && i < |f.backends| && cfg.validUrl(f.backends[i].server.url) && i != j && TwoOrMore(cfg.thresholds)
    ensures NoPosts(more) && SpareChecks(cfg, es, es + more, j)
    ensures var b := FleetRun(cfg, es).backends;
      FleetRun(cfg, es + more).backends == SetStateAt(b, i, Opposite(b[i].state))
  {
    var st := FleetRun(cfg, es).backends[i].state;
    var front := WindUp(cfg, es, i, Needed(cfg.thresholds, st) - 1, j);
    OneMore(cfg, es + front, i, Toward(st), j);
    TowardCounts(cfg.thresholds, FleetRun(cfg, es + front), i);
    more := front + [Completed(i, Toward(st))];
    assert es + more == es + front + [Completed(i, Toward(st))];
  }

  /** One result that breaks the count and one that starts it again settle nothing. */
  lemma {:induction false} AwayThenToward(th: Thresholds, rs: seq<bool>)
    requires TwoOrMore(th)
    ensures var v := Reference(th, rs); Reference(th, rs + [v.state == Active] + [v.state == Down]) == v
  {
    var v := Reference(th, rs);
    var one := rs + [v.state == Active];
    var two := one + [v.state == Down];
    ReferenceSnoc(th, rs, v.state == Active);
    assert one[..|rs|] == rs && two[..|one|] == one;
    SnocRun(one, v.since, v.state == Down);
    SnocRun(two, v.since, v.state == Down);
    ReferenceSnoc(th, one, v.state == Down);
  }

  lemma {:induction false} ResultsTwo(cs: seq<Check>, a: Check, b: Check)
    ensures Results(cs + [a] + [b]) == Results(cs) + [a.passed] + [b.passed]
  {
  }

  /** Backends `i` and `j` are equal, so they count into one entry. */
  ghost predicate Twins(cfg: Config, b: seq<BackendValue>, i: nat, j: nat) {
    i < |b| && j < |b| && i != j && b[i] == b[j] && cfg.validUrl(b[i].server.url)
  }

  /** The last step: the entry is wound up, and one result changes the state of backend `i`. */
  lemma {:induction false} Released(cfg: Config, es: seq<FleetEvent>, i: nat, j: nat)
    requires var f := FleetRun(cfg, es);
      && Twins(cfg, f.backends, i, j) && TwoOrMore(cfg.thresholds)
      && ProgressOf(f, j) + 1 == Needed(cfg.thresholds, f.backends[i].state)
    ensures var b := FleetRun(cfg, es).backends;
      var all := es + [Completed(i, Toward(b[i].state))];
      && FleetRun(cfg, all).backends == SetStateAt(b, i, Opposite(b[i].state))
      && ChecksOf(cfg, all, i) == ChecksOf(cfg, es, i) + [Toward(b[i].state)]
  {
    var f := FleetRun(cfg, es);
    OneMore(cfg, es, i, Toward(f.backends[i].state), i);
    TowardCounts(cfg.thresholds, f, i);
  }

  lemma {:induction false} Broken(cfg: Config, es: seq<FleetEvent>, i: nat)
    requires var b := FleetRun(cfg, es).backends; i < |b| && cfg.validUrl(b[i].server.url)
    ensures var b := FleetRun(cfg, es).backends;
      var all := es + [Completed(i, Away(b[i].state))];
      FleetRun(cfg, all).backends == b && ChecksOf(cfg, all, i) == ChecksOf(cfg, es, i) + [Away(b[i].state)]
  {
    var f := FleetRun(cfg, es);
    OneMore(cfg, es, i, Away(f.backends[i].state), i);
    AwayClears(cfg.thresholds, f, i);
  }

  lemma {:induction false} Join(es: seq<FleetEvent>, a: seq<FleetEvent>, b: seq<FleetEvent>)
    requires NoPosts(a) && NoPosts(b)
    ensures es + (a + b) == es + a + b && NoPosts(a + b)
  {
  }

  lemma {:induction false} Sandwich(es: seq<FleetEvent>, a: FleetEvent, mid: seq<FleetEvent>, z: FleetEvent)
    ensures es + ([a] + mid + [z]) == es + [a] + mid + [z]
  {
  }

  /** One of them breaks its own count, the other winds the entry up, and the first one changes state
      after a single result of its own. */
  lemma {:induction false} TwinTurns(cfg: Config, es: seq<FleetEvent>, i: nat, j: nat, b: seq<BackendValue>)
    returns (more: seq<FleetEvent>)
    requires b == FleetRun(cfg, es).backends && Twins(cfg, b, i, j) && TwoOrMore(cfg.thresholds)
    ensures NoPosts(more)
    ensures FleetRun(cfg, es + more).backends == SetStateAt(b, i, Opposite(b[i].state))
    ensures ChecksOf(cfg, es + more, i) == ChecksOf(cfg, es, i) + [Away(b[i].state)] + [Toward(b[i].state)]
  {
    var st := b[i].state;
    var first, last := Completed(i, Away(st)), Completed(i, Toward(st));
    var one := es + [first];
    Broken(cfg, es, i);
    var wind := WindUp(cfg, one, j, Needed(cfg.thresholds, st) - 1, i);
    var two := one + wind;
    Released(cfg, two, i, j);
    more := [first] + wind + [last];
    Sandwich(es, first, wind, last);
    assert es + more == two + [last];
  }

  lemma {:induction false} TwinMiscounts(cfg: Config, es: seq<FleetEvent>, i: nat, j: nat)
    returns (more: seq<FleetEvent>)
    requires Twins(cfg, FleetRun(cfg, es).backends, i, j) && TwoOrMore(cfg.thresholds)
    requires AsChecked(cfg, es, i)
    ensures NoPosts(more) && !AsChecked(cfg, es + more, i)
  {
    var st, cs := FleetRun(cfg, es).backends[i].state, ChecksOf(cfg, es, i);
    more := TwinTurns(cfg, es, i, j, FleetRun(cfg, es).backends);
    ResultsTwo(cs, Away(st), Toward(st));
    AwayThenToward(cfg.thresholds, Results(cs));
  }

  /** The backends `i` and `j` are for one server that is checked. */
  ghost predicate SameServer(cfg: Config, b: seq<BackendValue>, i: nat, j: nat) {
    i < |b| && j < |b| && i != j && b[i].server == b[j].server && cfg.validUrl(b[i].server.url)
  }

  lemma {:induction false} TurnIntoTwins(cfg: Config, es: seq<FleetEvent>, i: nat, j: nat)
    returns (more: seq<FleetEvent>)
    requires SameServer(cfg, FleetRun(cfg, es).backends, i, j) && TwoOrMore(cfg.thresholds)
    requires AsChecked(cfg, es, i)
    ensures NoPosts(more) && Twins(cfg, FleetRun(cfg, es + more).backends, i, j) && AsChecked(cfg, es + more, i)
  {
    var b := FleetRun(cfg, es).backends;
    TidyRun(cfg, es);
    if b[i].state == b[j].state {
      more := [];
      assert es + more == es;
    } else {
      more := TurnOver(cfg, es, j, i);
    }
  }

  /** Of two backends for one server either can be misled by further checks of the two. */
  lemma {:induction false} SharedMiscounts(cfg: Config, es: seq<FleetEvent>, i: nat, j: nat)
    returns (more: seq<FleetEvent>)
    requires SameServer(cfg, FleetRun(cfg, es).backends, i, j) && TwoOrMore(cfg.thresholds)
    ensures NoPosts(more) && !AsChecked(cfg, es + more, i)
  {
    more := [];
    assert es + more == es;
    if AsChecked(cfg, es, i) {
      var turn := TurnIntoTwins(cfg, es, i, j);
      var all := es + turn;
      var rest := TwinMiscounts(cfg, all, i, j);
      more := turn + rest;
      Join(es, turn, rest);
      assert es + more == all + rest;
    }
  }

  /** Such fleets arise: post a server, let its checks take it down, and post it again. */
  lemma {:induction false} SharedEntryMiscounts(cfg: Config, u: Url) returns (es: seq<FleetEvent>)
    requires cfg.validUrl(u) && TwoOrMore(cfg.thresholds)
    ensures |FleetRun(cfg, es).backends| == 2 && !AsChecked(cfg, es, 1)
  {
    FleetRunSnoc(cfg, [], Post(u));
    var turn := TurnOver(cfg, [] + [Post(u)], 0, 1);
    es := [] + [Post(u)] + turn;
    FleetRunSnoc(cfg, es, Post(u));
    assert FleetRun(cfg, es).backends == [Fresh(Named(u)).(state := Down)];
    es := es + [Post(u)];
    var more := SharedMiscounts(cfg, es, 1, 0);
    SameNumber(cfg, es, more);
    es := es + more;
  }

  lemma {:induction false} AloneAfter(cfg: Config, es: seq<FleetEvent>, more: seq<FleetEvent>, i: nat)
    requires NoPosts(more) && i < |FleetRun(cfg, es).backends| && Alone(FleetRun(cfg, es).backends, i)
    ensures var b, c := FleetRun(cfg, es).backends, FleetRun(cfg, es + more).backends;
      |c| == |b| && c[i].server == b[i].server && Alone(c, i)
    decreases |more|
  {
    if more == [] {
      assert es + more == es;
    } else {
      var front, e := more[..|more| - 1], more[|more| - 1];
      assert e in more && (es + more)[..|es + more| - 1] == es + front;
      AloneAfter(cfg, es, front, i);
      StepMarks(cfg, FleetRun(cfg, es + front), e);
    }
  }

  /** Exactly which backends follow their own checks: with thresholds of at least two, a checked backend
      stands as its own results say after every continuation without posts if and only if no other
      backend is for the same server. */
  lemma {:induction false} AloneBoundary(cfg: Config, es: seq<FleetEvent>, i: nat)
    requires var b := FleetRun(cfg, es).backends;
      i < |b| && cfg.validUrl(b[i].server.url) && TwoOrMore(cfg.thresholds)
    ensures (forall more :: NoPosts(more) ==> AsChecked(cfg, es + more, i)) <==> Alone(FleetRun(cfg, es).backends, i)
  {
    var b := FleetRun(cfg, es).backends;
    if Alone(b, i) {
      forall more | NoPosts(more) ensures AsChecked(cfg, es + more, i) {
        AloneAfter(cfg, es, more, i);
        FleetFollowsStreaks(cfg, es + more, i);
        assert AtLeastTwo(cfg.thresholds) == cfg.thresholds;
      }
    } else {
      var j :| 0 <= j < |b| && j != i && b[j].server == b[i].server;
      var more := SharedMiscounts(cfg, es, i, j);
      assert NoPosts(more) && !AsChecked(cfg, es + more, i);
    }
  }

  /** Every backend of the fleet stands as its own checks say. */
  ghost predicate AllAsChecked(cfg: Config, es: seq<FleetEvent>) {
    forall i :: 0 <= i < |FleetRun(cfg, es).backends| ==> AsChecked(cfg, es, i)
  }

  lemma {:induction false} SameNumber(cfg: Config, es: seq<FleetEvent>, more: seq<FleetEvent>)
    requires NoPosts(more)
    ensures |FleetRun(cfg, es + more).backends| == |FleetRun(cfg, es).backends|
    decreases |more|
  {
    if more == [] {
      assert es + more == es;
    } else {
      var front, e := more[..|more| - 1], more[|more| - 1];
      assert e in more && (es + more)[..|es + more| - 1] == es + front;
      SameNumber(cfg, es, front);
      StepMarks(cfg, FleetRun(cfg, es + front), e);
    }
  }

  /** The same for the fleet as a whole, all of whose servers have valid check URLs: every backend keeps
      to its own checks after every continuation without posts exactly when the servers are pairwise
      distinct. */
  lemma {:induction false} DistinctBoundary(cfg: Config, es: seq<FleetEvent>)
    requires TwoOrMore(cfg.thresholds)
    requires forall v :: v in FleetRun(cfg, es).backends ==> cfg.validUrl(v.server.url)
    ensures (forall more :: NoPosts(more) ==> AllAsChecked(cfg, es + more)) <==>
            Distinct(FleetRun(cfg, es).backends)
  {
    var b := FleetRun(cfg, es).backends;
    if Distinct(b) {
      forall more, i | NoPosts(more) && 0 <= i < |FleetRun(cfg, es + more).backends|
        ensures AsChecked(cfg, es + more, i)
      {
        SameNumber(cfg, es, more);
        assert b[i] in b;
        AloneBoundary(cfg, es, i);
      }
    } else {
      var i, j :| 0 <= i < j < |b| && b[i].server == b[j].server;
      assert b[i] in b;
      var more := SharedMiscounts(cfg, es, i, j);
      SameNumber(cfg, es, more);
      assert NoPosts(more) && !AllAsChecked(cfg, es + more);
    }
  }
}
