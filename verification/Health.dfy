/** The health state machine of one backend: a counter entry that each completed check reads and
    overwrites, and the decision to change the backend's state.

    The entry lives in a hash map whose key is the backend itself, and the key's hash changes with
    the backend's state.  After a change of state a lookup may therefore find the same entry again
    (`Kept`), find none and insert a new one (`Reset`), or find the entry left behind when the
    backend was last in that state (`Restored`).  All three are modelled, chosen freely at every
    change.  An absent entry reads as `Passing(0)`, the value that is inserted for it. */
module Health {
  import opened Types

  datatype HealthState = Passing(count: nat) | Failing(count: nat)

  datatype Thresholds = Thresholds(failures: nat, passes: nat)

  /** The entry after a passed check, and whether the backend should be marked active. */
  function AfterPass(st: ServerState, h: HealthState, required: nat): (HealthState, bool) {
    if st == Active then (if h.Failing? then Passing(0) else h, false)
    else match h
      case Passing(k) => if k + 1 >= required then (Passing(0), true) else (Passing(k + 1), false)
      case Failing(_) => (Passing(1), false)
  }

  /** The entry after a failed check, and whether the backend should be marked down. */
  function AfterFail(st: ServerState, h: HealthState, required: nat): (HealthState, bool) {
    if st == Down then (if h.Passing? then Failing(0) else h, false)
    else match h
      case Failing(k) => if k + 1 >= required then (Failing(0), true) else (Failing(k + 1), false)
      case Passing(_) => (Failing(1), false)
  }

  function After(th: Thresholds, st: ServerState, h: HealthState, passed: bool): (HealthState, bool) {
    if passed then AfterPass(st, h, th.passes) else AfterFail(st, h, th.failures)
  }

  datatype Fate = Kept | Reset | Restored

  datatype Check = Check(passed: bool, fate: Fate)

  /** A backend's state with the entries that lookups in either state would find. */
  datatype Tracker = Tracker(state: ServerState, whenActive: HealthState, whenDown: HealthState) {
    function Entry(): HealthState { if state == Active then whenActive else whenDown }

    function SetEntry(h: HealthState): Tracker {
      if state == Active then this.(whenActive := h) else this.(whenDown := h)
    }

    function Switch(fate: Fate): Tracker {
      var t := this.(state := Opposite(state));
      match fate
      case Kept => t.SetEntry(Entry())
      case Reset => t.SetEntry(Passing(0))
      case Restored => t
    }
  }

  const NEW := Tracker(Active, Passing(0), Passing(0))

  function Observe(th: Thresholds, t: Tracker, c: Check): Tracker {
    var (h, change) := After(th, t.state, t.Entry(), c.passed);
    var u := t.SetEntry(h);
    if change then u.Switch(c.fate) else u
  }

  /** The tracker after a history of completed checks. */
  function Track(th: Thresholds, cs: seq<Check>): Tracker {
    if cs == [] then NEW else Observe(th, Track(th, cs[..|cs| - 1]), cs[|cs| - 1])
  }

  function Results(cs: seq<Check>): (rs: seq<bool>)
    ensures |rs| == |cs| && forall i :: 0 <= i < |cs| ==> rs[i] == cs[i].passed
  {
    if cs == [] then [] else Results(cs[..|cs| - 1]) + [cs[|cs| - 1].passed]
  }

  // ---- the reference: consecutive results counted on the history itself

  /** Length of the longest suffix whose results all equal `v`. */
  function TrailingRun(rs: seq<bool>, v: bool): nat {
    if rs == [] || rs[|rs| - 1] != v then 0 else 1 + TrailingRun(rs[..|rs| - 1], v)
  }

  function Needed(th: Thresholds, st: ServerState): nat {
    if st == Active then th.failures else th.passes
  }

  /** A state, and the position in the history just after the last change. */
  datatype Verdict = Verdict(state: ServerState, since: nat)

  /** An active backend goes down when the results since the last change end in enough failures,
      a down one becomes active when they end in enough passes. */
  function Reference(th: Thresholds, rs: seq<bool>): (v: Verdict)
    ensures v.since <= |rs|
  {
    if rs == [] then Verdict(Active, 0)
    else
      var v := Reference(th, rs[..|rs| - 1]);
      if TrailingRun(rs[v.since..], v.state == Down) >= Needed(th, v.state)
      then Verdict(Opposite(v.state), |rs|)
      else v
  }

  function AtLeastTwo(th: Thresholds): Thresholds {
    Thresholds(if th.failures < 2 then 2 else th.failures, if th.passes < 2 then 2 else th.passes)
  }

  ghost predicate AllKept(cs: seq<Check>) {
    forall c :: c in cs ==> c.fate == Kept
  }

  ghost predicate Settled(th: Thresholds, cs: seq<Check>) {
    (th.failures >= 2 && th.passes >= 2) || AllKept(cs)
  }

  /** The number of results that count towards the next change. */
  function Streak(t: Tracker): nat {
    var h := t.Entry();
    if (t.state == Active) == h.Failing? then h.count else 0
  }

  /** With an entry that is always kept, the zero counter of the awaited kind never shows. */
  predicate NoZero(t: Tracker) {
    var h := t.Entry();
    (t.state == Active) == h.Failing? ==> h.count > 0
  }

  /** The entry of the state the backend is not in holds no count that would speed it back. */
  predicate Parked(t: Tracker) {
    if t.state == Active then t.whenDown.Passing? ==> t.whenDown.count == 0
    else t.whenActive.Failing? ==> t.whenActive.count == 0
  }

  /** One check moves the streak as a plain counter would, with thresholds below two acting as two. */
  lemma {:induction false} ObserveStreak(th: Thresholds, t: Tracker, c: Check)
    requires (th.failures >= 2 && th.passes >= 2) || (NoZero(t) && c.fate == Kept)
    requires Streak(t) < Needed(AtLeastTwo(th), t.state) && Parked(t)
    ensures Parked(Observe(th, t, c))
    ensures var u := Observe(th, t, c);
      var s := if c.passed == (t.state == Down) then Streak(t) + 1 else 0;
      && (s >= Needed(AtLeastTwo(th), t.state) ==> u.state == Opposite(t.state) && Streak(u) == 0)
      && (s < Needed(AtLeastTwo(th), t.state) ==> u.state == t.state && Streak(u) == s)
      && (NoZero(t) && c.fate == Kept ==> NoZero(u))
  {
  }

  lemma {:induction false} SnocRun(rs: seq<bool>, since: nat, v: bool)
    requires since < |rs|
    ensures TrailingRun(rs[since..], v) ==
            if rs[|rs| - 1] == v then 1 + TrailingRun(rs[..|rs| - 1][since..], v) else 0
  {
    assert rs[since..][..|rs| - since - 1] == rs[..|rs| - 1][since..];
  }

  /** The tracker and the history agree on the state and on the number of results that count. */
  ghost predicate Agree(th: Thresholds, t: Tracker, rs: seq<bool>, v: Verdict)
    requires v.since <= |rs|
  {
    && t.state == v.state
    && Streak(t) == TrailingRun(rs[v.since..], t.state == Down)
    && Streak(t) < Needed(AtLeastTwo(th), t.state)
    && Parked(t)
  }

  lemma {:induction false} AgreeStep(th: Thresholds, t: Tracker, rs: seq<bool>, v: Verdict, c: Check)
    requires v.since <= |rs| && Agree(th, t, rs, v)
    requires (th.failures >= 2 && th.passes >= 2) || (NoZero(t) && c.fate == Kept)
    ensures var all := rs + [c.passed];
      var run := TrailingRun(all[v.since..], v.state == Down);
      Agree(th, Observe(th, t, c), all,
            if run >= Needed(AtLeastTwo(th), v.state) then Verdict(Opposite(v.state), |all|) else v)
    ensures NoZero(t) && c.fate == Kept ==> NoZero(Observe(th, t, c))
  {
    var all := rs + [c.passed];
    assert all[..|rs|] == rs;
    SnocRun(all, v.since, v.state == Down);
    ObserveStreak(th, t, c);
    assert all[|all|..] == [];
  }

  lemma {:induction false} ReferenceSnoc(th: Thresholds, rs: seq<bool>, passed: bool)
    ensures var v, all := Reference(th, rs), rs + [passed];
      Reference(th, all) ==
      if TrailingRun(all[v.since..], v.state == Down) >= Needed(th, v.state)
      then Verdict(Opposite(v.state), |all|) else v
  {
    assert (rs + [passed])[..|rs|] == rs;
  }

  /** The counter machine changes the backend's state exactly when the reference does. */
  lemma {:induction false} StreakRefinement(th: Thresholds, cs: seq<Check>)
    requires Settled(th, cs)
    ensures Agree(th, Track(th, cs), Results(cs), Reference(AtLeastTwo(th), Results(cs)))
    ensures AllKept(cs) ==> NoZero(Track(th, cs))
  {
    if cs != [] {
      var front, c := cs[..|cs| - 1], cs[|cs| - 1];
      assert c in cs && forall x :: x in front ==> x in cs;
      StreakRefinement(th, front);
      var rs := Results(front);
      AgreeStep(th, Track(th, front), rs, Reference(AtLeastTwo(th), rs), c);
      ReferenceSnoc(AtLeastTwo(th), rs, c.passed);
    } else {
      assert Results(cs)[0..] == [];
    }
  }

  lemma {:induction false} SameStateAfter(th: Thresholds, cs: seq<Check>, ds: seq<Check>)
    requires th.failures >= 2 && th.passes >= 2 && Results(cs) == Results(ds)
    ensures Track(th, cs).state == Track(th, ds).state
  {
    StreakRefinement(th, cs);
    StreakRefinement(th, ds);
  }

  lemma {:induction false} SamePrefix(cs: seq<Check>, ds: seq<Check>, j: nat)
    requires Results(cs) == Results(ds) && j <= |cs|
    ensures |cs| == |ds| && Results(cs[..j]) == Results(ds[..j])
  {
    assert |Results(cs)| == |cs| && |Results(ds)| == |ds|;
    assert Results(cs[..j]) == Results(cs)[..j] == Results(ds[..j]);
  }

  /** With both thresholds at least two, the history of states does not depend on what the map
      does with the entry at each change. */
  lemma {:induction false} KeyMutationIndependence(th: Thresholds, cs: seq<Check>, ds: seq<Check>)
    requires th.failures >= 2 && th.passes >= 2 && Results(cs) == Results(ds)
    ensures |cs| == |ds|
    ensures forall j :: 0 <= j <= |cs| ==> Track(th, cs[..j]).state == Track(th, ds[..j]).state
  {
    SamePrefix(cs, ds, 0);
    forall j | 0 <= j <= |cs| ensures Track(th, cs[..j]).state == Track(th, ds[..j]).state {
      SamePrefix(cs, ds, j);
      SameStateAfter(th, cs[..j], ds[..j]);
    }
  }

  /** The default configuration. */
  const DEFAULT := Thresholds(3, 2)

  /** With the default thresholds a server goes down after three consecutive failures and comes back
      after two consecutive passes, on every history and under every behaviour of the map. */
  lemma {:induction false} DefaultAsDocumented(cs: seq<Check>)
    ensures Track(DEFAULT, cs).state == Reference(Thresholds(3, 2), Results(cs)).state
  {
    StreakRefinement(DEFAULT, cs);
    assert AtLeastTwo(DEFAULT) == Thresholds(3, 2);
  }

  // ---- the boundary of that independence

  function Repeat(c: Check, k: nat): (r: seq<Check>)
    ensures |r| == k && forall i :: 0 <= i < k ==> r[i] == c
  {
    if k == 0 then [] else Repeat(c, k - 1) + [c]
  }

  lemma {:induction false} TrackSnoc(th: Thresholds, cs: seq<Check>, c: Check)
    ensures Track(th, cs + [c]) == Observe(th, Track(th, cs), c)
  {
    assert (cs + [c])[..|cs|] == cs;
  }

  lemma {:induction false} FailuresInARow(th: Thresholds, fate: Fate, k: nat)
    requires 0 < k < Needed(AtLeastTwo(th), Active)
    ensures Track(th, Repeat(Check(false, fate), k)) == Tracker(Active, Failing(k), Passing(0))
  {
    if k > 1 { FailuresInARow(th, fate, k - 1); }
    TrackSnoc(th, Repeat(Check(false, fate), k - 1), Check(false, fate));
  }

  lemma {:induction false} LastFailure(th: Thresholds, fate: Fate, k: nat)
    requires k == Needed(AtLeastTwo(th), Active)
    ensures Observe(th, Tracker(Active, Failing(k - 1), Passing(0)), Check(false, fate)) ==
            Tracker(Down, Failing(0), if fate == Kept then Failing(0) else Passing(0))
  {
  }

  /** The first time the backend goes down. */
  lemma {:induction false} GoesDown(th: Thresholds, fate: Fate)
    ensures Track(th, Repeat(Check(false, fate), Needed(AtLeastTwo(th), Active))) ==
            Tracker(Down, Failing(0), if fate == Kept then Failing(0) else Passing(0))
  {
    var k, c := Needed(AtLeastTwo(th), Active), Check(false, fate);
    var front := Repeat(c, k - 1);
    FailuresInARow(th, fate, k - 1);
    TrackSnoc(th, front, c);
    assert Repeat(c, k) == front + [c];
    LastFailure(th, fate, k);
  }

  /** Passes while down count from one, whether the entry was kept or is new. */
  lemma {:induction false} PassesInARow(th: Thresholds, cs: seq<Check>, h: HealthState, fate: Fate, k: nat)
    requires 0 < k < th.passes && Track(th, cs) == Tracker(Down, Failing(0), h) && h.count == 0
    ensures Track(th, cs + Repeat(Check(true, fate), k)) == Tracker(Down, Failing(0), Passing(k))
  {
    var rest := Repeat(Check(true, fate), k - 1);
    if k > 1 { PassesInARow(th, cs, h, fate, k - 1); } else { assert cs + rest == cs; }
    TrackSnoc(th, cs + rest, Check(true, fate));
    assert cs + rest + [Check(true, fate)] == cs + Repeat(Check(true, fate), k);
  }

  ghost predicate SameResultsSameState(th: Thresholds, cs: seq<Check>, ds: seq<Check>) {
    Results(cs) == Results(ds) ==> Track(th, cs).state == Track(th, ds).state
  }

  /** A pass threshold below two: a reset entry comes up one check before a kept one. */
  lemma {:induction false} OnePassSplits(th: Thresholds) returns (cs: seq<Check>, ds: seq<Check>)
    requires th.passes < 2
    ensures !SameResultsSameState(th, cs, ds)
  {
    var k := Needed(AtLeastTwo(th), Active);
    var a, b := Repeat(Check(false, Kept), k), Repeat(Check(false, Reset), k);
    GoesDown(th, Kept);
    GoesDown(th, Reset);
    TrackSnoc(th, a, Check(true, Kept));
    TrackSnoc(th, b, Check(true, Reset));
    cs, ds := a + [Check(true, Kept)], b + [Check(true, Reset)];
    assert Results(cs) == Results(ds);
  }

  lemma {:induction false} UpThenFail(th: Thresholds, cs: seq<Check>, up: Fate)
    requires th.failures < 2 <= th.passes && up != Reset
    requires Track(th, cs) == Tracker(Down, Failing(0), Passing(th.passes - 1))
    ensures Track(th, cs + [Check(true, up)] + [Check(false, Kept)]).state == if up == Restored then Down else Active
  {
    TrackSnoc(th, cs, Check(true, up));
    TrackSnoc(th, cs + [Check(true, up)], Check(false, Kept));
  }

  /** Down with one fate, up with the other, and one more failure. */
  lemma {:induction false} DownUpFail(th: Thresholds, down: Fate, up: Fate) returns (cs: seq<Check>)
    requires th.failures < 2 <= th.passes && down != Restored && up != Reset
    ensures Track(th, cs).state == if up == Restored then Down else Active
    ensures |cs| == th.passes + 3 && forall i :: 0 <= i < |cs| ==> cs[i].passed == (2 <= i < th.passes + 2)
  {
    var a := Repeat(Check(false, down), 2);
    GoesDown(th, down);
    var b := a + Repeat(Check(true, Kept), th.passes - 1);
    PassesInARow(th, a, if down == Kept then Failing(0) else Passing(0), Kept, th.passes - 1);
    UpThenFail(th, b, up);
    cs := b + [Check(true, up)] + [Check(false, Kept)];
  }

  /** A failure threshold below two: an entry that was left behind at the first change and is found
      again at the second goes down one check before one that was kept. */
  lemma {:induction false} OneFailureSplits(th: Thresholds) returns (cs: seq<Check>, ds: seq<Check>)
    requires th.failures < 2 <= th.passes
    ensures !SameResultsSameState(th, cs, ds)
  {
    cs := DownUpFail(th, Kept, Kept);
    ds := DownUpFail(th, Reset, Restored);
    assert Results(cs) == Results(ds);
  }

  /** The states are independent of the map's behaviour exactly when both thresholds are at
      least two. */
  lemma {:induction false} IndependenceBoundary(th: Thresholds)
    ensures (forall cs, ds :: SameResultsSameState(th, cs, ds)) <==> th.failures >= 2 && th.passes >= 2
  {
    if th.failures >= 2 && th.passes >= 2 {
      forall cs, ds ensures SameResultsSameState(th, cs, ds) {
        if Results(cs) == Results(ds) {
          SameStateAfter(th, cs, ds);
        }
      }
    } else if th.passes < 2 {
      var cs, ds := OnePassSplits(th);
    } else {
      var cs, ds := OneFailureSplits(th);
    }
  }

  /** The thresholds act as configured on every history exactly when both are at least two. */
  lemma {:induction false} ConfiguredBoundary(th: Thresholds)
    ensures (forall cs :: Track(th, cs).state == Reference(th, Results(cs)).state) <==>
            th.failures >= 2 && th.passes >= 2
  {
    if th.failures >= 2 && th.passes >= 2 {
      forall cs ensures Track(th, cs).state == Reference(th, Results(cs)).state {
        StreakRefinement(th, cs);
        assert AtLeastTwo(th) == th;
      }
    } else {
      IndependenceBoundary(th);
      var cs, ds :| !SameResultsSameState(th, cs, ds);
      assert Track(th, cs).state != Track(th, ds).state && Results(cs) == Results(ds);
    }
  }

  // ---- how often a backend can change state

  function Changes(th: Thresholds, cs: seq<Check>): nat {
    if cs == [] then 0
    else
      var front := cs[..|cs| - 1];
      Changes(th, front) + if Track(th, cs).state != Track(th, front).state then 1 else 0
  }

  /** Checks needed for `t` changes: down and up in turn, starting with down. */
  function Cost(th: Thresholds, t: nat): nat {
    if t == 0 then 0
    else Cost(th, t - 1) + if t % 2 == 1 then th.failures else th.passes
  }

  lemma {:induction false} CostIs(th: Thresholds, t: nat)
    ensures Cost(th, t) == (t + 1) / 2 * th.failures + t / 2 * th.passes
  {
    if t > 0 {
      CostIs(th, t - 1);
      var d := (t - 1) / 2;
      if t % 2 == 1 {
        assert t / 2 == d && (t + 1) / 2 == d + 1;
        assert (d + 1) * th.failures == d * th.failures + th.failures;
      } else {
        assert t / 2 == d + 1 && (t + 1) / 2 == d + 1;
        assert (d + 1) * th.passes == d * th.passes + th.passes;
      }
    }
  }

  lemma {:induction false} StreakBelow(th: Thresholds, cs: seq<Check>)
    requires Settled(th, cs)
    ensures var t := Track(th, cs);
      Streak(t) < Needed(AtLeastTwo(th), t.state) && Parked(t) && (AllKept(cs) ==> NoZero(t))
  {
    StreakRefinement(th, cs);
  }

  /** The state a backend is in after `n` changes. */
  function StateAfter(n: nat): ServerState {
    if n % 2 == 0 then Active else Down
  }

  lemma {:induction false} OneMoreCheck(th: Thresholds, t: Tracker, c: Check, n: nat)
    requires (th.failures >= 2 && th.passes >= 2) || (NoZero(t) && c.fate == Kept)
    requires Streak(t) < Needed(AtLeastTwo(th), t.state) && Parked(t) && t.state == StateAfter(n)
    ensures var u, e := Observe(th, t, c), AtLeastTwo(th);
      var m := if u.state != t.state then n + 1 else n;
      Cost(e, m) + Streak(u) <= Cost(e, n) + Streak(t) + 1 && u.state == StateAfter(m)
  {
    ObserveStreak(th, t, c);
    assert Cost(AtLeastTwo(th), n + 1) == Cost(AtLeastTwo(th), n) + Needed(AtLeastTwo(th), t.state);
  }

  lemma {:induction false} ChangesCost(th: Thresholds, cs: seq<Check>)
    requires Settled(th, cs)
    ensures Cost(AtLeastTwo(th), Changes(th, cs)) + Streak(Track(th, cs)) <= |cs|
    ensures Track(th, cs).state == StateAfter(Changes(th, cs))
  {
    if cs != [] {
      var front, c := cs[..|cs| - 1], cs[|cs| - 1];
      assert c in cs && forall x :: x in front ==> x in cs;
      ChangesCost(th, front);
      var t := Track(th, front);
      StreakBelow(th, front);
      OneMoreCheck(th, t, c, Changes(th, front));
      assert Track(th, cs) == Observe(th, t, c);
    }
  }

  /** A backend that changed state t times took at least ceil(t/2) * failures +
      floor(t/2) * passes completed checks to do so. */
  lemma {:induction false} FlapBound(th: Thresholds, cs: seq<Check>)
    requires Settled(th, cs)
    ensures var t, e := Changes(th, cs), AtLeastTwo(th);
      (t + 1) / 2 * e.failures + t / 2 * e.passes <= |cs|
  {
    ChangesCost(th, cs);
    CostIs(AtLeastTwo(th), Changes(th, cs));
  }
}
