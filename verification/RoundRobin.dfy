/** The round-robin pool as a value: a list of backends and a cursor.
    `Get` is stated without a loop; the scan that the pool runs is the small-step machine
    `ScanAfter`, and `ScanMeetsGet` and `TerminationBoundary` relate the two. */
module RoundRobin {
  import opened Types

  datatype Pool = Pool(backends: seq<BackendValue>, lastUsed: nat)

  const EMPTY := Pool([], 0)

  ghost predicate SomeActive(b: seq<BackendValue>) {
    exists i :: 0 <= i < |b| && b[i].IsActive()
  }

  /** The lowest active index at or after `from`. */
  function FirstActive(b: seq<BackendValue>, from: nat): (r: Option<nat>)
    ensures r.Some? ==>
              && from <= r.value < |b|
              && b[r.value].IsActive()
              && forall j :: from <= j < r.value ==> b[j].IsDown()
    ensures r.None? ==> forall j :: from <= j < |b| ==> b[j].IsDown()
    decreases |b| - from
  {
    if from >= |b| then None
    else if b[from].IsActive() then Some(from)
    else FirstActive(b, from + 1)
  }

  /** The first active index met when walking cyclically from the slot after the cursor. */
  function Next(b: seq<BackendValue>, cursor: nat): Option<nat>
    requires |b| > 0
  {
    var r := FirstActive(b, (cursor + 1) % |b|);
    if r.Some? then r else FirstActive(b, 0)
  }

  /** `i` is active and every slot passed on the way from the cursor to `i` is down. */
  ghost predicate FirstInCyclicOrder(b: seq<BackendValue>, cursor: nat, i: nat)
    requires |b| > 0
  {
    var base := (cursor + 1) % |b|;
    && i < |b|
    && b[i].IsActive()
    && if base <= i then forall j :: base <= j < i ==> b[j].IsDown()
       else (forall j :: base <= j < |b| ==> b[j].IsDown()) && (forall j :: 0 <= j < i ==> b[j].IsDown())
  }

  lemma {:induction false} NextIsFirst(b: seq<BackendValue>, cursor: nat, i: nat)
    requires |b| > 0
    ensures Next(b, cursor) == Some(i) <==> FirstInCyclicOrder(b, cursor, i)
    ensures Next(b, cursor) == None <==> !SomeActive(b)
  {
    var base := (cursor + 1) % |b|;
    var r, s := FirstActive(b, base), FirstActive(b, 0);
    if FirstInCyclicOrder(b, cursor, i) {
      if base <= i {
        assert r.Some? && !(r.value < i) && !(i < r.value);
      } else {
        assert r.None? && s.Some? && !(s.value < i) && !(i < s.value);
      }
    }
  }

  /** What one call selects, and the pool it leaves. Meaningful where `ScanEnds` holds. */
  function Get(p: Pool): (r: (Option<nat>, Pool))
    ensures r.1.backends == p.backends
    ensures r.0.Some? ==> r.0.value < |p.backends| && p.backends[r.0.value].IsActive()
    ensures r.0.Some? ==> r.1.lastUsed == r.0.value
    ensures r.0.None? ==> r.1 == p && !SomeActive(p.backends)
  {
    if p.backends == [] then (None, p)
    else match Next(p.backends, p.lastUsed)
      case Some(i) => (Some(i), p.(lastUsed := i))
      case None => (None, p)
  }

  /** The whole backend value is compared, not only the server. */
  function Add(p: Pool, s: Server): (Pool, bool) {
    if Fresh(s) in p.backends then (p, false)
    else (p.(backends := p.backends + [Fresh(s)]), true)
  }

  function Retain(b: seq<BackendValue>, s: Server): (r: seq<BackendValue>)
    ensures |r| <= |b|
  {
    if b == [] then []
    else if b[0].server != s then [b[0]] + Retain(b[1..], s)
    else Retain(b[1..], s)
  }

  lemma {:induction false} RetainMembers(b: seq<BackendValue>, s: Server)
    ensures forall v :: v in Retain(b, s) <==> v in b && v.server != s
  {
    if b != [] {
      RetainMembers(b[1..], s);
      assert b == [b[0]] + b[1..];
    }
  }

  /** How many of the first `i` entries are for other servers. */
  function OthersBefore(b: seq<BackendValue>, s: Server, i: nat): nat
    requires i <= |b|
  {
    if i == 0 then 0 else OthersBefore(b, s, i - 1) + if b[i - 1].server != s then 1 else 0
  }

  lemma {:induction false} RetainSnoc(b: seq<BackendValue>, s: Server, v: BackendValue)
    ensures Retain(b + [v], s) == Retain(b, s) + if v.server != s then [v] else []
  {
    if b == [] {
      assert [v][1..] == [];
    } else {
      assert (b + [v])[1..] == b[1..] + [v];
      RetainSnoc(b[1..], s, v);
    }
  }

  lemma {:induction false} RetainUpTo(b: seq<BackendValue>, s: Server, i: nat, k: nat)
    requires i <= k <= |b|
    ensures |Retain(b[..k], s)| == OthersBefore(b, s, k)
    ensures Retain(b[..i], s) <= Retain(b[..k], s)
    decreases k
  {
    if k > 0 {
      assert b[..k] == b[..k - 1] + [b[k - 1]];
      RetainSnoc(b[..k - 1], s, b[k - 1]);
      RetainUpTo(b, s, if i < k then i else k - 1, k - 1);
    }
  }

  /** Every entry for another server is kept, each once, in the order they had. */
  lemma {:induction false} RetainInOrder(b: seq<BackendValue>, s: Server, i: nat)
    requires i < |b|
    ensures |Retain(b, s)| == OthersBefore(b, s, |b|)
    ensures b[i].server != s ==>
              OthersBefore(b, s, i) < |Retain(b, s)| && Retain(b, s)[OthersBefore(b, s, i)] == b[i]
  {
    assert b[..|b|] == b && b[..i + 1] == b[..i] + [b[i]];
    RetainUpTo(b, s, i + 1, |b|);
    RetainUpTo(b, s, i, i);
    RetainSnoc(b[..i], s, b[i]);
  }

  /** The cursor is left as it was. */
  function Remove(p: Pool, s: Server): Pool {
    p.(backends := Retain(p.backends, s))
  }

  /** Index of the first entry for a server. */
  function Find(b: seq<BackendValue>, s: Server): (r: Option<nat>)
    ensures r.Some? ==>
              && r.value < |b| && b[r.value].server == s
              && forall j :: 0 <= j < r.value ==> b[j].server != s
    ensures r.None? ==> forall j :: 0 <= j < |b| ==> b[j].server != s
  {
    if b == [] then None
    else if b[0].server == s then Some(0)
    else match Find(b[1..], s)
      case Some(i) => Some(i + 1)
      case None => None
  }

  lemma {:induction false} FindFirst(b: seq<BackendValue>, s: Server, i: nat)
    requires i < |b| && b[i].server == s && forall j :: 0 <= j < i ==> b[j].server != s
    ensures Find(b, s) == Some(i)
  {
    var r := Find(b, s);
    assert r.Some? && b[r.value].server == s;
  }

  lemma {:induction false} FindNone(b: seq<BackendValue>, s: Server)
    requires forall j :: 0 <= j < |b| ==> b[j].server != s
    ensures Find(b, s) == None
  {
  }

  // ---- the scan loop, one iteration at a time

  datatype Scan = Running(cursor: nat) | Halted(found: Option<nat>, cursor: nat)

  function Iteration(b: seq<BackendValue>, start: nat, cursor: nat): Scan
    requires |b| > 0
  {
    var c := (cursor + 1) % |b|;
    if b[c].IsDown() then
      if start == c then Halted(None, c) else Running(c)
    else Halted(Some(c), c)
  }

  /** The scan after `k` iterations, started with the cursor at `start`. */
  function ScanAfter(b: seq<BackendValue>, start: nat, k: nat): Scan
    requires |b| > 0
  {
    if k == 0 then Running(start)
    else
      var s := ScanAfter(b, start, k - 1);
      if s.Running? then Iteration(b, start, s.cursor) else s
  }

  /** The region in which the scan terminates. */
  ghost predicate ScanEnds(p: Pool) {
    p.backends == [] || p.lastUsed < |p.backends| || SomeActive(p.backends)
  }

  /** The slot that iteration `k + 1` visits. */
  function Slot(n: nat, base: nat, k: nat): nat
    requires base < n && k < n
  {
    if base + k < n then base + k else base + k - n
  }

  lemma {:induction false} NextSlot(n: nat, cursor: nat)
    requires cursor < n
    ensures (cursor + 1) % n == if cursor + 1 == n then 0 else cursor + 1
  {
  }

  /** As long as every slot visited is down and the start was not met again, the scan goes on. */
  lemma {:induction false} ScanPassesDownSlots(b: seq<BackendValue>, start: nat, k: nat)
    requires 0 < |b| && k <= |b|
    requires var base := (start + 1) % |b|;
      forall j :: 0 <= j < k ==> b[Slot(|b|, base, j)].IsDown() && Slot(|b|, base, j) != start
    ensures ScanAfter(b, start, k) ==
            Running(if k == 0 then start else Slot(|b|, (start + 1) % |b|, k - 1))
  {
    if k > 0 {
      var base := (start + 1) % |b|;
      assert b[Slot(|b|, base, k - 1)].IsDown() && Slot(|b|, base, k - 1) != start;
      ScanPassesDownSlots(b, start, k - 1);
      if k > 1 { NextSlot(|b|, Slot(|b|, base, k - 2)); }
    }
  }

  lemma {:induction false} HaltedStays(b: seq<BackendValue>, start: nat, j: nat, k: nat)
    requires |b| > 0 && j <= k && ScanAfter(b, start, j).Halted?
    ensures ScanAfter(b, start, k) == ScanAfter(b, start, j)
  {
    if j < k { HaltedStays(b, start, j, k - 1); }
  }

  /** The slots before the one that ends the scan are passed, and then it halts. */
  lemma {:induction false} ScanHaltsAt(b: seq<BackendValue>, start: nat, i: nat, k: nat)
    requires 0 < |b| && i < |b| && k < |b|
    requires var base := (start + 1) % |b|;
      && Slot(|b|, base, k) == i
      && (forall j :: 0 <= j < k ==> b[Slot(|b|, base, j)].IsDown() && Slot(|b|, base, j) != start)
    requires b[i].IsActive() || i == start
    ensures ScanAfter(b, start, |b|) == Halted(if b[i].IsActive() then Some(i) else None, i)
  {
    var base := (start + 1) % |b|;
    ScanPassesDownSlots(b, start, k);
    if k > 0 { NextSlot(|b|, Slot(|b|, base, k - 1)); }
    HaltedStays(b, start, k + 1, |b|);
  }

  /** What the next iteration of a scan that ends with `end` does. */
  lemma {:induction false} ScanTurn(b: seq<BackendValue>, start: nat, k: nat, cursor: nat, end: Scan)
    requires |b| > 0 && k <= |b| && end.Halted? && ScanAfter(b, start, |b|) == end
    requires ScanAfter(b, start, k) == Running(cursor)
    ensures k < |b|
    ensures var c := (cursor + 1) % |b|;
      if b[c].IsActive() then end == Halted(Some(c), c)
      else if start == c then end == Halted(None, c)
      else ScanAfter(b, start, k + 1) == Running(c)
  {
    var s := ScanAfter(b, start, k + 1);
    assert s == Iteration(b, start, cursor);
    if s.Halted? { HaltedStays(b, start, k + 1, |b|); }
  }

  /** Inside the region the scan halts within one lap, with exactly what `Get` selects. */
  lemma {:induction false} ScanMeetsGet(p: Pool)
    requires p.backends != [] && ScanEnds(p)
    ensures ScanAfter(p.backends, p.lastUsed, |p.backends|) == Halted(Get(p).0, Get(p).1.lastUsed)
  {
    var b, n, start := p.backends, |p.backends|, p.lastUsed;
    var base := (start + 1) % n;
    var i := match Next(b, start) case Some(i) => i case None => start;
    NextIsFirst(b, start, i);
    if Next(b, start).None? { assert start < n; }
    if start < n { NextSlot(n, start); }
    ScanHaltsAt(b, start, i, if base <= i then i - base else i + n - base);
  }

  lemma {:induction false} StrayScanRuns(b: seq<BackendValue>, start: nat, k: nat)
    requires 0 < |b| <= start && !SomeActive(b)
    ensures ScanAfter(b, start, k).Running?
  {
    if k > 0 { StrayScanRuns(b, start, k - 1); }
  }

  /** The scan halts after some number of iterations exactly inside the region; outside it the
      start test is never met. */
  lemma {:induction false} TerminationBoundary(p: Pool)
    requires p.backends != []
    ensures (exists k :: ScanAfter(p.backends, p.lastUsed, k).Halted?) <==> ScanEnds(p)
  {
    if ScanEnds(p) {
      ScanMeetsGet(p);
    } else {
      forall k: nat ensures ScanAfter(p.backends, p.lastUsed, k).Running? {
        StrayScanRuns(p.backends, p.lastUsed, k);
      }
    }
  }
}
