/** Iterating a successor function that walks a cycle. */
module Cycles {

  function End(f: nat -> nat, c: nat, m: nat): nat {
    if m == 0 then c else f(End(f, c, m - 1))
  }

  /** The values f(c), f(f(c)), ... of `m` steps. */
  function Orbit(f: nat -> nat, c: nat, m: nat): (r: seq<nat>)
    ensures |r| == m
  {
    if m == 0 then [] else Orbit(f, c, m - 1) + [End(f, c, m)]
  }

  function Succ(n: nat, x: nat): (y: nat)
    requires x < n
    ensures y < n
  {
    if x + 1 < n then x + 1 else 0
  }

  /** `f` sends each element of `a` to the one after it, and the last to the first. */
  ghost predicate Follows(f: nat -> nat, a: seq<nat>) {
    forall x :: 0 <= x < |a| ==> f(a[x]) == a[Succ(|a|, x)]
  }

  lemma {:induction false} SplitOrbit(f: nat -> nat, c: nat, m: nat, j: nat)
    ensures End(f, c, m + j) == End(f, End(f, c, m), j)
    ensures Orbit(f, c, m + j) == Orbit(f, c, m) + Orbit(f, End(f, c, m), j)
  {
    if j > 0 {
      SplitOrbit(f, c, m, j - 1);
      assert m + j - 1 == m + (j - 1);
    }
  }

  /** The first lap is a rotation of the cycle. */
  lemma {:induction false} LapPrefix(f: nat -> nat, a: seq<nat>, c: nat, r: nat, t: nat)
    requires Follows(f, a) && r < |a| && t <= |a| && f(c) == a[r]
    ensures Orbit(f, c, t) == (a[r..] + a[..r])[..t]
    ensures t > 0 ==> End(f, c, t) == (a[r..] + a[..r])[t - 1]
  {
    var lap := a[r..] + a[..r];
    if t > 0 {
      LapPrefix(f, a, c, r, t - 1);
      if t > 1 {
        var x := if r + t - 2 < |a| then r + t - 2 else r + t - 2 - |a|;
        assert lap[t - 2] == a[x];
        assert lap[t - 1] == a[Succ(|a|, x)];
      }
      assert End(f, c, t) == lap[t - 1];
      assert Orbit(f, c, t) == Orbit(f, c, t - 1) + [End(f, c, t)];
      assert lap[..t] == lap[..t - 1] + [lap[t - 1]];
    } else {
      assert lap[..0] == [];
    }
  }

  lemma {:induction false} RotationKeepsElements(a: seq<nat>, r: nat)
    requires r <= |a|
    ensures multiset(a[r..] + a[..r]) == multiset(a)
  {
    assert a == a[..r] + a[r..];
  }

  lemma {:induction false} OneLap(f: nat -> nat, a: seq<nat>, c: nat)
    requires Follows(f, a) && f(c) in a
    ensures multiset(Orbit(f, c, |a|)) == multiset(a)
  {
    var r :| 0 <= r < |a| && a[r] == f(c);
    LapPrefix(f, a, c, r, |a|);
    assert (a[r..] + a[..r])[..|a|] == a[r..] + a[..r];
    RotationKeepsElements(a, r);
  }

  lemma {:induction false} EndInCycle(f: nat -> nat, a: seq<nat>, c: nat, m: nat)
    requires Follows(f, a) && f(c) in a
    ensures f(End(f, c, m)) in a
  {
    if m > 0 {
      EndInCycle(f, a, c, m - 1);
      var x :| 0 <= x < |a| && a[x] == f(End(f, c, m - 1));
      assert f(a[x]) == a[Succ(|a|, x)];
    }
  }

  /** `count` is the floor or the ceiling of m/k, said without division. */
  predicate FairShare(count: nat, m: nat, k: nat) {
    m - k < count * k < m + k
  }

  lemma {:induction false} FairStart(count: nat, m: nat, k: nat)
    requires m < k && count <= 1 && (m == 0 ==> count == 0)
    ensures FairShare(count, m, k)
  {
    assert 0 * k == 0 && 1 * k == k;
  }

  lemma {:induction false} FairStep(count: nat, m: nat, k: nat)
    requires FairShare(count, m, k)
    ensures FairShare(count + 1, m + k, k)
  {
    assert (count + 1) * k == count * k + k;
  }

  lemma {:induction false} SumCount(z: seq<nat>, x: seq<nat>, y: seq<nat>, i: nat)
    requires z == x + y
    ensures multiset(z)[i] == multiset(x)[i] + multiset(y)[i]
  {
    assert multiset(x + y) == multiset(x) + multiset(y);
  }

  lemma {:induction false} OrbitHead(f: nat -> nat, c: nat, m: nat)
    requires m > 0
    ensures Orbit(f, c, m) == [f(c)] + Orbit(f, f(c), m - 1)
  {
    SplitAt(f, c, 1, m);
    assert End(f, c, 0) == c && End(f, c, 1) == f(c) && Orbit(f, c, 1) == [f(c)];
  }

  lemma {:induction false} SplitAt(f: nat -> nat, c: nat, k: nat, m: nat)
    requires k <= m
    ensures Orbit(f, c, m) == Orbit(f, c, k) + Orbit(f, End(f, c, k), m - k)
  {
    SplitOrbit(f, c, k, m - k);
    assert k + (m - k) == m;
  }

  /** How often `i` turns up in `m` steps. */
  function Times(f: nat -> nat, c: nat, m: nat, i: nat): nat {
    multiset(Orbit(f, c, m))[i]
  }

  lemma {:induction false} TimesInLap(f: nat -> nat, a: seq<nat>, c: nat, i: nat)
    requires Follows(f, a) && f(c) in a
    ensures Times(f, c, |a|, i) == multiset(a)[i]
  {
    OneLap(f, a, c);
  }

  lemma {:induction false} TimesSplit(f: nat -> nat, c: nat, k: nat, m: nat, i: nat)
    requires k <= m
    ensures Times(f, c, m, i) == Times(f, c, k, i) + Times(f, End(f, c, k), m - k, i)
  {
    SplitAt(f, c, k, m);
    SumCount(Orbit(f, c, m), Orbit(f, c, k), Orbit(f, End(f, c, k), m - k), i);
  }

  lemma {:induction false} NoSteps(f: nat -> nat, c: nat, i: nat)
    ensures Times(f, c, 0, i) == 0
  {
    assert Orbit(f, c, 0) == [];
  }

  /** Over m steps an element that the cycle holds once turns up floor(m/k) or ceil(m/k) times. */
  lemma {:induction false} Share(f: nat -> nat, a: seq<nat>, c: nat, m: nat, i: nat)
    requires a != [] && Follows(f, a) && f(c) in a && multiset(a)[i] == if i in a then 1 else 0
    ensures if i in a then FairShare(Times(f, c, m, i), m, |a|) else Times(f, c, m, i) == 0
    decreases m
  {
    var k := |a|;
    TimesInLap(f, a, c, i);
    if m < k {
      TimesSplit(f, c, m, k, i);
      NoSteps(f, c, i);
      if i in a { FairStart(Times(f, c, m, i), m, k); }
    } else {
      var d := End(f, c, k);
      TimesSplit(f, c, k, m, i);
      EndInCycle(f, a, c, k);
      Share(f, a, d, m - k, i);
      if i in a { FairStep(Times(f, d, m - k, i), m - k, k); }
    }
  }
}

/** How evenly a run of `Get` spreads over the active backends while membership and states
    stay fixed, from any cursor, including one that a removal left past the end. */
module Fairness {
  import opened Types
  import opened RoundRobin
  import opened Cycles

  /** The indices that `m` consecutive calls return. */
  function Dispatched(p: Pool, m: nat): (r: seq<nat>)
    requires SomeActive(p.backends)
    ensures |r| == m
    decreases m
  {
    if m == 0 then [] else [Get(p).0.value] + Dispatched(Get(p).1, m - 1)
  }

  /** The active indices in ascending order. */
  function ActiveIndices(b: seq<BackendValue>): (r: seq<nat>)
    ensures forall x :: x in r <==> 0 <= x < |b| && b[x].IsActive()
    ensures forall i, j :: 0 <= i < j < |r| ==> r[i] < r[j]
  {
    if b == [] then []
    else
      var n := |b| - 1;
      var front := ActiveIndices(b[..n]);
      assert forall i :: 0 <= i < |front| ==> front[i] in front;
      if b[n].IsActive() then front + [n] else front
  }

  function Choice(b: seq<BackendValue>): nat -> nat {
    (c: nat) => if b != [] && Next(b, c).Some? then Next(b, c).value else c
  }

  lemma {:induction false} DispatchedIsOrbit(p: Pool, m: nat)
    requires SomeActive(p.backends)
    ensures Dispatched(p, m) == Orbit(Choice(p.backends), p.lastUsed, m)
    decreases m
  {
    if m > 0 {
      var f := Choice(p.backends);
      DispatchedIsOrbit(Get(p).1, m - 1);
      assert f(p.lastUsed) == Get(p).0.value;
      OrbitHead(f, p.lastUsed, m);
    }
  }

  /** No active index lies strictly between neighbours of the ascending list. */
  lemma {:induction false} NoneBetween(b: seq<BackendValue>, r: nat, j: nat)
    requires r < |ActiveIndices(b)| && j < |b| && b[j].IsActive()
    ensures var a := ActiveIndices(b);
      a[0] <= j && (j <= a[r] || (r + 1 < |a| && a[r + 1] <= j))
  {
    var a := ActiveIndices(b);
    assert j in a;
    var x :| 0 <= x < |a| && a[x] == j;
  }

  lemma {:induction false} NeighbourIsFirst(b: seq<BackendValue>, x: nat, y: nat)
    requires x < |b| && y < |b| && b[y].IsActive()
    requires forall j :: 0 <= j < |b| && b[j].IsActive() ==> if x < y then j <= x || y <= j else y <= j <= x
    ensures FirstInCyclicOrder(b, x, y)
  {
    NextSlot(|b|, x);
  }

  /** From an active index the next call returns the following active index, or wraps. */
  lemma {:induction false} SuccessorIsNext(b: seq<BackendValue>, r: nat)
    requires r < |ActiveIndices(b)|
    ensures b != []
    ensures var a := ActiveIndices(b);
      FirstInCyclicOrder(b, a[r], a[Succ(|a|, r)])
  {
    var a := ActiveIndices(b);
    var y := a[Succ(|a|, r)];
    assert a[r] in a && y in a;
    forall j | 0 <= j < |b| && b[j].IsActive()
      ensures if a[r] < y then j <= a[r] || y <= j else y <= j <= a[r]
    {
      NoneBetween(b, r, j);
    }
    NeighbourIsFirst(b, a[r], y);
  }

  lemma {:induction false} ChoiceFollows(b: seq<BackendValue>, c: nat)
    requires SomeActive(b)
    ensures ActiveIndices(b) != []
    ensures Follows(Choice(b), ActiveIndices(b)) && Choice(b)(c) in ActiveIndices(b)
  {
    var a, f := ActiveIndices(b), Choice(b);
    forall x | 0 <= x < |a| ensures f(a[x]) == a[Succ(|a|, x)] {
      SuccessorIsNext(b, x);
      NextIsFirst(b, a[x], a[Succ(|a|, x)]);
    }
    NextIsFirst(b, c, 0);
  }

  lemma {:induction false} SortedOnce(a: seq<nat>, i: nat)
    requires forall x, y :: 0 <= x < y < |a| ==> a[x] < a[y]
    ensures multiset(a)[i] == if i in a then 1 else 0
  {
    if a != [] {
      var n := |a| - 1;
      assert a == a[..n] + [a[n]];
      SortedOnce(a[..n], i);
    }
  }

  /** With k active backends, any k consecutive calls return each of them exactly once. */
  lemma {:induction false} EachOncePerLap(p: Pool)
    requires SomeActive(p.backends)
    ensures var a := ActiveIndices(p.backends);
      a != [] && multiset(Dispatched(p, |a|)) == multiset(a)
  {
    var a := ActiveIndices(p.backends);
    ChoiceFollows(p.backends, p.lastUsed);
    OneLap(Choice(p.backends), a, p.lastUsed);
    DispatchedIsOrbit(p, |a|);
  }

  lemma {:induction false} OrbitShare(f: nat -> nat, a: seq<nat>, c: nat, m: nat, i: nat)
    requires a != [] && Follows(f, a) && f(c) in a
    requires forall x, y :: 0 <= x < y < |a| ==> a[x] < a[y]
    ensures if i in a then FairShare(multiset(Orbit(f, c, m))[i], m, |a|)
            else multiset(Orbit(f, c, m))[i] == 0
  {
    SortedOnce(a, i);
    Share(f, a, c, m, i);
  }

  /** Over m calls every active backend is returned floor(m/k) or ceil(m/k) times and no other
      backend is returned at all. */
  lemma {:induction false} ExactFairness(p: Pool, m: nat, i: nat)
    requires SomeActive(p.backends)
    ensures var a := ActiveIndices(p.backends);
      && a != []
      && if i in a then FairShare(multiset(Dispatched(p, m))[i], m, |a|)
         else multiset(Dispatched(p, m))[i] == 0
  {
    ChoiceFollows(p.backends, p.lastUsed);
    OrbitShare(Choice(p.backends), ActiveIndices(p.backends), p.lastUsed, m, i);
    DispatchedIsOrbit(p, m);
  }
}
