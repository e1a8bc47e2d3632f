/** The in-flight semaphore reduced to expiries: what a run of acquires and
    settles does to the leases, and what it means to the holders. */
module Semaphore {
  import opened Redis

  datatype Params = Params(maxInflight: nat, lease: nat)

  ghost predicate Sensible(p: Params) { 1 <= p.maxInflight && 1 <= p.lease }

  /** The expiries of the leases in the set, and of the leases that the
      outstanding holders were given, both in order of acquisition. */
  datatype State = State(leases: seq<nat>, holders: seq<nat>, clock: nat)

  datatype Event =
    | Acquire(gateway: string, at: nat)
    | Settle(holder: nat, at: nat)  // index into the outstanding holders

  const START := State([], [], 0)

  function Tail(xs: seq<nat>): seq<nat> {
    if xs == [] then [] else xs[1..]
  }

  function Without<T>(xs: seq<T>, i: nat): seq<T> {
    if i < |xs| then xs[..i] + xs[i + 1..] else xs
  }

  /** Both steps purge first; a settle drops the oldest lease, whoever settles. */
  function Step(p: Params, s: State, e: Event): State {
    var live := After(s.leases, e.at);
    match e
    case Acquire(_, at) =>
      if |live| >= p.maxInflight then State(live, s.holders, at)
      else State(live + [at + p.lease], s.holders + [at + p.lease], at)
    case Settle(h, at) => State(Tail(live), Without(s.holders, h), at)
  }

  function Run(p: Params, es: seq<Event>): State {
    if es == [] then START else Step(p, Run(p, es[..|es| - 1]), es[|es| - 1])
  }

  // ---- hypotheses on a run ----

  /** The clock does not run backwards and only an outstanding holder settles. */
  ghost predicate Possible(s: State, e: Event) {
    s.clock <= e.at && (e.Settle? ==> e.holder < |s.holders|) && (e.Acquire? ==> ':' !in e.gateway)
  }

  /** The settling holder's own lease still runs. Holders that crash never settle. */
  ghost predicate SettlesInTime(s: State, e: Event) {
    Possible(s, e) && (e.Settle? ==> e.at < s.holders[e.holder])
  }

  /** A settlement that leaves every running holder its slot: it is in time, or some
      running lease is to spare, or nobody runs. */
  ghost predicate SparesRunning(s: State, e: Event) {
    && Possible(s, e)
    && (e.Settle? ==>
          || e.at < s.holders[e.holder]
          || |After(s.holders, e.at)| < |After(s.leases, e.at)|
          || After(s.holders, e.at) == [])
  }

  /** Every outstanding holder's own lease still runs. */
  ghost predicate NobodyOverdue(s: State, e: Event) {
    Possible(s, e) && forall i :: 0 <= i < |s.holders| ==> e.at < s.holders[i]
  }

  /** The settling holder is an oldest one among those whose lease still runs. */
  ghost predicate OldestSettles(s: State, e: Event) {
    SettlesInTime(s, e) && (e.Settle? ==> [s.holders[e.holder]] <= After(s.holders, e.at))
  }

  ghost predicate Always(p: Params, es: seq<Event>, ok: (State, Event) -> bool) {
    forall i :: 0 <= i < |es| ==> ok(Run(p, es[..i]), es[i])
  }

  lemma AlwaysPrefix(p: Params, es: seq<Event>, ok: (State, Event) -> bool)
    requires Always(p, es, ok) && es != []
    ensures Always(p, es[..|es| - 1], ok)
    ensures ok(Run(p, es[..|es| - 1]), es[|es| - 1])
  {
    AlwaysTake(p, es, ok, |es| - 1);
  }

  lemma RunTake(p: Params, es: seq<Event>, n: nat)
    requires n < |es|
    ensures Run(p, es[..n + 1]) == Step(p, Run(p, es[..n]), es[n])
  {
    assert es[..n + 1][..n] == es[..n];
  }

  lemma AlwaysTake(p: Params, es: seq<Event>, ok: (State, Event) -> bool, n: nat)
    requires Always(p, es, ok) && n <= |es|
    ensures Always(p, es[..n], ok)
  {
    forall i | 0 <= i < n ensures ok(Run(p, es[..n][..i]), es[..n][i]) {
      assert es[..n][..i] == es[..i];
    }
  }

  lemma AlwaysSnoc(p: Params, es: seq<Event>, e: Event, ok: (State, Event) -> bool)
    requires Always(p, es, ok) && ok(Run(p, es), e)
    ensures Always(p, es + [e], ok) && Run(p, es + [e]) == Step(p, Run(p, es), e)
  {
    assert (es + [e])[..|es|] == es;
    forall i | 0 <= i < |es| + 1 ensures ok(Run(p, (es + [e])[..i]), (es + [e])[i]) {
      assert i < |es| ==> (es + [e])[..i] == es[..i];
    }
  }

  // ---- what every possible run keeps ----

  ghost predicate Ordered(p: Params, s: State) {
    && Ascending(s.leases) && AllAtMost(s.leases, s.clock + p.lease)
    && Ascending(s.holders) && AllAtMost(s.holders, s.clock + p.lease)
  }

  lemma AscendingWithout(xs: seq<nat>, j: nat)
    requires Ascending(xs)
    ensures Ascending(Without(xs, j))
  {
  }

  lemma StepKeepsOrdered(p: Params, s: State, e: Event)
    requires Ordered(p, s) && Possible(s, e)
    ensures Ordered(p, Step(p, s, e))
  {
    hide After;
    AfterIsSuffix(s.leases, e.at);
    if e.Settle? { AscendingWithout(s.holders, e.holder); }
  }

  lemma {:induction false} RunKeepsOrdered(p: Params, es: seq<Event>)
    requires Always(p, es, Possible)
    ensures Ordered(p, Run(p, es)) && |Run(p, es).leases| <= p.maxInflight
  {
    if es != [] {
      AlwaysPrefix(p, es, Possible);
      RunKeepsOrdered(p, es[..|es| - 1]);
      StepKeepsOrdered(p, Run(p, es[..|es| - 1]), es[|es| - 1]);
      AfterIsSuffix(Run(p, es[..|es| - 1]).leases, es[|es| - 1].at);
    }
  }

  lemma {:induction false} LeasesBounded(p: Params, es: seq<Event>, bound: nat)
    requires Always(p, es, Possible)
    requires forall i :: 0 <= i < |es| && es[i].Acquire? ==> es[i].at + p.lease <= bound
    ensures AllAtMost(Run(p, es).leases, bound)
  {
    hide After, Always;
    if es != [] {
      var s, e := Run(p, es[..|es| - 1]), es[|es| - 1];
      AlwaysPrefix(p, es, Possible);
      LeasesBounded(p, es[..|es| - 1], bound);
      RunKeepsOrdered(p, es[..|es| - 1]);
      AfterIsSuffix(s.leases, e.at);
    }
  }

  // ---- domination of holders by leases ----

  /** Aligned at the latest end, each lease outlasts a holder of its own. */
  ghost predicate Dominates(leases: seq<nat>, holders: seq<nat>) {
    |holders| <= |leases| &&
    forall i :: 0 <= i < |holders| ==> holders[i] <= leases[|leases| - |holders| + i]
  }

  lemma DominatesSuffix(leases: seq<nat>, holders: seq<nat>, l: nat, h: nat)
    requires Dominates(leases, holders) && l <= |leases| && h <= |holders|
    requires h < |holders| ==> l <= |leases| - |holders| + h
    ensures Dominates(leases[l..], holders[h..])
  {
    var off := |leases| - |holders|;
    forall i | 0 <= i < |holders| - h ensures holders[h..][i] <= leases[l..][off + h - l + i] {
      assert holders[h + i] <= leases[off + (h + i)];
    }
  }

  lemma DominatesLater(leases: seq<nat>, holders: seq<nat>, t: nat)
    requires Ascending(leases) && Ascending(holders) && Dominates(leases, holders)
    ensures Dominates(After(leases, t), After(holders, t))
  {
    hide After, Ascending;
    AfterIsSuffix(leases, t);
    AfterIsSuffix(holders, t);
    var l, h := |leases| - |After(leases, t)|, |holders| - |After(holders, t)|;
    if h < |holders| { assert t < holders[h] <= leases[|leases| - |holders| + h]; }
    DominatesSuffix(leases, holders, l, h);
  }

  lemma DominatesSettle(leases: seq<nat>, holders: seq<nat>, j: nat)
    requires Ascending(holders) && Dominates(leases, holders) && j < |holders|
    ensures Dominates(Tail(leases), Without(holders, j))
  {
    var rest := Without(holders, j);
    forall i | 0 <= i < |rest| ensures rest[i] <= Tail(leases)[|Tail(leases)| - |rest| + i] {
      assert rest[i] <= holders[i + 1] <= leases[|leases| - |holders| + (i + 1)];
    }
  }

  /** Domination is about counts: it says that at every later instant there are at
      least as many leases as running holders. */
  lemma DominatesIffAtLeastAsMany(leases: seq<nat>, holders: seq<nat>, now: nat)
    requires Ascending(leases) && Ascending(holders)
    ensures Dominates(After(leases, now), After(holders, now)) <==> AtLeastAsMany(leases, holders, now)
  {
    hide After, Ascending, Dominates;
    if Dominates(After(leases, now), After(holders, now)) { LaterAtLeastAsMany(leases, holders, now); }
    if AtLeastAsMany(leases, holders, now) { AtLeastAsManyDominates(leases, holders, now); }
  }

  lemma LaterAtLeastAsMany(leases: seq<nat>, holders: seq<nat>, now: nat)
    requires Ascending(leases) && Ascending(holders) && Dominates(After(leases, now), After(holders, now))
    ensures AtLeastAsMany(leases, holders, now)
  {
    hide After, Ascending, Dominates;
    AfterIsSuffix(leases, now);
    AfterIsSuffix(holders, now);
    forall t: nat | now <= t ensures |After(holders, t)| <= |After(leases, t)| {
      DominatesLater(After(leases, now), After(holders, now), t);
      AfterAfter(leases, now, t);
      AfterAfter(holders, now, t);
      NoFewer(After(leases, t), After(holders, t));
    }
  }

  lemma NoFewer(leases: seq<nat>, holders: seq<nat>)
    requires Dominates(leases, holders)
    ensures |holders| <= |leases|
  {
  }

  lemma AtLeastAsManyDominates(leases: seq<nat>, holders: seq<nat>, now: nat)
    requires Ascending(leases) && Ascending(holders) && AtLeastAsMany(leases, holders, now)
    ensures Dominates(After(leases, now), After(holders, now))
  {
    hide After, Ascending;
    var live, running := After(leases, now), After(holders, now);
    assert |running| <= |live|;
    forall i | 0 <= i < |running| ensures running[i] <= live[|live| - |running| + i] {
      LeaseBeyond(leases, holders, now, i);
    }
  }

  ghost predicate AtLeastAsMany(leases: seq<nat>, holders: seq<nat>, now: nat) {
    forall t: nat :: now <= t ==> |After(holders, t)| <= |After(leases, t)|
  }

  lemma LeaseBeyond(leases: seq<nat>, holders: seq<nat>, now: nat, i: nat)
    requires Ascending(leases) && Ascending(holders) && AtLeastAsMany(leases, holders, now) && i < |After(holders, now)|
    ensures |After(holders, now)| <= |After(leases, now)|
    ensures After(holders, now)[i] <= After(leases, now)[|After(leases, now)| - |After(holders, now)| + i]
  {
    hide After, Ascending;
    AfterIsSuffix(leases, now);
    AfterIsSuffix(holders, now);
    var live, running := After(leases, now), After(holders, now);
    var t := running[i] - 1;
    AfterAfter(leases, now, t);
    AfterAfter(holders, now, t);
    AfterIsSuffix(live, t);
    AfterIsSuffix(running, t);
    assert |running| - i <= |After(running, t)|;
    assert |running| <= |live|;
  }

  /** Removing one holder who still runs removes it from the running ones. */
  lemma AfterWithout(xs: seq<nat>, k: nat, t: nat) returns (j: nat)
    requires k < |xs| && t < xs[k]
    ensures j < |After(xs, t)| && After(xs, t)[j] == xs[k]
    ensures After(Without(xs, k), t) == Without(After(xs, t), j)
  {
    AfterConcat(xs[..k], xs[k..], t);
    AfterConcat(xs[..k], xs[k + 1..], t);
    assert xs == xs[..k] + xs[k..] && xs[k..][1..] == xs[k + 1..];
    j := |After(xs[..k], t)|;
    assert After(xs, t) == After(xs[..k], t) + ([xs[k]] + After(xs[k + 1..], t));
  }

  /** At `now`, the running leases dominate the running holders. */
  ghost predicate Covered(s: State, now: nat) {
    Dominates(After(s.leases, now), After(s.holders, now))
  }

  lemma CoveredLater(p: Params, s: State, now: nat)
    requires Ordered(p, s) && Covered(s, s.clock) && s.clock <= now
    ensures Covered(s, now)
  {
    AfterIsSuffix(s.leases, s.clock);
    AfterIsSuffix(s.holders, s.clock);
    DominatesLater(After(s.leases, s.clock), After(s.holders, s.clock), now);
    AfterAfter(s.leases, s.clock, now);
    AfterAfter(s.holders, s.clock, now);
  }

  lemma AcquireKeepsCovered(p: Params, s: State, e: Event)
    requires Sensible(p) && Ordered(p, s) && Covered(s, e.at) && Possible(s, e) && e.Acquire?
    ensures Covered(Step(p, s, e), e.at)
  {
    hide After, Ascending, AllAtMost;
    var t := e.at + p.lease;
    AfterAfter(s.leases, e.at, e.at);
    AfterSnoc(After(s.leases, e.at), t, e.at);
    AfterSnoc(s.holders, t, e.at);
  }

  /** A settlement keeps the running holders covered exactly when it is in time, or
      a running lease is to spare, or nobody runs. */
  lemma SettleCoveredIff(p: Params, s: State, e: Event)
    requires Ordered(p, s) && Covered(s, e.at) && Possible(s, e) && e.Settle?
    ensures Covered(Step(p, s, e), e.at) <==> SparesRunning(s, e)
  {
    hide After, Ascending, AllAtMost, Without;
    var live, running := After(s.leases, e.at), After(s.holders, e.at);
    AfterIsSuffix(s.holders, e.at);
    AfterIsSuffix(s.leases, e.at);
    AfterOfLater(Tail(live), e.at);
    if e.at < s.holders[e.holder] {
      var j := AfterWithout(s.holders, e.holder, e.at);
      DominatesSettle(live, running, j);
    } else {
      AfterWithoutExpired(s.holders, e.holder, e.at);
      if |running| < |live| { DominatesSuffix(live, running, 1, 0); }
    }
  }

  /** Removing an expired holder leaves the running ones as they are. */
  lemma AfterWithoutExpired(xs: seq<nat>, k: nat, t: nat)
    requires k < |xs| && xs[k] <= t
    ensures After(Without(xs, k), t) == After(xs, t)
  {
    AfterConcat(xs[..k], xs[k..], t);
    AfterConcat(xs[..k], xs[k + 1..], t);
    assert xs == xs[..k] + xs[k..] && xs[k..][1..] == xs[k + 1..];
  }

  lemma {:induction false} RunKeepsCovered(p: Params, es: seq<Event>)
    requires Sensible(p) && Always(p, es, SparesRunning)
    ensures Ordered(p, Run(p, es)) && Covered(Run(p, es), Run(p, es).clock)
  {
    RunKeepsOrdered(p, es);
    if es != [] {
      var s, e := Run(p, es[..|es| - 1]), es[|es| - 1];
      AlwaysPrefix(p, es, SparesRunning);
      RunKeepsCovered(p, es[..|es| - 1]);
      CoveredLater(p, s, e.at);
      if e.Acquire? { AcquireKeepsCovered(p, s, e); } else { SettleCoveredIff(p, s, e); }
    }
  }

  /** Running holders are covered all along a run exactly when every settlement
      spares them. */
  lemma {:induction false} AlwaysCoveredIff(p: Params, es: seq<Event>)
    requires Sensible(p) && Always(p, es, Possible)
    ensures (forall i :: 0 <= i <= |es| ==> Covered(Run(p, es[..i]), Run(p, es[..i]).clock)) <==> Always(p, es, SparesRunning)
  {
    hide Run, Step, After, Covered, Ordered, SparesRunning;
    if Always(p, es, SparesRunning) {
      forall i | 0 <= i <= |es| ensures Covered(Run(p, es[..i]), Run(p, es[..i]).clock) {
        AlwaysTake(p, es, SparesRunning, i);
        RunKeepsCovered(p, es[..i]);
      }
    }
    if forall i :: 0 <= i <= |es| ==> Covered(Run(p, es[..i]), Run(p, es[..i]).clock) {
      forall i | 0 <= i < |es| ensures SparesRunning(Run(p, es[..i]), es[i]) {
        var s, e := Run(p, es[..i]), es[i];
        AlwaysTake(p, es, Possible, i);
        RunKeepsOrdered(p, es[..i]);
        CoveredLater(p, s, e.at);
        RunTake(p, es, i);
        StepClock(p, s, e);
        assert Covered(Run(p, es[..i + 1]), Run(p, es[..i + 1]).clock);
        if e.Settle? { SettleCoveredIff(p, s, e); } else { AcquireSpares(s, e); }
      }
    }
  }

  lemma StepClock(p: Params, s: State, e: Event)
    ensures Step(p, s, e).clock == e.at
  {
  }

  lemma AcquireSpares(s: State, e: Event)
    requires Possible(s, e) && e.Acquire?
    ensures SparesRunning(s, e) && OldestSettles(s, e)
  {
  }

  // ---- nobody overdue ----

  lemma NothingPurged(p: Params, s: State, now: nat)
    requires Ordered(p, s) && Covered(s, s.clock) && s.clock <= now && |s.leases| == |s.holders|
    requires forall i :: 0 <= i < |s.holders| ==> now < s.holders[i]
    ensures After(s.leases, now) == s.leases
  {
    CoveredLater(p, s, now);
    AfterOfLater(s.holders, now);
    AfterIsSuffix(s.leases, now);
  }

  lemma {:induction false} EquallyMany(p: Params, es: seq<Event>)
    requires Sensible(p) && Always(p, es, NobodyOverdue)
    ensures |Run(p, es).leases| == |Run(p, es).holders|
  {
    if es != [] {
      AlwaysPrefix(p, es, NobodyOverdue);
      EquallyMany(p, es[..|es| - 1]);
      RunKeepsCovered(p, es[..|es| - 1]);
      NothingPurged(p, Run(p, es[..|es| - 1]), es[|es| - 1].at);
    }
  }

  // ---- when a crashed holder's slot comes back ----

  /** Leases and running holders have the same expiries. */
  ghost predicate Exact(s: State, now: nat) {
    After(s.leases, now) == After(s.holders, now)
  }

  /** So a crashed holder's slot comes back exactly when its own lease ends: at every
      later instant there are as many leases as running holders. */
  lemma ExactIffAsMany(leases: seq<nat>, holders: seq<nat>, now: nat)
    requires Ascending(leases) && Ascending(holders)
    ensures After(leases, now) == After(holders, now) <==> AsMany(leases, holders, now)
  {
    hide After, Ascending;
    var live, running := After(leases, now), After(holders, now);
    if live == running {
      forall t: nat | now <= t ensures |After(leases, t)| == |After(holders, t)| {
        AfterAfter(leases, now, t);
        AfterAfter(holders, now, t);
      }
    }
    if AsMany(leases, holders, now) {
      DominatesIffAtLeastAsMany(leases, holders, now);
      DominatesIffAtLeastAsMany(holders, leases, now);
      assert forall i :: 0 <= i < |live| ==> live[i] <= running[i] <= live[i];
    }
  }

  ghost predicate AsMany(leases: seq<nat>, holders: seq<nat>, now: nat) {
    forall t: nat :: now <= t ==> |After(leases, t)| == |After(holders, t)|
  }

  lemma WithoutFirstOrEqual(xs: seq<nat>, j: nat)
    requires Ascending(xs) && j < |xs|
    ensures xs[1..] == Without(xs, j) <==> xs[j] == xs[0]
  {
    hide Ascending;
    if xs[j] == xs[0] { DropsEqual(xs, j); }
    if xs[1..] == Without(xs, j) { EqualUpTo(xs, j); }
  }

  lemma DropsEqual(xs: seq<nat>, j: nat)
    requires Ascending(xs) && j < |xs| && xs[j] == xs[0]
    ensures xs[1..] == Without(xs, j)
  {
    forall i | 0 <= i < |xs| - 1 ensures xs[1..][i] == Without(xs, j)[i] {
      if i < j { assert xs[0] <= xs[i] <= xs[j] && xs[0] <= xs[i + 1] <= xs[j]; }
    }
  }

  lemma {:induction false} EqualUpTo(xs: seq<nat>, j: nat)
    requires j < |xs| && xs[1..] == Without(xs, j)
    ensures xs[j] == xs[0]
  {
    for i := 0 to j
      invariant xs[i] == xs[0]
    {
      assert xs[1..][i] == Without(xs, j)[i];
    }
  }

  /** A timely release keeps the set exact if and only if the settling holder is
      an oldest running one. */
  lemma ReleaseExactIffOldest(p: Params, s: State, e: Event)
    requires Ordered(p, s) && Exact(s, e.at) && SettlesInTime(s, e) && e.Settle?
    ensures Exact(Step(p, s, e), e.at) <==> OldestSettles(s, e)
  {
    var running := After(s.holders, e.at);
    AfterIsSuffix(s.holders, e.at);
    var j := AfterWithout(s.holders, e.holder, e.at);
    WithoutFirstOrEqual(running, j);
    AfterOfLater(Tail(running), e.at);
  }

  /** If every settling holder is an oldest running one, the set stays exact: a
      crashed holder's slot is reclaimed at its own expiry under any traffic. */
  lemma {:induction false} ReclaimedWhenOldestSettles(p: Params, es: seq<Event>, now: nat)
    requires Sensible(p) && Always(p, es, OldestSettles) && Run(p, es).clock <= now
    ensures Exact(Run(p, es), now)
  {
    if es != [] {
      var s, e := Run(p, es[..|es| - 1]), es[|es| - 1];
      AlwaysPrefix(p, es, OldestSettles);
      ReclaimedWhenOldestSettles(p, es[..|es| - 1], e.at);
      RunKeepsOrdered(p, es[..|es| - 1]);
      ExactStep(p, s, e);
      AfterAfter(Run(p, es).leases, e.at, now);
      AfterAfter(Run(p, es).holders, e.at, now);
    }
  }

  lemma ExactLater(s: State, now: nat)
    requires Exact(s, s.clock) && s.clock <= now
    ensures Exact(s, now)
  {
    AfterAfter(s.leases, s.clock, now);
    AfterAfter(s.holders, s.clock, now);
  }

  /** Along a run in which nobody settles late, leases stay exact all the time if
      and only if every settling holder is an oldest running one. */
  lemma {:induction false} AlwaysExactIffOldest(p: Params, es: seq<Event>)
    requires Sensible(p) && Always(p, es, SettlesInTime)
    ensures (forall i :: 0 <= i <= |es| ==> Exact(Run(p, es[..i]), Run(p, es[..i]).clock)) <==> Always(p, es, OldestSettles)
  {
    hide Run, Step, After, Exact, Ordered, OldestSettles, SettlesInTime;
    if Always(p, es, OldestSettles) {
      forall i | 0 <= i <= |es| ensures Exact(Run(p, es[..i]), Run(p, es[..i]).clock) {
        AlwaysTake(p, es, OldestSettles, i);
        ReclaimedWhenOldestSettles(p, es[..i], Run(p, es[..i]).clock);
      }
    }
    if forall i :: 0 <= i <= |es| ==> Exact(Run(p, es[..i]), Run(p, es[..i]).clock) {
      forall i | 0 <= i < |es| ensures OldestSettles(Run(p, es[..i]), es[i]) {
        var s, e := Run(p, es[..i]), es[i];
        TimelyIsPossible(p, es);
        AlwaysTake(p, es, Possible, i);
        RunKeepsOrdered(p, es[..i]);
        ExactLater(s, e.at);
        RunTake(p, es, i);
        StepClock(p, s, e);
        assert Exact(Run(p, es[..i + 1]), Run(p, es[..i + 1]).clock);
        if e.Settle? { ReleaseExactIffOldest(p, s, e); } else { AcquireSpares(s, e); }
      }
    }
  }

  lemma TimelyIsPossible(p: Params, es: seq<Event>)
    requires Always(p, es, SettlesInTime)
    ensures Always(p, es, Possible) && Always(p, es, SparesRunning)
  {
  }

  lemma ExactStep(p: Params, s: State, e: Event)
    requires Sensible(p) && Ordered(p, s) && Exact(s, e.at) && OldestSettles(s, e)
    ensures Exact(Step(p, s, e), e.at)
  {
    if e.Settle? {
      ReleaseExactIffOldest(p, s, e);
    } else {
      AfterAfter(s.leases, e.at, e.at);
      AfterSnoc(After(s.leases, e.at), e.at + p.lease, e.at);
      AfterSnoc(s.holders, e.at + p.lease, e.at);
    }
  }

  /** One crash at instant 0, then `rounds` short requests, one after another, each
      acquiring one tick before the previous lease would end. */
  function Traffic(p: Params, rounds: nat): seq<Event>
    requires 2 <= p.lease
  {
    if rounds == 0 then [Acquire("crashed", 0)]
    else Traffic(p, rounds - 1) + [Acquire("busy", RoundAt(p, rounds))] + [Settle(1, RoundAt(p, rounds))]
  }

  function RoundAt(p: Params, rounds: nat): (t: nat)
    requires 2 <= p.lease
    ensures rounds <= t && (2 <= rounds ==> p.lease <= t)
  {
    if rounds == 0 then 0 else RoundAt(p, rounds - 1) + p.lease - 1
  }

  /** The state of such traffic: one lease, taken at the last event, and one
      outstanding holder, the crashed one. */
  function Carried(p: Params, at: nat): State {
    State([at + p.lease], [p.lease], at)
  }

  lemma RoundSteps(p: Params, s: State, at: nat)
    requires 2 <= p.maxInflight && 2 <= p.lease <= at + 1 && s == Carried(p, at + 1 - p.lease)
    ensures SettlesInTime(s, Acquire("busy", at))
    ensures SettlesInTime(Step(p, s, Acquire("busy", at)), Settle(1, at))
    ensures Step(p, Step(p, s, Acquire("busy", at)), Settle(1, at)) == Carried(p, at)
  {
    hide After;
    AfterOfLater([at + 1], at);
    var s1 := Step(p, s, Acquire("busy", at));
    assert s1 == State([at + 1, at + p.lease], [p.lease, at + p.lease], at);
    AfterOfLater([at + 1, at + p.lease], at);
  }

  /** Reclamation fails for such traffic, however long it lasts: nobody settles
      late, the only outstanding holder is the crashed one, its lease ended long
      ago, and its slot is still taken. */
  lemma {:induction false} CrashedSlotCarriedForward(p: Params, rounds: nat)
    requires 2 <= p.maxInflight && 2 <= p.lease
    ensures Always(p, Traffic(p, rounds), SettlesInTime)
    ensures Run(p, Traffic(p, rounds)) == Carried(p, RoundAt(p, rounds))
  {
    hide Always;
    if rounds == 0 {
      FirstCrash(p);
    } else {
      hide Step, SettlesInTime, Carried;
      var es, at := Traffic(p, rounds - 1), RoundAt(p, rounds);
      CrashedSlotCarriedForward(p, rounds - 1);
      RoundSteps(p, Run(p, es), at);
      AlwaysSnoc(p, es, Acquire("busy", at), SettlesInTime);
      AlwaysSnoc(p, es + [Acquire("busy", at)], Settle(1, at), SettlesInTime);
    }
  }

  lemma FirstCrash(p: Params)
    requires 2 <= p.maxInflight && 2 <= p.lease
    ensures Always(p, Traffic(p, 0), SettlesInTime) && Run(p, Traffic(p, 0)) == Carried(p, 0)
  {
    assert Always(p, [], SettlesInTime);
    AlwaysSnoc(p, [], Acquire("crashed", 0), SettlesInTime);
    assert [] + [Acquire("crashed", 0)] == Traffic(p, 0);
  }

  // ---- late settlements ----

  function Copies(x: nat, n: nat): (r: seq<nat>)
    ensures |r| == n && forall i :: 0 <= i < n ==> r[i] == x
  {
    seq(n, _ => x)
  }

  function Acquires(n: nat, at: nat): seq<Event> {
    if n == 0 then [] else Acquires(n - 1, at) + [Acquire("g", at)]
  }

  /** The oldest holder settles and somebody else acquires, n times over. */
  function Exchanges(n: nat, at: nat): seq<Event> {
    if n == 0 then [] else Exchanges(n - 1, at) + [Settle(0, at)] + [Acquire("g", at)]
  }

  /** One lease after the other: the limit is filled again, and then every holder
      of the previous round settles, late by then, and is replaced. */
  function LateRounds(p: Params, rounds: nat): seq<Event> {
    if rounds == 0 then Acquires(p.maxInflight, 0)
    else
      LateRounds(p, rounds - 1) + Acquires(p.maxInflight, StartOf(p, rounds)) +
      Exchanges(Crowd(p, rounds - 1), StartOf(p, rounds))
  }

  function StartOf(p: Params, rounds: nat): nat {
    if rounds == 0 then 0 else StartOf(p, rounds - 1) + p.lease
  }

  /** The limit, times one more than the number of rounds. */
  function Crowd(p: Params, rounds: nat): (n: nat)
    ensures n == (rounds + 1) * p.maxInflight
  {
    if rounds == 0 then p.maxInflight else Crowd(p, rounds - 1) + p.maxInflight
  }

  lemma {:induction false} FillUp(p: Params, es: seq<Event>, n: nat, at: nat)
    requires Sensible(p) && n <= p.maxInflight && Always(p, es, Possible)
    requires Run(p, es).clock <= at && AllAtMost(Run(p, es).leases, at)
    ensures Always(p, es + Acquires(n, at), Possible)
    ensures var s := Run(p, es + Acquires(n, at));
            && After(s.leases, at) == Copies(at + p.lease, n) && s.clock <= at
            && s.holders == Run(p, es).holders + Copies(at + p.lease, n)
            && (n > 0 ==> s.leases == Copies(at + p.lease, n) && s.clock == at)
  {
    hide Always, After, Run;
    if n == 0 {
      assert es + [] == es;
      AfterOfEarlier(Run(p, es).leases, at);
      assert Copies(at + p.lease, 0) == [];
    } else {
      var x, fewer := at + p.lease, es + Acquires(n - 1, at);
      FillUp(p, es, n - 1, at);
      AlwaysSnoc(p, fewer, Acquire("g", at), Possible);
      assert es + Acquires(n, at) == fewer + [Acquire("g", at)];
      assert Copies(x, n) == Copies(x, n - 1) + [x];
      AfterOfLater(Copies(x, n), at);
    }
  }

  lemma ExchangeOne(p: Params, s: State, late: nat, running: nat, at: nat)
    requires Sensible(p) && 1 <= late
    requires s == State(Copies(at + p.lease, p.maxInflight), Copies(at, late) + Copies(at + p.lease, running), at)
    ensures Possible(s, Settle(0, at)) && Possible(Step(p, s, Settle(0, at)), Acquire("g", at))
    ensures Step(p, Step(p, s, Settle(0, at)), Acquire("g", at)) ==
            State(Copies(at + p.lease, p.maxInflight), Copies(at, late - 1) + Copies(at + p.lease, running + 1), at)
  {
    hide After;
    var x := at + p.lease;
    AfterOfLater(s.leases, at);
    AfterOfLater(Tail(s.leases), at);
    assert Tail(s.leases) + [x] == s.leases;
    assert Without(s.holders, 0) + [x] == Copies(at, late - 1) + Copies(x, running + 1);
  }

  lemma {:induction false} ExchangeAll(p: Params, es: seq<Event>, n: nat, late: nat, at: nat)
    requires Sensible(p) && n <= late && Always(p, es, Possible)
    requires Run(p, es) == State(Copies(at + p.lease, p.maxInflight), Copies(at, late) + Copies(at + p.lease, p.maxInflight), at)
    ensures Always(p, es + Exchanges(n, at), Possible)
    ensures Run(p, es + Exchanges(n, at)) ==
            State(Copies(at + p.lease, p.maxInflight), Copies(at, late - n) + Copies(at + p.lease, p.maxInflight + n), at)
  {
    hide Always, After, Run, Step, Possible, Copies;
    if n == 0 {
      assert es + [] == es;
    } else {
      var fewer := es + Exchanges(n - 1, at);
      ExchangeAll(p, es, n - 1, late, at);
      ExchangeOne(p, Run(p, fewer), late - (n - 1), p.maxInflight + n - 1, at);
      AlwaysSnoc(p, fewer, Settle(0, at), Possible);
      AlwaysSnoc(p, fewer + [Settle(0, at)], Acquire("g", at), Possible);
      assert es + Exchanges(n, at) == fewer + [Settle(0, at)] + [Acquire("g", at)];
    }
  }

  /** Settling late breaks the limit, for every limit and every lease, and without
      bound: after any number of such rounds that many times the limit run. */
  lemma {:induction false} LateSettleOveradmits(p: Params, rounds: nat)
    requires Sensible(p)
    ensures Always(p, LateRounds(p, rounds), Possible)
    ensures var s, at := Run(p, LateRounds(p, rounds)), StartOf(p, rounds);
            && s == State(Copies(at + p.lease, p.maxInflight), Copies(at + p.lease, Crowd(p, rounds)), at)
            && |After(s.holders, s.clock)| == (rounds + 1) * p.maxInflight
  {
    hide Always, After, Run, Step, Possible;
    var at, crowd := StartOf(p, rounds), Crowd(p, rounds);
    if rounds == 0 {
      NoEvents(p);
      FillUp(p, [], p.maxInflight, 0);
      assert [] + Acquires(p.maxInflight, 0) == LateRounds(p, 0);
      assert [] + Copies(p.lease, p.maxInflight) == Copies(p.lease, crowd);
    } else {
      var before := LateRounds(p, rounds - 1);
      LateSettleOveradmits(p, rounds - 1);
      FillUp(p, before, p.maxInflight, at);
      ExchangeAll(p, before + Acquires(p.maxInflight, at), Crowd(p, rounds - 1), Crowd(p, rounds - 1), at);
      assert Copies(at, 0) + Copies(at + p.lease, crowd) == Copies(at + p.lease, crowd);
    }
    AfterOfLater(Copies(at + p.lease, crowd), at);
  }

  lemma NoEvents(p: Params)
    ensures Always(p, [], Possible) && Run(p, []) == START
  {
  }
}
